/**
 * What a committed offset promises: that everything below it has been processed, unless a batch was cut
 * short before; and exactly which messages are lost without ever being processed.
 */
module CommittedOffsets {
  import opened Prelude
  import opened CorrelationConsumer
  import opened OffsetCommits
  import opened Redelivery

  // ---------------------------------------------------------------------------------------------
  // Commits that are new.

  /** The action commits an offset of the partition past the given one. */
  predicate PassedAt(trace: seq<Action>, j: nat, p: Partition, n: nat) {
    j < |trace| && trace[j].Committed? && trace[j].partition == p && n < trace[j].next
  }

  /** No earlier action did. */
  ghost predicate FirstPassedAt(trace: seq<Action>, j: nat, p: Partition, n: nat) {
    PassedAt(trace, j, p, n) && forall i: nat | i < j :: !PassedAt(trace, i, p, n)
  }

  lemma {:induction false} FirstPassed(trace: seq<Action>, p: Partition, n: nat, j: nat, from: nat) returns (first: nat)
    requires from <= j && PassedAt(trace, j, p, n) && forall i: nat | i < from :: !PassedAt(trace, i, p, n)
    ensures from <= first <= j && FirstPassedAt(trace, first, p, n)
    decreases j - from
  {
    if PassedAt(trace, from, p, n) { first := from; } else { first := FirstPassed(trace, p, n, j, from + 1); }
  }

  /** When the committed offset comes to pass a message, that message or a later one was processed just before. */
  lemma NewCommit(c: Consumer, c': Consumer, p: Partition, n: nat) returns (j: nat)
    requires Inv(c) && Inv(c') && Extends(c.trace, c'.trace)
    requires At(c.committed, p) <= n < At(c'.committed, p)
    ensures |c.trace| < j && FirstPassedAt(c'.trace, j, p, n)
    ensures var done := c'.trace[j - 1]; done.Processed? && done.partition == p && n <= done.offset
  {
    hide Positioned;
    assert At(c.committed, p) == LastCommit(c.trace, p) && At(c'.committed, p) == LastCommit(c'.trace, p);
    var last := LastCommitIndex(c'.trace, p);
    forall i: nat | i < |c.trace| ensures !PassedAt(c'.trace, i, p, n) {
      assert c'.trace[i] == c.trace[i];
      if PassedAt(c.trace, i, p, n) { CommitsUpToLast(c.trace, p, i); }
    }
    assert PassedAt(c'.trace, last.value, p, n);
    j := FirstPassed(c'.trace, p, n, last.value, |c.trace|);
    assert CommitOk(c'.trace, j);
  }

  lemma CommitIsBelow(c: Consumer, p: Partition, j: nat)
    requires Inv(c) && j < |c.trace| && c.trace[j].Committed? && c.trace[j].partition == p
    ensures c.trace[j].next <= At(c.committed, p)
  {
    hide Positioned;
    CommitsUpToLast(c.trace, p, j);
    assert At(c.committed, p) == LastCommit(c.trace, p);
  }

  // ---------------------------------------------------------------------------------------------
  // The promise.

  /** Earlier in the session of the action, a batch was cut short. */
  ghost predicate CutInSession(trace: seq<Action>, j: nat) {
    exists r: nat :: r < j && CutAt(trace, r) && SameSession(trace, r, j)
  }

  /** The first commit that passed the message came after a batch of its session had been cut short. */
  ghost predicate PassedAfterCut(trace: seq<Action>, p: Partition, n: nat) {
    exists j: nat :: FirstPassedAt(trace, j, p, n) && CutInSession(trace, j)
  }

  lemma SessionPromise(log: Log, c: Consumer, polls: seq<seq<Part>>, p: Partition, n: nat)
    requires Inv(c) && ValidLoop(log, Restart(c), polls) && Place(p, n) in log
    requires At(c.committed, p) <= n < At(Session(c, polls).committed, p)
    ensures var trace := Session(c, polls).trace;
            ProcessedSince(trace, |c.trace|, p, n) || PassedAfterCut(trace, p, n)
  {
    var c0, c' := Restart(c), RunLoop(Restart(c), polls);
    var w := Watch(log, |c0.trace|, p, At(c.committed, p));
    RestartKeepsInv(c);
    LoopKeepsInv(log, c0, polls);
    LoopExtends(log, c0, polls);
    assert Front(w, c0, At(c0.position, p));
    LoopKeepsFront(w, c0, polls);
    hide RunLoop, ValidLoop, Inv, CutAt;
    var trace := c'.trace;
    var j := NewCommit(c0, c', p, n);
    assert InTurnAt(w, trace, j - 1);
    if CutBefore(trace, w.since, j - 1) {
      var r: nat :| w.since <= r < j - 1 && CutAt(trace, r);
      assert CutInSession(trace, j);
    } else if trace[j - 1].offset == n {
      assert ProcessedAt(trace, |c.trace|, j - 1, p, n);
    } else {
      assert ProcessedSince(trace, w.since, p, n);
      ProcessedSooner(trace, w.since, |c.trace|, p, n);
    }
  }

  lemma ProcessedSooner(trace: seq<Action>, since: nat, since': nat, p: Partition, n: nat)
    requires since' <= since && ProcessedSince(trace, since, p, n)
    ensures ProcessedSince(trace, since', p, n)
  {
    var k: nat :| ProcessedAt(trace, since, k, p, n);
    assert ProcessedAt(trace, since', k, p, n);
  }

  lemma ProcessedStays(trace: seq<Action>, trace': seq<Action>, since: nat, p: Partition, n: nat)
    requires trace <= trace' && ProcessedSince(trace, since, p, n)
    ensures ProcessedSince(trace', since, p, n)
  {
    var k: nat :| ProcessedAt(trace, since, k, p, n);
    assert ProcessedAt(trace', since, k, p, n);
  }

  lemma PassedAfterCutStays(trace: seq<Action>, trace': seq<Action>, p: Partition, n: nat)
    requires trace <= trace' && PassedAfterCut(trace, p, n)
    ensures PassedAfterCut(trace', p, n)
  {
    var j: nat :| FirstPassedAt(trace, j, p, n) && CutInSession(trace, j);
    var r: nat :| r < j && CutAt(trace, r) && SameSession(trace, r, j);
    assert CutAt(trace', r) && SameSession(trace', r, j);
    assert forall i: nat | i <= j :: PassedAt(trace', i, p, n) == PassedAt(trace, i, p, n);
    assert FirstPassedAt(trace', j, p, n) && CutInSession(trace', j);
  }

  /** A session is a life of its own. */
  lemma SessionKeepsInv(log: Log, c: Consumer, polls: seq<seq<Part>>)
    requires Inv(c) && FromLog(log, c.trace) && ValidLoop(log, Restart(c), polls)
    ensures Inv(Session(c, polls)) && FromLog(log, Session(c, polls).trace) && c.trace <= Session(c, polls).trace
  {
    hide Inv, FromLog, RunLoop, ValidLoop, Restart;
    RestartKeepsInv(c);
    RestartFromLog(log, c);
    LoopKeepsInv(log, Restart(c), polls);
    LoopExtends(log, Restart(c), polls);
    StoppedKeepsInv(RunLoop(Restart(c), polls));
  }

  lemma {:induction false} LifePromise(log: Log, c: Consumer, sessions: seq<seq<seq<Part>>>, p: Partition, n: nat)
    requires Inv(c) && FromLog(log, c.trace) && ValidLife(log, c, sessions) && Place(p, n) in log
    requires At(c.committed, p) <= n < At(Live(c, sessions).committed, p)
    ensures var trace := Live(c, sessions).trace;
            ProcessedSince(trace, |c.trace|, p, n) || PassedAfterCut(trace, p, n)
    decreases |sessions|
  {
    hide Inv, FromLog, ValidLoop, Session, ProcessedSince, PassedAfterCut;
    if sessions != [] {
      var c1, rest := Session(c, sessions[0]), sessions[1..];
      SessionKeepsInv(log, c, sessions[0]);
      LifeExtends(log, c1, rest);
      var trace := Live(c, sessions).trace;
      if n < At(c1.committed, p) {
        SessionPromise(log, c, sessions[0], p, n);
        if ProcessedSince(c1.trace, |c.trace|, p, n) { ProcessedStays(c1.trace, trace, |c.trace|, p, n); }
        if PassedAfterCut(c1.trace, p, n) { PassedAfterCutStays(c1.trace, trace, p, n); }
      } else {
        LifePromise(log, c1, rest, p, n);
        if ProcessedSince(trace, |c1.trace|, p, n) { ProcessedSooner(trace, |c1.trace|, |c.trace|, p, n); }
      }
    }
  }

  /**
   * Over every life of the consumer, with any failures, stops and restarts: a message below the committed
   * offset has been processed, unless the commit that passed it came after a batch of its session had
   * been cut short.
   */
  lemma CommitPromise(log: Log, sessions: seq<seq<seq<Part>>>, p: Partition, n: nat)
    requires ValidLife(log, NEW, sessions) && Place(p, n) in log && n < At(Live(NEW, sessions).committed, p)
    ensures var trace := Live(NEW, sessions).trace;
            ProcessedSince(trace, 0, p, n) || PassedAfterCut(trace, p, n)
  {
    hide ProcessedSince, PassedAfterCut, Live, ValidLife;
    NewIsInv();
    LifePromise(log, NEW, sessions, p, n);
  }

  /** While no batch is cut short, nothing below the committed offset is missed. */
  lemma NoCutNoLoss(log: Log, sessions: seq<seq<seq<Part>>>, p: Partition, n: nat)
    requires ValidLife(log, NEW, sessions) && Place(p, n) in log && n < At(Live(NEW, sessions).committed, p)
    requires forall r: nat :: !CutAt(Live(NEW, sessions).trace, r)
    ensures ProcessedSince(Live(NEW, sessions).trace, 0, p, n)
  {
    hide ProcessedSince, CutAt, Live, ValidLife;
    CommitPromise(log, sessions, p, n);
  }

  // ---------------------------------------------------------------------------------------------
  // In which order one poll takes a partition.

  /** Since then the partition was processed between two offsets, in turn. */
  ghost predicate InOrder(log: Log, trace: seq<Action>, since: nat, p: Partition, from: nat, to: nat) {
    forall k | since <= k < |trace| && trace[k].Processed? && trace[k].partition == p ::
      from <= trace[k].offset < to && AllProcessed(Watch(log, since, p, from), trace, trace[k].offset)
  }

  predicate NoneSince(trace: seq<Action>, since: nat, p: Partition) {
    forall k | since <= k < |trace| :: !(trace[k].Processed? && trace[k].partition == p)
  }

  lemma {:induction false} OthersAddNone(c: Consumer, q: Partition, messages: seq<Polled>, p: Partition)
    requires p != q
    ensures c.trace <= HandleAll(c, q, messages).trace && NoneSince(HandleAll(c, q, messages).trace, |c.trace|, p)
    decreases |messages|
  {
    if messages != [] && c.running && !c.raised {
      var c1 := Handle(c, q, messages[0]);
      HandleAdds(c, q, messages[0]);
      hide Handle;
      OthersAddNone(c1, q, messages[1..], p);
    }
  }

  /** One message more at the front keeps the order. */
  lemma OneBefore(log: Log, c: Consumer, p: Partition, m: Polled, trace: seq<Action>, from: nat, to: nat)
    requires from <= m.offset < to && NothingBetween(log, p, from, m.offset)
    requires Handle(c, p, m).trace <= trace
    requires InOrder(log, trace, |Handle(c, p, m).trace|, p, m.offset + 1, to)
    ensures InOrder(log, trace, |c.trace|, p, from, to)
  {
    HandleAdds(c, p, m);
    var c1 := Handle(c, p, m);
    hide Handle;
    assert ProcessedAt(trace, |c.trace|, |c.trace|, p, m.offset);
    forall k | |c.trace| <= k < |trace| && trace[k].Processed? && trace[k].partition == p
      ensures from <= trace[k].offset < to
      ensures AllProcessed(Watch(log, |c.trace|, p, from), trace, trace[k].offset)
    {
      if |c1.trace| <= k {
        forall n | from <= n < trace[k].offset && Place(p, n) in log ensures ProcessedSince(trace, |c.trace|, p, n) {
          if m.offset < n { ProcessedSooner(trace, |c1.trace|, |c.trace|, p, n); }
        }
      }
    }
  }

  lemma EndRises(log: Log, p: Partition, messages: seq<Polled>, from: nat)
    requires IsSlice(log, p, messages, from)
    ensures from <= EndOf(messages, from)
  {
    SliceRises(log, p, messages, from);
  }

  lemma {:induction false} AllInOrder(log: Log, c: Consumer, p: Partition, messages: seq<Polled>, from: nat)
    requires IsSlice(log, p, messages, from)
    ensures c.trace <= HandleAll(c, p, messages).trace
    ensures InOrder(log, HandleAll(c, p, messages).trace, |c.trace|, p, from, EndOf(messages, from))
    decreases |messages|
  {
    hide NothingBetween, Handle, AllProcessed;
    if messages != [] && c.running && !c.raised {
      var m, rest := messages[0], messages[1..];
      HandleAdds(c, p, m);
      AllInOrder(log, Handle(c, p, m), p, rest, m.offset + 1);
      EndRises(log, p, rest, m.offset + 1);
      assert EndOf(messages, from) == EndOf(rest, m.offset + 1);
      hide InOrder;
      OneBefore(log, c, p, m, HandleAll(c, p, messages).trace, from, EndOf(messages, from));
    }
  }

  lemma {:induction false} OthersFetched(position: map<Partition, nat>, parts: seq<Part>, p: Partition)
    requires forall i | 0 <= i < |parts| :: parts[i].partition != p
    ensures At(Fetched(position, parts), p) == At(position, p)
    decreases |parts|
  {
    if parts != [] { OthersFetched(FetchedOne(position, parts[0]), parts[1..], p); }
  }

  /** The partition comes first, and then others. */
  lemma ThenOthers(log: Log, trace: seq<Action>, trace': seq<Action>, since: nat, p: Partition, from: nat, to: nat)
    requires trace <= trace' && InOrder(log, trace, since, p, from, to) && NoneSince(trace', |trace|, p)
    ensures InOrder(log, trace', since, p, from, to)
  {
    hide AllProcessed;
    forall k | since <= k < |trace'| && trace'[k].Processed? && trace'[k].partition == p
      ensures from <= trace'[k].offset < to
      ensures AllProcessed(Watch(log, since, p, from), trace', trace'[k].offset)
    {
      assert trace'[k] == trace[k];
      AllProcessedStays(Watch(log, since, p, from), trace, trace', trace[k].offset);
    }
  }

  /** Others come first, and then the partition. */
  lemma AfterOthers(log: Log, trace: seq<Action>, trace': seq<Action>, since: nat, p: Partition, from: nat, to: nat)
    requires trace <= trace' && since <= |trace| && NoneSince(trace, since, p)
    requires InOrder(log, trace', |trace|, p, from, to)
    ensures InOrder(log, trace', since, p, from, to)
  {
    assert forall i | 0 <= i < |trace| :: trace'[i] == trace[i];
    forall k | since <= k < |trace'| && trace'[k].Processed? && trace'[k].partition == p
      ensures from <= trace'[k].offset < to
      ensures AllProcessed(Watch(log, since, p, from), trace', trace'[k].offset)
    {
      forall n | from <= n < trace'[k].offset && Place(p, n) in log ensures ProcessedSince(trace', since, p, n) {
        ProcessedSooner(trace', |trace|, since, p, n);
      }
    }
  }

  lemma {:induction false} PartsInOrder(log: Log, c: Consumer, position: map<Partition, nat>, parts: seq<Part>,
                                        p: Partition)
    requires ValidPoll(log, position, parts)
    ensures c.trace <= HandleParts(c, parts).trace
    ensures InOrder(log, HandleParts(c, parts).trace, |c.trace|, p, At(position, p), At(Fetched(position, parts), p))
    decreases |parts|
  {
    hide IsSlice, HandleAll, AllProcessed;
    if parts != [] {
      var part, rest, position' := parts[0], parts[1..], FetchedOne(position, parts[0]);
      var c1, from := HandleAll(c, part.partition, part.messages), At(position, p);
      RestIsValid(log, position, parts);
      PartsInOrder(log, c1, position', rest, p);
      var trace := HandleParts(c, parts).trace;
      assert trace == HandleParts(c1, rest).trace && Fetched(position, parts) == Fetched(position', rest);
      if part.partition == p {
        AllInOrder(log, c, p, part.messages, from);
        OthersFetched(position', rest, p);
        ThenOthers(log, c1.trace, trace, |c.trace|, p, from, EndOf(part.messages, from));
      } else {
        OthersAddNone(c, part.partition, part.messages, p);
        AfterOthers(log, c1.trace, trace, |c.trace|, p, from, At(Fetched(position, parts), p));
      }
    }
  }

  lemma PollInOrder(log: Log, c: Consumer, parts: seq<Part>, p: Partition)
    requires ValidPoll(log, c.position, parts)
    ensures var c' := PollOnce(c, parts);
            && Extends(c.trace, c'.trace) && At(c.position, p) <= At(c'.position, p)
            && InOrder(log, c'.trace, |c.trace|, p, At(c.position, p), At(c'.position, p))
  {
    hide ValidPoll, InOrder, Extends, HandleParts, Fetched;
    var c1 := c.(position := Fetched(c.position, parts));
    PartsInOrder(log, c1, c.position, parts, p);
    HandlePartsExtends(log, c1, c.position, parts);
    PartsKeepPosition(c1, parts);
    PollRises(log, c.position, parts);
    FetchedBeyond(c.position, parts);
  }

  // ---------------------------------------------------------------------------------------------
  // Messages dropped by a poll.

  /** The poll fetches the message and does not get to it. */
  ghost predicate Drops(c: Consumer, parts: seq<Part>, p: Partition, n: nat) {
    var c' := PollOnce(c, parts);
    At(c.position, p) <= n < At(c'.position, p) && !ProcessedSince(c'.trace, |c.trace|, p, n)
  }

  predicate CommitsSince(trace: seq<Action>, since: nat, p: Partition) {
    exists j :: since <= j < |trace| && trace[j].Committed? && trace[j].partition == p
  }

  /** Some poll drops the message, and after it the session commits an offset of the partition. */
  ghost predicate LosesInSession(c: Consumer, polls: seq<seq<Part>>, p: Partition, n: nat)
    decreases |polls|
  {
    polls != [] && c.running &&
    var c1 := PollOnce(c, polls[0]);
    || (Drops(c, polls[0], p, n) && CommitsSince(RunLoop(c, polls).trace, |c1.trace|, p))
    || LosesInSession(c1, polls[1..], p, n)
  }

  ghost predicate Loses(c: Consumer, sessions: seq<seq<seq<Part>>>, p: Partition, n: nat)
    decreases |sessions|
  {
    sessions != [] &&
    (LosesInSession(Restart(c), sessions[0], p, n) || Loses(Session(c, sessions[0]), sessions[1..], p, n))
  }

  /** A poll after which the consumer goes on drops nothing unless its batch was cut short. */
  lemma DroppedByCut(log: Log, c: Consumer, parts: seq<Part>, p: Partition, n: nat)
    requires c.running && !c.raised && ValidPoll(log, c.position, parts) && Place(p, n) in log
    requires Drops(c, parts, p, n) && PollOnce(c, parts).running
    ensures CutBefore(PollOnce(c, parts).trace, |c.trace|, |PollOnce(c, parts).trace|)
  {
    var w := Watch(log, |c.trace|, p, At(c.position, p));
    assert Front(w, c, At(c.position, p));
    hide ValidPoll, PollOnce;
    PollKeepsFront(w, c, parts);
  }

  /** A poll commits past a message of the log only if it has processed it. */
  lemma PollPassesInTurn(log: Log, c: Consumer, parts: seq<Part>, p: Partition, n: nat)
    requires Inv(c) && ValidPoll(log, c.position, parts) && Place(p, n) in log
    requires At(c.committed, p) <= n < At(PollOnce(c, parts).committed, p) && At(c.position, p) <= n
    ensures ProcessedSince(PollOnce(c, parts).trace, |c.trace|, p, n)
  {
    PollKeepsInv(log, c, parts);
    PollInOrder(log, c, parts, p);
    hide Inv, ValidPoll, PollOnce, FirstPassedAt;
    var c' := PollOnce(c, parts);
    var j := NewCommit(c, c', p, n);
    if c'.trace[j - 1].offset == n { assert ProcessedAt(c'.trace, |c.trace|, j - 1, p, n); }
  }

  /** A session only processes from its fetch position on. */
  lemma {:induction false} LoopFromPosition(log: Log, c: Consumer, polls: seq<seq<Part>>, p: Partition)
    requires ValidLoop(log, c, polls)
    ensures var trace := RunLoop(c, polls).trace;
            && c.trace <= trace
            && forall k | |c.trace| <= k < |trace| && trace[k].Processed? && trace[k].partition == p ::
                 At(c.position, p) <= trace[k].offset
    decreases |polls|
  {
    hide ValidPoll, PollOnce;
    if polls != [] && c.running {
      var c1 := PollOnce(c, polls[0]);
      PollInOrder(log, c, polls[0], p);
      LoopFromPosition(log, c1, polls[1..], p);
    }
  }

  /** What is behind the fetch position is not fetched again in the session. */
  lemma {:induction false} NotFetchedAgain(log: Log, c: Consumer, polls: seq<seq<Part>>, p: Partition, n: nat)
    requires ValidLoop(log, c, polls) && n < At(c.position, p)
    ensures !LosesInSession(c, polls, p, n)
    decreases |polls|
  {
    hide ValidPoll, PollOnce, InOrder, CommitsSince;
    if polls != [] && c.running {
      PollInOrder(log, c, polls[0], p);
      NotFetchedAgain(log, PollOnce(c, polls[0]), polls[1..], p, n);
    }
  }

  /** From a dropped message on, the session passes it with its next commit of the partition. */
  lemma PassedByAnyCommit(log: Log, c: Consumer, polls: seq<seq<Part>>, p: Partition, n: nat)
    requires Inv(c) && ValidLoop(log, c, polls) && At(c.committed, p) <= n < At(c.position, p)
    ensures n < At(RunLoop(c, polls).committed, p) <==> CommitsSince(RunLoop(c, polls).trace, |c.trace|, p)
  {
    LoopKeepsInv(log, c, polls);
    LoopExtends(log, c, polls);
    LoopFromPosition(log, c, polls, p);
    hide RunLoop, ValidLoop, CommittedOk, Positioned;
    var c' := RunLoop(c, polls);
    if n < At(c'.committed, p) {
      var j := NewCommit(c, c', p, n);
    }
    if CommitsSince(c'.trace, |c.trace|, p) {
      var j: nat :| |c.trace| <= j < |c'.trace| && c'.trace[j].Committed? && c'.trace[j].partition == p;
      assert CommitOk(c'.trace, j);
      CommitIsBelow(c', p, j);
    }
  }

  lemma {:induction false} LoopLosesIff(log: Log, c: Consumer, polls: seq<seq<Part>>, p: Partition, n: nat)
    requires Inv(c) && ValidLoop(log, c, polls) && Place(p, n) in log
    requires At(c.committed, p) <= n && At(c.position, p) <= n
    requires !ProcessedSince(RunLoop(c, polls).trace, |c.trace|, p, n)
    ensures n < At(RunLoop(c, polls).committed, p) <==> LosesInSession(c, polls, p, n)
    decreases |polls|
  {
    hide Inv, ValidPoll, PollOnce, InOrder, CommitsSince, ProcessedSince;
    if polls != [] && c.running {
      var c1, rest := PollOnce(c, polls[0]), polls[1..];
      PollKeepsInv(log, c, polls[0]);
      PollInOrder(log, c, polls[0], p);
      LoopExtends(log, c1, rest);
      var trace := RunLoop(c, polls).trace;
      if ProcessedSince(c1.trace, |c.trace|, p, n) { ProcessedStays(c1.trace, trace, |c.trace|, p, n); }
      if n < At(c1.committed, p) { PollPassesInTurn(log, c, polls[0], p, n); }
      if n < At(c1.position, p) {
        NotFetchedAgain(log, c1, rest, p, n);
        PassedByAnyCommit(log, c1, rest, p, n);
      } else {
        if ProcessedSince(trace, |c1.trace|, p, n) { ProcessedSooner(trace, |c1.trace|, |c.trace|, p, n); }
        LoopLosesIff(log, c1, rest, p, n);
      }
    }
  }

  lemma SessionLosesIff(log: Log, c: Consumer, polls: seq<seq<Part>>, p: Partition, n: nat)
    requires Inv(c) && ValidLoop(log, Restart(c), polls) && Place(p, n) in log && At(c.committed, p) <= n
    requires !ProcessedSince(Session(c, polls).trace, |c.trace|, p, n)
    ensures n < At(Session(c, polls).committed, p) <==> LosesInSession(Restart(c), polls, p, n)
  {
    hide Inv, ValidLoop, RunLoop, LosesInSession, ProcessedSince;
    RestartKeepsInv(c);
    var trace := RunLoop(Restart(c), polls).trace;
    if ProcessedSince(trace, |c.trace| + 1, p, n) { ProcessedSooner(trace, |c.trace| + 1, |c.trace|, p, n); }
    LoopLosesIff(log, Restart(c), polls, p, n);
  }

  /** The committed offset never goes back. */
  lemma CommittedRises(c: Consumer, c': Consumer, p: Partition)
    requires Inv(c) && Inv(c') && c.trace <= c'.trace
    ensures At(c.committed, p) <= At(c'.committed, p)
  {
    hide Positioned, TraceOk;
    if At(c.committed, p) > 0 {
      var j := CommittedIndex(c, p);
      CommitIsBelow(c', p, j);
    }
  }

  lemma {:induction false} LifeLosesIff(log: Log, c: Consumer, sessions: seq<seq<seq<Part>>>, p: Partition, n: nat)
    requires Inv(c) && FromLog(log, c.trace) && ValidLife(log, c, sessions) && Place(p, n) in log
    requires At(c.committed, p) <= n && !ProcessedSince(Live(c, sessions).trace, |c.trace|, p, n)
    ensures n < At(Live(c, sessions).committed, p) <==> Loses(c, sessions, p, n)
    decreases |sessions|
  {
    hide Inv, FromLog, ValidLoop, Session, Restart, LosesInSession, ProcessedSince;
    if sessions != [] {
      var c1, rest := Session(c, sessions[0]), sessions[1..];
      SessionKeepsInv(log, c, sessions[0]);
      LifeExtends(log, c1, rest);
      var trace := Live(c, sessions).trace;
      if ProcessedSince(c1.trace, |c.trace|, p, n) { ProcessedStays(c1.trace, trace, |c.trace|, p, n); }
      SessionLosesIff(log, c, sessions[0], p, n);
      if n < At(c1.committed, p) {
        LifeKeepsInv(log, c1, rest);
        CommittedRises(c1, Live(c1, rest), p);
      } else {
        if ProcessedSince(trace, |c1.trace|, p, n) { ProcessedSooner(trace, |c1.trace|, |c.trace|, p, n); }
        LifeLosesIff(log, c1, rest, p, n);
      }
    }
  }

  /**
   * A message of the log that has not been processed is lost, so that no continuation of the life ever
   * processes it, if and only if some poll dropped it and a later poll of that session committed an
   * offset of its partition.
   */
  lemma LostIff(log: Log, sessions: seq<seq<seq<Part>>>, p: Partition, n: nat)
    requires ValidLife(log, NEW, sessions) && Place(p, n) in log
    requires !ProcessedSince(Live(NEW, sessions).trace, 0, p, n)
    ensures (forall rest :: !ProcessedAgain(log, Live(NEW, sessions), rest, p, n, log[Place(p, n)])) <==>
            Loses(NEW, sessions, p, n)
  {
    hide ProcessedSince, ProcessedAgain, Live, ValidLife, Loses;
    NewIsInv();
    LifeKeepsInv(log, NEW, sessions);
    LifeExtends(log, NEW, sessions);
    LifeLosesIff(log, NEW, sessions, p, n);
    hide Inv, FromLog;
    ProcessedAgainIff(log, Live(NEW, sessions), p, n);
  }

  // ---------------------------------------------------------------------------------------------
  // Losing messages.

  /**
   * From any running state: when a batch is cut at its first message and the next poll succeeds with a
   * later message of the partition, everything else in the batch is passed without being processed.
   */
  lemma CutThenCommitLoses(log: Log, c: Consumer, p: Partition, first: Polled, rest: seq<Polled>, next: Polled)
    requires c.running && !c.raised && EndsBatch(first) && !first.stop
    requires IsSlice(log, p, [first] + rest + [next], At(c.position, p)) && Succeeds(next) && next.accepted
    ensures var polls := [[Part(p, [first] + rest)], [Part(p, [next])]];
            var c' := RunLoop(c, polls);
            && ValidLoop(log, c, polls)
            && c'.trace == c.trace + [Done(p, first), Done(p, next), Committed(p, next.offset + 1)]
            && c'.committed == c.committed[p := next.offset + 1]
            && forall m | m in rest :: m.offset < At(c'.committed, p)
  {
    hide PollOnce, RunLoop, ValidLoop, Handle, HandleAll, NothingBetween;
    var batch := [first] + rest;
    SliceSplits(log, p, batch, [next], At(c.position, p));
    SliceRises(log, p, batch, At(c.position, p));
    CutPoll(c, p, first, rest);
    var c1 := PollOnce(c, [Part(p, batch)]);
    GoodPoll(c1, p, next);
    assert ValidPoll(log, c.position, [Part(p, batch)]) && ValidPoll(log, c1.position, [Part(p, [next])]);
    TwoPolls(log, c, [Part(p, batch)], [Part(p, [next])]);
    SliceRises(log, p, batch + [next], At(c.position, p));
    forall m | m in rest ensures m.offset < next.offset {
      var i :| 0 <= i < |rest| && rest[i] == m;
      assert (batch + [next])[i + 1] == m && (batch + [next])[|batch|] == next;
    }
    hide IsSlice, Rising, ValidPoll;
  }

  /** A poll that is cut at its first message. */
  lemma CutPoll(c: Consumer, p: Partition, first: Polled, rest: seq<Polled>)
    requires c.running && !c.raised && EndsBatch(first) && !first.stop
    ensures var part := Part(p, [first] + rest);
            PollOnce(c, [part]) ==
              c.(position := FetchedOne(c.position, part), trace := c.trace + [Done(p, first)])
  {
    var part := Part(p, [first] + rest);
    var c0 := c.(position := FetchedOne(c.position, part));
    OnePart(c, part);
    PartBounds(c0, p, part.messages);
    PartStep(c0, p, part.messages, 0);
    PartBounds(Handle(c0, p, first), p, part.messages[1..]);
    hide HandleAll;
  }

  /** A poll of one message that succeeds. */
  lemma GoodPoll(c: Consumer, p: Partition, m: Polled)
    requires c.running && !c.raised && Succeeds(m) && m.accepted
    ensures PollOnce(c, [Part(p, [m])]) ==
              c.(position := FetchedOne(c.position, Part(p, [m])), running := !m.stop,
                 committed := c.committed[p := m.offset + 1],
                 trace := c.trace + [Done(p, m), Committed(p, m.offset + 1)])
  {
    var c0 := c.(position := FetchedOne(c.position, Part(p, [m])));
    OnePart(c, Part(p, [m]));
    PartBounds(c0, p, [m]);
    PartStep(c0, p, [m], 0);
    PartBounds(Handle(c0, p, m), p, [m][1..]);
    assert [m][1..] == [];
    hide HandleAll;
  }

  lemma {:induction false} SliceSplits(log: Log, p: Partition, a: seq<Polled>, b: seq<Polled>, from: nat)
    requires IsSlice(log, p, a + b, from)
    ensures IsSlice(log, p, a, from) && IsSlice(log, p, b, EndOf(a, from))
    decreases |a|
  {
    hide NothingBetween;
    if a == [] {
      assert a + b == b;
    } else {
      assert (a + b)[0] == a[0] && (a + b)[1..] == a[1..] + b;
      SliceSplits(log, p, a[1..], b, a[0].offset + 1);
    }
  }

  lemma TwoPolls(log: Log, c: Consumer, a: seq<Part>, b: seq<Part>)
    requires c.running && PollOnce(c, a).running
    requires ValidPoll(log, c.position, a) && ValidPoll(log, PollOnce(c, a).position, b)
    ensures ValidLoop(log, c, [a, b]) && RunLoop(c, [a, b]) == PollOnce(PollOnce(c, a), b)
  {
    hide PollOnce, ValidPoll;
    assert [a, b][1..] == [b] && [b][1..] == [];
    var c1 := PollOnce(c, a);
    assert ValidLoop(log, c1, [b]) && RunLoop(c1, [b]) == RunLoop(PollOnce(c1, b), []);
  }

  /** Such a life exists: three messages for other consumers, of which the second is lost. */
  lemma LossReached() returns (log: Log, sessions: seq<seq<seq<Part>>>)
    ensures ValidLife(log, NEW, sessions) && Place(0, 1) in log && !ProcessedSince(Live(NEW, sessions).trace, 0, 0, 1)
    ensures At(Live(NEW, sessions).committed, 0) == 3 && Loses(NEW, sessions, 0, 1)
  {
    var other := Message("OtherEvent", None, None, true);
    var first, second := Polled(0, other, Confirmed, false, false), Polled(1, other, Confirmed, true, false);
    var third := Polled(2, other, Confirmed, true, false);
    log := map[Place(0, 0) := other, Place(0, 1) := other, Place(0, 2) := other];
    var c := Restart(NEW);
    ThreeInOrder(log, first, second, third);
    CutThenCommitLoses(log, c, 0, first, [second], third);
    var polls := [[Part(0, [first] + [second])], [Part(0, [third])]];
    sessions := [polls];
    assert sessions[1..] == [];
    hide RunLoop, ValidLoop;
    var c' := RunLoop(c, polls);
    assert Live(NEW, sessions) == c'.(running := false);
    assert c'.trace == [Restarted, Done(0, first), Done(0, third), Committed(0, 3)];
    NewIsInv();
    hide Live, ValidLife, Loses, Inv;
    LifeLosesIff(log, NEW, sessions, 0, 1);
  }

  /** A slice with the next message of the log in front of it. */
  lemma SliceGrows(log: Log, p: Partition, m: Polled, rest: seq<Polled>)
    requires Place(p, m.offset) in log && log[Place(p, m.offset)] == m.message
    requires IsSlice(log, p, rest, m.offset + 1)
    ensures IsSlice(log, p, [m] + rest, m.offset)
  {
    assert ([m] + rest)[1..] == rest;
    assert NothingBetween(log, p, m.offset, m.offset);
  }

  lemma ThreeInOrder(log: Log, a: Polled, b: Polled, c: Polled)
    requires a.offset == 0 && b.offset == 1 && c.offset == 2
    requires Place(0, 0) in log && Place(0, 1) in log && Place(0, 2) in log
    requires log[Place(0, 0)] == a.message && log[Place(0, 1)] == b.message && log[Place(0, 2)] == c.message
    ensures IsSlice(log, 0, [a] + [b] + [c], 0)
  {
    SliceGrows(log, 0, c, []);
    SliceGrows(log, 0, b, [c] + []);
    SliceGrows(log, 0, a, [b] + ([c] + []));
    assert [a] + ([b] + ([c] + [])) == [a] + [b] + [c];
    hide IsSlice;
  }
}
