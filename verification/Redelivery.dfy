/**
 * When a message that failed, or whose offset was refused, is processed again: what a session adds to
 * the trace, in which order it takes the log, and what is lost for good.
 */
module Redelivery {
  import opened CorrelationConsumer
  import opened OffsetCommits

  // ---------------------------------------------------------------------------------------------
  // Messages whose offset was not committed.

  /** A message was processed and its offset not committed: it failed, or the broker refused the offset. */
  predicate Unconfirmed(trace: seq<Action>, i: nat) {
    i < |trace| && trace[i].Processed? && !(i + 1 < |trace| && trace[i + 1].Committed?)
  }

  predicate LaterCommit(trace: seq<Action>, i: nat, j: nat) {
    i < j < |trace| && trace[i].Processed? && trace[j].Committed? && trace[j].partition == trace[i].partition
  }

  lemma FailureIsUnconfirmed(trace: seq<Action>, i: nat)
    requires TraceOk(trace) && i < |trace| && trace[i].Processed? && !trace[i].ok
    ensures Unconfirmed(trace, i)
  {
    if i + 1 < |trace| { assert CommitOk(trace, i + 1); }
  }

  /** A later commit of the partition passes the message. */
  lemma LaterCommitPasses(trace: seq<Action>, i: nat, j: nat)
    requires TraceOk(trace) && Unconfirmed(trace, i) && LaterCommit(trace, i, j) && SameSession(trace, i, |trace|)
    ensures trace[j].next > trace[i].offset + 1
  {
    assert CommitOk(trace, j);
    assert j - 1 > i;
    assert PairOk(trace, i, j - 1);
  }

  // ---------------------------------------------------------------------------------------------
  // What the sessions add to the trace.

  /** What is processed is in the log, and a correlatable message that succeeded is stored. */
  ghost predicate FromLog(log: Log, trace: seq<Action>) {
    forall i | 0 <= i < |trace| && trace[i].Processed? ::
      var place := Place(trace[i].partition, trace[i].offset);
      && place in log && log[place] == trace[i].message
      && (trace[i].ok && Correlatable(trace[i].message) ==> trace[i].stored)
  }

  /** A session adds actions of its own: no restart, and no commit before it has processed anything. */
  ghost predicate Extends(trace: seq<Action>, trace': seq<Action>) {
    && trace <= trace'
    && (|trace| < |trace'| ==> !trace'[|trace|].Committed?)
    && (forall r | |trace| <= r < |trace'| :: trace'[r] != Restarted)
  }

  lemma ExtendsOn(a: seq<Action>, b: seq<Action>, c: seq<Action>)
    requires Extends(a, b) && Extends(b, c)
    ensures Extends(a, c)
  {
    if |a| < |b| { assert c[|a|] == b[|a|]; }
    forall r | |a| <= r < |c| ensures c[r] != Restarted {
      if r < |b| { assert c[r] == b[r]; }
    }
  }

  lemma HandleExtends(log: Log, c: Consumer, p: Partition, m: Polled)
    ensures Extends(c.trace, Handle(c, p, m).trace)
    ensures FromLog(log, c.trace) && Place(p, m.offset) in log && log[Place(p, m.offset)] == m.message ==>
              FromLog(log, Handle(c, p, m).trace)
  {}

  lemma {:induction false} HandleAllExtends(log: Log, c: Consumer, p: Partition, messages: seq<Polled>, from: nat)
    requires IsSlice(log, p, messages, from)
    ensures var c' := HandleAll(c, p, messages);
            Extends(c.trace, c'.trace) && (FromLog(log, c.trace) ==> FromLog(log, c'.trace))
    decreases |messages|
  {
    hide Extends, FromLog, Handle, NothingBetween;
    if messages == [] || !c.running || c.raised {
      NothingAdded(c.trace);
    } else {
      var c1 := Handle(c, p, messages[0]);
      HandleExtends(log, c, p, messages[0]);
      HandleAllExtends(log, c1, p, messages[1..], messages[0].offset + 1);
      ExtendsOn(c.trace, c1.trace, HandleAll(c, p, messages).trace);
    }
  }

  lemma NothingAdded(trace: seq<Action>)
    ensures Extends(trace, trace)
  {}

  lemma RestIsValid(log: Log, position: map<Partition, nat>, parts: seq<Part>)
    requires ValidPoll(log, position, parts) && parts != []
    ensures ValidPoll(log, FetchedOne(position, parts[0]), parts[1..])
  {
    hide IsSlice;
  }

  lemma {:induction false} HandlePartsExtends(log: Log, c: Consumer, position: map<Partition, nat>, parts: seq<Part>)
    requires ValidPoll(log, position, parts)
    ensures var c' := HandleParts(c, parts);
            Extends(c.trace, c'.trace) && (FromLog(log, c.trace) ==> FromLog(log, c'.trace))
    decreases |parts|
  {
    hide Extends, FromLog, IsSlice, HandleAll, FetchedOne;
    if parts == [] {
      NothingAdded(c.trace);
    } else {
      var p := parts[0].partition;
      var c1 := HandleAll(c, p, parts[0].messages);
      HandleAllExtends(log, c, p, parts[0].messages, At(position, p));
      RestIsValid(log, position, parts);
      HandlePartsExtends(log, c1, FetchedOne(position, parts[0]), parts[1..]);
      ExtendsOn(c.trace, c1.trace, HandleParts(c, parts).trace);
    }
  }

  lemma {:induction false} LoopExtends(log: Log, c: Consumer, polls: seq<seq<Part>>)
    requires ValidLoop(log, c, polls)
    ensures var c' := RunLoop(c, polls);
            Extends(c.trace, c'.trace) && (FromLog(log, c.trace) ==> FromLog(log, c'.trace))
    decreases |polls|
  {
    hide Extends, FromLog, ValidPoll, HandleParts, Fetched;
    if polls == [] || !c.running {
      NothingAdded(c.trace);
    } else {
      HandlePartsExtends(log, c.(position := Fetched(c.position, polls[0])), c.position, polls[0]);
      LoopExtends(log, PollOnce(c, polls[0]), polls[1..]);
      ExtendsOn(c.trace, PollOnce(c, polls[0]).trace, RunLoop(c, polls).trace);
    }
  }

  lemma RestartFromLog(log: Log, c: Consumer)
    requires FromLog(log, c.trace)
    ensures FromLog(log, Restart(c).trace) && c.trace <= Restart(c).trace
  {}

  /** A life only adds to the trace, and processes what is in the log. */
  lemma {:induction false} LifeExtends(log: Log, c: Consumer, sessions: seq<seq<seq<Part>>>)
    requires ValidLife(log, c, sessions) && FromLog(log, c.trace)
    ensures c.trace <= Live(c, sessions).trace && FromLog(log, Live(c, sessions).trace)
    decreases |sessions|
  {
    hide ValidLoop, FromLog, RunLoop, Restart;
    if sessions != [] {
      RestartFromLog(log, c);
      LoopExtends(log, Restart(c), sessions[0]);
      LifeExtends(log, Session(c, sessions[0]), sessions[1..]);
    }
  }

  // ---------------------------------------------------------------------------------------------
  // What one session processes of a partition: everything in order, until a batch is cut short.

  /** The log, where in the trace the session begins, and the partition and offset it is watched from. */
  datatype Watch = Watch(log: Log, since: nat, p: Partition, from: nat)

  /** The action ended its batch: it raised, or its offset was refused. */
  predicate CutAt(trace: seq<Action>, r: nat) {
    && r < |trace| && trace[r].Processed?
    && (trace[r].message.NotAnObject? || (trace[r].ok && !(r + 1 < |trace| && trace[r + 1].Committed?)))
  }

  ghost predicate CutBefore(trace: seq<Action>, since: nat, k: nat) {
    exists r | since <= r < k :: CutAt(trace, r)
  }

  predicate ProcessedAt(trace: seq<Action>, since: nat, k: nat, p: Partition, n: nat) {
    since <= k < |trace| && trace[k].Processed? && trace[k].partition == p && trace[k].offset == n
  }

  ghost predicate ProcessedSince(trace: seq<Action>, since: nat, p: Partition, n: nat) {
    exists k :: ProcessedAt(trace, since, k, p, n)
  }

  /** Everything of the watched partition below the bound has been processed in the session. */
  ghost predicate AllProcessed(w: Watch, trace: seq<Action>, bound: nat) {
    forall n | w.from <= n < bound && Place(w.p, n) in w.log :: ProcessedSince(trace, w.since, w.p, n)
  }

  /** Unless a batch was cut, nothing was processed ahead of its turn. */
  ghost predicate InTurn(w: Watch, trace: seq<Action>) {
    forall k | w.since <= k < |trace| :: InTurnAt(w, trace, k)
  }

  ghost predicate InTurnAt(w: Watch, trace: seq<Action>, k: nat)
    requires k < |trace|
  {
    trace[k].Processed? && trace[k].partition == w.p ==>
      CutBefore(trace, w.since, k) || AllProcessed(w, trace, trace[k].offset)
  }

  ghost predicate Front(w: Watch, c: Consumer, bound: nat) {
    && w.since <= |c.trace| && InTurn(w, c.trace)
    && (c.raised ==> CutBefore(c.trace, w.since, |c.trace|))
    && (c.running ==> CutBefore(c.trace, w.since, |c.trace|) || AllProcessed(w, c.trace, bound))
  }

  lemma CutStays(trace: seq<Action>, trace': seq<Action>, since: nat, k: nat)
    requires Extends(trace, trace') && k <= |trace| && CutBefore(trace, since, k)
    ensures CutBefore(trace', since, k)
  {
    var r :| since <= r < k && CutAt(trace, r);
    assert CutAt(trace', r);
  }

  lemma AllProcessedStays(w: Watch, trace: seq<Action>, trace': seq<Action>, bound: nat)
    requires trace <= trace' && AllProcessed(w, trace, bound)
    ensures AllProcessed(w, trace', bound)
  {
    forall n | w.from <= n < bound && Place(w.p, n) in w.log ensures ProcessedSince(trace', w.since, w.p, n) {
      var k: nat :| ProcessedAt(trace, w.since, k, w.p, n);
      assert ProcessedAt(trace', w.since, k, w.p, n);
    }
  }

  lemma InTurnStays(w: Watch, trace: seq<Action>, trace': seq<Action>, k: nat)
    requires Extends(trace, trace') && k < |trace| && InTurnAt(w, trace, k)
    ensures InTurnAt(w, trace', k)
  {
    hide CutBefore, AllProcessed;
    assert trace'[k] == trace[k];
    if trace[k].Processed? {
      if CutBefore(trace, w.since, k) { CutStays(trace, trace', w.since, k); }
      if AllProcessed(w, trace, trace[k].offset) { AllProcessedStays(w, trace, trace', trace[k].offset); }
    }
  }

  /** Handling a message keeps the front; one of the watched partition, in its turn, moves it on. */
  lemma HandleKeepsFront(w: Watch, c: Consumer, p: Partition, m: Polled, bound: nat)
    requires Front(w, c, bound) && c.running && !c.raised && (p == w.p ==> m.offset == bound)
    ensures Front(w, Handle(c, p, m), if p == w.p then bound + 1 else bound)
  {
    hide CutBefore, AllProcessed, Extends, InTurnAt;
    var c' := Handle(c, p, m);
    HandleExtends(w.log, c, p, m);
    HandleAdds(c, p, m);
    if CutBefore(c.trace, w.since, |c.trace|) { CutStays(c.trace, c'.trace, w.since, |c.trace|); }
    if AllProcessed(w, c.trace, bound) { AllProcessedStays(w, c.trace, c'.trace, bound); }
    forall k | w.since <= k < |c'.trace| ensures InTurnAt(w, c'.trace, k) {
      if k < |c.trace| { InTurnStays(w, c.trace, c'.trace, k); } else { NewInTurn(w, c, p, m, bound, k); }
    }
    CutLater(c'.trace, w.since, |c.trace|, |c'.trace|);
    if c'.raised { NewCut(c, p, m, w.since); }
    if p == w.p && AllProcessed(w, c'.trace, bound) { OneMoreProcessed(w, c, m); }
  }

  lemma HandleAdds(c: Consumer, p: Partition, m: Polled)
    ensures var c' := Handle(c, p, m);
            && |c.trace| < |c'.trace| <= |c.trace| + 2 && c.trace <= c'.trace
            && c'.trace[|c.trace|] == Done(p, m)
            && (|c'.trace| == |c.trace| + 2 ==> c'.trace[|c.trace| + 1].Committed?)
  {}

  lemma NewInTurn(w: Watch, c: Consumer, p: Partition, m: Polled, bound: nat, k: nat)
    requires w.since <= |c.trace| <= k < |Handle(c, p, m).trace| && (p == w.p ==> m.offset == bound)
    requires var trace := Handle(c, p, m).trace;
             CutBefore(trace, w.since, |c.trace|) || AllProcessed(w, trace, bound)
    ensures InTurnAt(w, Handle(c, p, m).trace, k)
  {
    hide AllProcessed, CutBefore;
    HandleAdds(c, p, m);
    hide Handle;
  }

  lemma CutLater(trace: seq<Action>, since: nat, k: nat, k': nat)
    requires k <= k'
    ensures CutBefore(trace, since, k) ==> CutBefore(trace, since, k')
  {}

  lemma NewCut(c: Consumer, p: Partition, m: Polled, since: nat)
    requires since <= |c.trace| && !c.raised && Handle(c, p, m).raised
    ensures CutBefore(Handle(c, p, m).trace, since, |Handle(c, p, m).trace|)
  {
    assert CutAt(Handle(c, p, m).trace, |c.trace|);
  }

  lemma OneMoreProcessed(w: Watch, c: Consumer, m: Polled)
    requires w.since <= |c.trace| && AllProcessed(w, Handle(c, w.p, m).trace, m.offset)
    ensures AllProcessed(w, Handle(c, w.p, m).trace, m.offset + 1)
  {
    var trace := Handle(c, w.p, m).trace;
    HandleAdds(c, w.p, m);
    hide Handle;
    assert ProcessedAt(trace, w.since, |c.trace|, w.p, m.offset);
  }

  lemma FrontMoves(w: Watch, c: Consumer, bound: nat, bound': nat)
    requires Front(w, c, bound) && bound <= bound' && NothingBetween(w.log, w.p, bound, bound')
    ensures Front(w, c, bound')
  {
    hide InTurn, CutBefore, ProcessedSince;
  }

  function EndOf(messages: seq<Polled>, from: nat): nat {
    if messages == [] then from else messages[|messages| - 1].offset + 1
  }

  lemma {:induction false} HandleAllKeepsFront(w: Watch, c: Consumer, messages: seq<Polled>, bound: nat)
    requires Front(w, c, bound) && IsSlice(w.log, w.p, messages, bound)
    ensures Front(w, HandleAll(c, w.p, messages), EndOf(messages, bound))
    decreases |messages|
  {
    hide InTurn, CutBefore, AllProcessed, Handle, NothingBetween;
    if messages != [] && c.running && !c.raised {
      var m := messages[0];
      FrontMoves(w, c, bound, m.offset);
      HandleKeepsFront(w, c, w.p, m, m.offset);
      HandleAllKeepsFront(w, Handle(c, w.p, m), messages[1..], m.offset + 1);
    }
  }

  lemma {:induction false} OthersKeepFront(w: Watch, c: Consumer, p: Partition, messages: seq<Polled>, bound: nat)
    requires Front(w, c, bound) && p != w.p
    ensures Front(w, HandleAll(c, p, messages), bound)
    decreases |messages|
  {
    hide Front, Handle;
    if messages != [] && c.running && !c.raised {
      HandleKeepsFront(w, c, p, messages[0], bound);
      OthersKeepFront(w, Handle(c, p, messages[0]), p, messages[1..], bound);
    }
  }

  lemma {:induction false} HandlePartsKeepFront(w: Watch, c: Consumer, position: map<Partition, nat>, parts: seq<Part>)
    requires Front(w, c, At(position, w.p)) && ValidPoll(w.log, position, parts)
    ensures Front(w, HandleParts(c, parts), At(Fetched(position, parts), w.p))
    decreases |parts|
  {
    hide Front, IsSlice, HandleAll;
    if parts != [] {
      var part := parts[0];
      if part.partition == w.p {
        HandleAllKeepsFront(w, c, part.messages, At(position, w.p));
      } else {
        OthersKeepFront(w, c, part.partition, part.messages, At(position, w.p));
      }
      RestIsValid(w.log, position, parts);
      assert Fetched(position, parts) == Fetched(FetchedOne(position, part), parts[1..]);
      HandlePartsKeepFront(w, HandleAll(c, part.partition, part.messages), FetchedOne(position, part), parts[1..]);
    }
  }

  lemma PollKeepsFront(w: Watch, c: Consumer, parts: seq<Part>)
    requires Front(w, c, At(c.position, w.p)) && ValidPoll(w.log, c.position, parts)
    ensures var c' := PollOnce(c, parts); Front(w, c', At(c'.position, w.p))
  {
    hide ValidPoll, InTurn, CutBefore, AllProcessed, HandleParts, Fetched;
    var c1 := c.(position := Fetched(c.position, parts));
    assert Front(w, c1, At(c.position, w.p));
    HandlePartsKeepFront(w, c1, c.position, parts);
    PartsKeepPosition(c1, parts);
  }

  lemma {:induction false} AllKeepPosition(c: Consumer, p: Partition, messages: seq<Polled>)
    ensures HandleAll(c, p, messages).position == c.position
    decreases |messages|
  {
    hide Handle;
    if messages != [] && c.running && !c.raised {
      HandleMoves(c, p, messages[0]);
      AllKeepPosition(Handle(c, p, messages[0]), p, messages[1..]);
    }
  }

  lemma {:induction false} PartsKeepPosition(c: Consumer, parts: seq<Part>)
    ensures HandleParts(c, parts).position == c.position
    decreases |parts|
  {
    hide HandleAll;
    if parts != [] {
      AllKeepPosition(c, parts[0].partition, parts[0].messages);
      PartsKeepPosition(HandleAll(c, parts[0].partition, parts[0].messages), parts[1..]);
    }
  }

  lemma {:induction false} LoopKeepsFront(w: Watch, c: Consumer, polls: seq<seq<Part>>)
    requires Front(w, c, At(c.position, w.p)) && ValidLoop(w.log, c, polls)
    ensures var c' := RunLoop(c, polls); Front(w, c', At(c'.position, w.p))
    decreases |polls|
  {
    hide Front, ValidPoll, PollOnce;
    if polls != [] && c.running {
      PollKeepsFront(w, c, polls[0]);
      LoopKeepsFront(w, PollOnce(c, polls[0]), polls[1..]);
    }
  }

  // ---------------------------------------------------------------------------------------------
  // Redelivery.

  /** Some session of the continuation processes the same message at the same offset again. */
  ghost predicate ProcessedAgain(log: Log, c: Consumer, rest: seq<seq<seq<Part>>>, p: Partition, n: nat, m: Message) {
    ValidLife(log, c, rest) &&
    exists k: nat :: ProcessedAt(Live(c, rest).trace, |c.trace|, k, p, n) && Live(c, rest).trace[k].message == m
  }

  /** Once a commit of the partition has passed an offset, no life processes it again. */
  lemma PassedIsGone(log: Log, c: Consumer, rest: seq<seq<seq<Part>>>, p: Partition, n: nat, j: nat)
    requires Inv(c) && FromLog(log, c.trace) && ValidLife(log, c, rest)
    requires j < |c.trace| && c.trace[j].Committed? && c.trace[j].partition == p && n < c.trace[j].next
    ensures !ProcessedSince(Live(c, rest).trace, |c.trace|, p, n)
  {
    LifeKeepsInv(log, c, rest);
    LifeExtends(log, c, rest);
    hide Live, ValidLife, Positioned, CommittedOk, FromLog;
    var trace := Live(c, rest).trace;
    assert trace[j] == c.trace[j];
    forall k: nat | |c.trace| <= k < |trace| ensures !ProcessedAt(trace, |c.trace|, k, p, n) {
      assert PairOk(trace, j, k);
    }
  }

  /** Polls that return the messages from `a` to `b` one by one, all going well. */
  function Singles(log: Log, p: Partition, a: nat, b: nat): seq<seq<Part>>
    decreases b - a
  {
    if a >= b then []
    else
      (if Place(p, a) in log then [[Part(p, [Polled(a, log[Place(p, a)], Confirmed, true, false)])]] else []) +
      Singles(log, p, a + 1, b)
  }

  /** Nothing keeps a session that polls message by message from reaching any offset not yet passed. */
  lemma {:induction false} SinglesReach(log: Log, c: Consumer, p: Partition, a: nat, n: nat)
    requires c.running && !c.raised && At(c.position, p) <= a <= n && Place(p, n) in log
    requires NothingBetween(log, p, At(c.position, p), a)
    ensures ValidLoop(log, c, Singles(log, p, a, n + 1))
    ensures var trace := RunLoop(c, Singles(log, p, a, n + 1)).trace;
            c.trace <= trace && ProcessedSince(trace, |c.trace|, p, n)
    decreases n - a
  {
    hide PollOnce, ValidPoll;
    var polls := Singles(log, p, a, n + 1);
    if Place(p, a) in log {
      var poll := [Part(p, [Polled(a, log[Place(p, a)], Confirmed, true, false)])];
      assert polls[0] == poll && polls[1..] == Singles(log, p, a + 1, n + 1);
      OneByOne(log, c, p, a);
      var c1 := PollOnce(c, poll);
      if a < n {
        SinglesReach(log, c1, p, a + 1, n);
        var trace := RunLoop(c1, polls[1..]).trace;
        var k: nat :| ProcessedAt(trace, |c1.trace|, k, p, n);
        assert ProcessedAt(trace, |c.trace|, k, p, n);
      } else {
        assert Singles(log, p, a + 1, n + 1) == [];
      }
    } else {
      assert polls == Singles(log, p, a + 1, n + 1);
      SinglesReach(log, c, p, a + 1, n);
    }
  }

  lemma OneByOne(log: Log, c: Consumer, p: Partition, a: nat)
    requires c.running && !c.raised && Place(p, a) in log && At(c.position, p) <= a
    requires NothingBetween(log, p, At(c.position, p), a)
    ensures var m := Polled(a, log[Place(p, a)], Confirmed, true, false);
            var c' := PollOnce(c, [Part(p, [m])]);
            && ValidPoll(log, c.position, [Part(p, [m])])
            && c'.running && !c'.raised && At(c'.position, p) == a + 1
            && c.trace <= c'.trace && ProcessedAt(c'.trace, |c.trace|, |c.trace|, p, a)
  {
    var m := Polled(a, log[Place(p, a)], Confirmed, true, false);
    var c0 := c.(position := FetchedOne(c.position, Part(p, [m])));
    assert [m][1..] == [] && [m][0..] == [m];
    assert IsSlice(log, p, [m], At(c.position, p));
    OnePart(c, Part(p, [m]));
    PartStep(c0, p, [m], 0);
    assert HandleAll(Handle(c0, p, m), p, []) == Handle(c0, p, m);
    hide HandleAll, IsSlice;
  }

  /** An offset in the log can be processed again exactly while the committed offset has not passed it. */
  lemma ProcessedAgainIff(log: Log, c: Consumer, p: Partition, n: nat)
    requires Inv(c) && FromLog(log, c.trace) && Place(p, n) in log
    ensures (exists rest :: ProcessedAgain(log, c, rest, p, n, log[Place(p, n)])) <==> At(c.committed, p) <= n
  {
    if At(c.committed, p) <= n {
      var rest := Reaching(log, c, p, n);
    } else {
      var last := CommittedIndex(c, p);
      forall rest ensures !ProcessedAgain(log, c, rest, p, n, log[Place(p, n)]) {
        if ValidLife(log, c, rest) { PassedIsGone(log, c, rest, p, n, last); }
      }
    }
  }

  lemma CommittedIndex(c: Consumer, p: Partition) returns (j: nat)
    requires CommittedOk(c) && At(c.committed, p) > 0
    ensures j < |c.trace| && c.trace[j].Committed? && c.trace[j].partition == p && c.trace[j].next == At(c.committed, p)
  {
    assert At(c.committed, p) == LastCommit(c.trace, p);
    var last := LastCommitIndex(c.trace, p);
    j := last.value;
  }

  lemma Reaching(log: Log, c: Consumer, p: Partition, n: nat) returns (rest: seq<seq<seq<Part>>>)
    requires FromLog(log, c.trace) && Place(p, n) in log && At(c.committed, p) <= n
    ensures ProcessedAgain(log, c, rest, p, n, log[Place(p, n)])
  {
    var c0, polls := Restart(c), Singles(log, p, At(c.committed, p), n + 1);
    SinglesReach(log, c0, p, At(c.committed, p), n);
    rest := [polls];
    assert rest[1..] == [];
    hide RunLoop, ValidLoop, Singles;
    LifeExtends(log, c, rest);
    var trace := Live(c, rest).trace;
    assert trace == RunLoop(c0, polls).trace;
    var k: nat :| ProcessedAt(trace, |c0.trace|, k, p, n);
    assert ProcessedAt(trace, |c.trace|, k, p, n);
  }

  /**
   * A message of the running session that failed, or whose offset was refused, can be processed again if
   * and only if no later message of its partition has been committed since; and once one has, no
   * continuation of the life processes it again.
   */
  lemma RedeliveredIff(log: Log, sessions: seq<seq<seq<Part>>>, i: nat)
    requires ValidLife(log, NEW, sessions)
    requires var trace := Live(NEW, sessions).trace; Unconfirmed(trace, i) && SameSession(trace, i, |trace|)
    ensures var c := Live(NEW, sessions);
            var p, n, m := c.trace[i].partition, c.trace[i].offset, c.trace[i].message;
            (exists rest :: ProcessedAgain(log, c, rest, p, n, m)) <==> forall j :: !LaterCommit(c.trace, i, j)
  {
    NewIsInv();
    LifeKeepsInv(log, NEW, sessions);
    LifeExtends(log, NEW, sessions);
    hide ProcessedAgain, Live, ValidLife, NEW;
    var c := Live(NEW, sessions);
    ProcessedAgainIff(log, c, c.trace[i].partition, c.trace[i].offset);
    UnpassedIff(c, i);
  }

  /** In the running session the committed offset has passed a message exactly when a later one was committed. */
  lemma UnpassedIff(c: Consumer, i: nat)
    requires Inv(c) && Unconfirmed(c.trace, i) && SameSession(c.trace, i, |c.trace|)
    ensures At(c.committed, c.trace[i].partition) <= c.trace[i].offset <==> forall j :: !LaterCommit(c.trace, i, j)
  {
    hide Positioned;
    var p := c.trace[i].partition;
    assert At(c.committed, p) == LastCommit(c.trace, p);
    var last := LastCommitIndex(c.trace, p);
    if last.Some? {
      var j := last.value;
      if j > i {
        assert LaterCommit(c.trace, i, j);
        LaterCommitPasses(c.trace, i, j);
      } else {
        assert PairOk(c.trace, j, i);
      }
    }
  }

  /**
   * Not only can it be: in whatever way the next session goes, it processes that same message before
   * anything later of the partition, unless a batch was cut short before.
   */
  lemma NextSessionRedelivers(log: Log, sessions: seq<seq<seq<Part>>>, i: nat, polls: seq<seq<Part>>, k: nat)
    requires ValidLife(log, NEW, sessions) && ValidLoop(log, Restart(Live(NEW, sessions)), polls)
    requires var trace := Live(NEW, sessions).trace; Unconfirmed(trace, i) && SameSession(trace, i, |trace|)
    requires forall j :: !LaterCommit(Live(NEW, sessions).trace, i, j)
    requires var c := Live(NEW, sessions);
             var trace := Session(c, polls).trace;
             |c.trace| < k < |trace| && trace[k].Processed? && trace[k].partition == c.trace[i].partition &&
             trace[k].offset >= c.trace[i].offset
    ensures var c := Live(NEW, sessions);
            var trace, m := Session(c, polls).trace, c.trace[i];
            || (exists j :: |c.trace| < j <= k && ProcessedAt(trace, |c.trace|, j, m.partition, m.offset) &&
                            trace[j].message == m.message)
            || CutBefore(trace, |c.trace| + 1, k)
  {
    NewIsInv();
    LifeKeepsInv(log, NEW, sessions);
    LifeExtends(log, NEW, sessions);
    hide Live, ValidLife, NEW, ValidLoop, Session, InTurnAt, Unconfirmed, SameSession;
    var c := Live(NEW, sessions);
    UnpassedIff(c, i);
    SessionRedelivers(log, c, polls, c.trace[i].partition, c.trace[i].offset, k);
  }

  /** In a session the offsets of a partition rise. */
  lemma LowerIsEarlier(trace: seq<Action>, since: nat, k: nat, j: nat)
    requires TraceOk(trace) && since <= k < |trace| && since <= j < |trace|
    requires forall r | since <= r < |trace| :: trace[r] != Restarted
    requires trace[k].Processed? && trace[j].Processed? && trace[k].partition == trace[j].partition
    requires trace[j].offset < trace[k].offset
    ensures j < k
  {
    assert k < j ==> PairOk(trace, k, j);
  }

  lemma SessionRedelivers(log: Log, c: Consumer, polls: seq<seq<Part>>, p: Partition, n: nat, k: nat)
    requires Inv(c) && FromLog(log, c.trace) && ValidLoop(log, Restart(c), polls)
    requires Place(p, n) in log && At(c.committed, p) <= n
    requires var trace := Session(c, polls).trace;
             |c.trace| < k < |trace| && trace[k].Processed? && trace[k].partition == p && trace[k].offset >= n
    ensures var trace := Session(c, polls).trace;
            || (exists j :: |c.trace| < j <= k && ProcessedAt(trace, |c.trace|, j, p, n) &&
                            trace[j].message == log[Place(p, n)])
            || CutBefore(trace, |c.trace| + 1, k)
  {
    var c0, c' := Restart(c), RunLoop(Restart(c), polls);
    var w := Watch(log, |c0.trace|, p, At(c.committed, p));
    RestartKeepsInv(c);
    RestartFromLog(log, c);
    LoopKeepsInv(log, c0, polls);
    LoopExtends(log, c0, polls);
    assert Front(w, c0, At(c0.position, p));
    LoopKeepsFront(w, c0, polls);
    hide RunLoop, ValidLoop, CommittedOk, Positioned, CutBefore;
    var trace := c'.trace;
    assert InTurnAt(w, trace, k);
    if !CutBefore(trace, w.since, k) {
      if trace[k].offset == n {
        assert ProcessedAt(trace, |c.trace|, k, p, n);
      } else {
        assert ProcessedSince(trace, w.since, p, n);
        var j: nat :| ProcessedAt(trace, w.since, j, p, n);
        LowerIsEarlier(trace, w.since, k, j);
        assert ProcessedAt(trace, |c.trace|, j, p, n);
      }
    }
  }

  lemma OnePart(c: Consumer, part: Part)
    ensures PollOnce(c, [part]) ==
            HandleAll(c.(position := FetchedOne(c.position, part)), part.partition, part.messages).(raised := false)
  {
    hide HandleAll;
    var c0 := c.(position := FetchedOne(c.position, part));
    assert [part][1..] == [];
    assert Fetched(c.position, [part]) == c0.position;
    assert HandleParts(c0, [part]) == HandleAll(c0, part.partition, part.messages);
  }

  /**
   * The stated intent, that a failed message is delivered again, does not hold once a later message of
   * its partition succeeds: whatever came before, the offset committed then is past the failed message.
   */
  lemma LaterSuccessSkipsFailure(c: Consumer, p: Partition, failed: Polled, next: Polled)
    requires c.running && !c.raised && !failed.stop && Succeeds(next) && next.accepted
    requires failed.message.Message? && !Succeeds(failed)
    requires failed.offset < next.offset
    ensures var c' := PollOnce(c, [Part(p, [failed, next])]);
            At(Restart(c').position, p) > failed.offset
  {
    var part := Part(p, [failed, next]);
    var c0 := c.(position := FetchedOne(c.position, part));
    OnePart(c, part);
    PartBounds(c0, p, [failed, next]);
    PartStep(c0, p, [failed, next], 0);
    var c1 := Handle(c0, p, failed);
    PartStep(c1, p, [failed, next], 1);
    PartBounds(Handle(c1, p, next), p, [failed, next]);
    hide HandleAll;
  }

  /** Processing raises, or the broker refuses the offset: nothing more of the batch is handled. */
  predicate EndsBatch(m: Polled) {
    m.message.NotAnObject? || (Succeeds(m) && !m.accepted)
  }

  /**
   * A message that ends its batch drops the rest of it: none of that is processed in this poll, and the
   * fetch position is past all of it, so that only a restart brings it back.
   */
  lemma RefusedOffsetDropsRest(c: Consumer, p: Partition, first: Polled, rest: seq<Polled>)
    requires c.running && !c.raised && EndsBatch(first) && Rising([first] + rest, At(c.position, p))
    ensures var c' := PollOnce(c, [Part(p, [first] + rest)]);
            && c'.trace == c.trace + [Done(p, first)]
            && c'.committed == c.committed
            && forall m | m in rest :: m.offset < At(c'.position, p)
  {
    var part := Part(p, [first] + rest);
    var c0 := c.(position := FetchedOne(c.position, part));
    OnePart(c, part);
    PartBounds(c0, p, part.messages);
    PartStep(c0, p, part.messages, 0);
    PartBounds(Handle(c0, p, first), p, part.messages[1..]);
    RestRises(c.position, [part]) by { assert [part][1..] == []; }
    hide HandleAll, Rising;
    forall m | m in rest ensures m in part.messages {}
  }
}
