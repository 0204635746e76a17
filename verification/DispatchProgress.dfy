/** Whatever dispatchers have done, a row that can be delivered and is not dead can still be delivered. */
module DispatchProgress {
  import opened Prelude
  import opened OutboxRow
  import opened OutboxRepository
  import opened OutboxDispatcher
  import opened DispatchProtocol
  import opened DispatchSafety
  import opened RetryBounds

  lemma {:induction false} RunsCompose(p: RetryPolicy, s: Sys, a: seq<DispatchProtocol.Step>,
                                       b: seq<DispatchProtocol.Step>)
    requires ValidRun(p, s, a) && ValidRun(p, After(p, s, a), b)
    ensures ValidRun(p, s, a + b) && After(p, s, a + b) == After(p, After(p, s, a), b)
    decreases |a|
  {
    hide Enabled, Apply;
    if a == [] {
      assert a + b == b;
    } else {
      assert (a + b)[0] == a[0] && (a + b)[1..] == a[1..] + b;
      RunsCompose(p, Apply(p, s, a[0]), a[1..], b);
    }
  }

  lemma OneStep(p: RetryPolicy, s: Sys, step: DispatchProtocol.Step)
    requires Enabled(s, step)
    ensures ValidRun(p, s, [step]) && After(p, s, [step]) == Apply(p, s, step)
  {}

  // ---------------------------------------------------------------------------------------------
  // Time.

  /** Every step reads the same clock value, if any. */
  ghost predicate AllAt(steps: seq<DispatchProtocol.Step>, now: int) {
    forall i | 0 <= i < |steps| :: TimeOf(steps[i]).None? || TimeOf(steps[i]) == Some(now)
  }

  lemma {:induction false} AllAtInTime(steps: seq<DispatchProtocol.Step>, start: int, now: int)
    requires AllAt(steps, now) && start <= now
    ensures InTime(steps, start)
    decreases |steps|
  {
    hide TimeOf;
    if steps != [] {
      var rest := steps[1..];
      assert forall i | 0 <= i < |rest| :: rest[i] == steps[i + 1];
      AllAtInTime(rest, if TimeOf(steps[0]).Some? then now else start, now);
    }
  }

  lemma {:induction false} InTimeCompose(a: seq<DispatchProtocol.Step>, b: seq<DispatchProtocol.Step>, start: int)
    requires InTime(a, start) && InTime(b, LastTime(a, start))
    ensures InTime(a + b, start)
    decreases |a|
  {
    hide TimeOf;
    if a == [] {
      assert a + b == b;
    } else {
      assert (a + b)[0] == a[0] && (a + b)[1..] == a[1..] + b;
      InTimeCompose(a[1..], b, if TimeOf(a[0]).Some? then TimeOf(a[0]).value else start);
    }
  }

  /** An instant from `from` on by which every scheduled retry is due. */
  lemma {:induction false} Later(rows: map<RowId, OutboxEvent>, ids: set<RowId>, from: int) returns (now: int)
    requires forall id | id in ids :: id in rows
    ensures from <= now && forall id | id in ids && rows[id].nextRetryAt.Some? :: rows[id].nextRetryAt.value <= now
    decreases |ids|
  {
    now := from;
    if ids != {} {
      var id :| id in ids;
      now := Later(rows, ids - {id}, from);
      if rows[id].nextRetryAt.Some? && rows[id].nextRetryAt.value > now { now := rows[id].nextRetryAt.value; }
    }
  }

  // ---------------------------------------------------------------------------------------------
  // Getting the locks back.

  /** Every open transaction may crash. */
  lemma {:induction false} AbortAll(p: RetryPolicy, s: Sys) returns (steps: seq<DispatchProtocol.Step>)
    requires Inv(p, s)
    ensures ValidRun(p, s, steps) && Inv(p, After(p, s, steps))
    ensures After(p, s, steps).rows == s.rows && After(p, s, steps).txs == map[]
    ensures forall i | 0 <= i < |steps| :: TimeOf(steps[i]).None?
    decreases |s.txs|
  {
    hide Inv;
    if s.txs == map[] {
      steps := [];
    } else {
      var t :| t in s.txs;
      var step := DispatchProtocol.Abort(t);
      var s' := Apply(p, s, step);
      StepKeepsInv(p, s, step);
      assert s'.txs.Keys == s.txs.Keys - {t};
      var rest := AbortAll(p, s');
      OneStep(p, s, step);
      RunsCompose(p, s, [step], rest);
      steps := [step] + rest;
    }
  }

  // ---------------------------------------------------------------------------------------------
  // A claim of everything that is eligible.

  lemma {:induction false} Youngest(rows: map<RowId, OutboxEvent>, ids: set<RowId>) returns (last: RowId)
    requires ids != {} && forall id | id in ids :: id in rows
    ensures last in ids && forall id | id in ids :: rows[id].createdAt <= rows[last].createdAt
    decreases |ids|
  {
    last :| last in ids;
    if ids != {last} {
      var other := Youngest(rows, ids - {last});
      if rows[other].createdAt > rows[last].createdAt { last := other; }
    }
  }

  lemma {:induction false} InOrderOfAge(rows: map<RowId, OutboxEvent>, ids: set<RowId>) returns (picked: seq<RowId>)
    requires forall id | id in ids :: id in rows
    ensures Distinct(picked) && (forall id :: id in picked <==> id in ids) && |picked| == |ids|
    ensures forall i, j :: 0 <= i < j < |picked| ==> rows[picked[i]].createdAt <= rows[picked[j]].createdAt
    decreases |ids|
  {
    if ids == {} {
      picked := [];
    } else {
      var last := Youngest(rows, ids);
      var before := InOrderOfAge(rows, ids - {last});
      picked := before + [last];
    }
  }

  lemma ClaimAll(rows: map<RowId, OutboxEvent>, now: int) returns (picked: seq<RowId>)
    ensures QueryResult(rows, {}, now, |picked|, picked)
    ensures forall id | id in rows && Eligible(rows[id], now) :: id in picked
  {
    hide Eligible;
    picked := InOrderOfAge(rows, set id | id in rows && Eligible(rows[id], now));
  }

  // ---------------------------------------------------------------------------------------------
  // Working through the batch.

  /** A transaction that has published every row so far whose message deserializes. */
  ghost predicate Draining(s: Sys, t: nat) {
    && t in s.txs && s.txs[t].done <= |s.txs[t].claimed| && s.txs[t].stage == Unsent
    && forall i | 0 <= i < s.txs[t].done :: PublishedIfPossible(s, t, s.txs[t].claimed[i])
  }

  ghost predicate PublishedIfPossible(s: Sys, t: nat, id: RowId) {
    t in s.txs && id in s.rows && (Deserialize(s.rows[id]).Some? ==> id in s.txs[t].published)
  }

  /** The same transaction one row on. */
  ghost predicate OneRowOn(s: Sys, s': Sys, t: nat) {
    && Draining(s', t) && s'.rows == s.rows && t in s.txs
    && s'.txs[t].claimed == s.txs[t].claimed && s'.txs[t].done == s.txs[t].done + 1
  }

  /** The rest of the batch can be dealt with at one instant, every row published that can be. */
  lemma {:induction false} Drain(p: RetryPolicy, s: Sys, t: nat, now: int) returns (steps: seq<DispatchProtocol.Step>)
    requires Inv(p, s) && Draining(s, t)
    ensures ValidRun(p, s, steps) && AllAt(steps, now)
    ensures var s' := After(p, s, steps);
            && Inv(p, s') && Draining(s', t) && s'.rows == s.rows
            && s'.txs[t].claimed == s.txs[t].claimed && s'.txs[t].done == |s'.txs[t].claimed|
    decreases if t in s.txs then |s.txs[t].claimed| - s.txs[t].done else 0
  {
    hide Inv, Deserialize, Enabled, Apply, PublishedIfPossible, TimeOf;
    if s.txs[t].done == |s.txs[t].claimed| {
      steps := [];
    } else {
      var first := DrainOne(p, s, t, now);
      RunKeepsInv(p, s, first);
      var rest := Drain(p, After(p, s, first), t, now);
      RunsCompose(p, s, first, rest);
      steps := first + rest;
    }
  }

  lemma DrainOne(p: RetryPolicy, s: Sys, t: nat, now: int) returns (steps: seq<DispatchProtocol.Step>)
    requires Inv(p, s) && Draining(s, t) && s.txs[t].done < |s.txs[t].claimed|
    ensures ValidRun(p, s, steps) && AllAt(steps, now) && OneRowOn(s, After(p, s, steps), t)
  {
    hide Deserialize, RowsOk, EndedOk, LogOk, SentOk, Disjoint, Consistent, Distinct, Apply, Enabled, OneRowOn,
         PublishedIfPossible;
    TxTaken(p, s.rows, s.log, s.txs, t);
    CurrentIsProcessing(p, s.rows, s.txs[t]);
    var id := Current(s.txs[t]);
    if Deserialize(s.rows[id]).Some? {
      var send, mark := DispatchProtocol.Send(t), DispatchProtocol.MarkPublished(t, now);
      SendAndMark(p, s, t, now);
      OneStep(p, s, send);
      OneStep(p, Apply(p, s, send), mark);
      RunsCompose(p, s, [send], [mark]);
      steps := [send] + [mark];
    } else {
      var mark := DispatchProtocol.MarkFailed(t, now, "");
      PassOver(p, s, t, now);
      OneStep(p, s, mark);
      steps := [mark];
    }
  }

  lemma SendAndMark(p: RetryPolicy, s: Sys, t: nat, now: int)
    requires Draining(s, t) && Busy(s, t) && Current(s.txs[t]) in s.rows
    requires Deserialize(s.txs[t].work[Current(s.txs[t])]).Some?
    ensures var send, mark := DispatchProtocol.Send(t), DispatchProtocol.MarkPublished(t, now);
            && Enabled(s, send) && Enabled(Apply(p, s, send), mark)
            && OneRowOn(s, Apply(p, Apply(p, s, send), mark), t)
  {
    hide Deserialize, OutboxRow.MarkedPublished, QueryResult, Locked;
    var tx := s.txs[t];
    var s' := Apply(p, Apply(p, s, DispatchProtocol.Send(t)), DispatchProtocol.MarkPublished(t, now));
    forall i | 0 <= i < s'.txs[t].done ensures PublishedIfPossible(s', t, tx.claimed[i]) {
      if i < tx.done { assert PublishedIfPossible(s, t, tx.claimed[i]); }
    }
  }

  lemma PassOver(p: RetryPolicy, s: Sys, t: nat, now: int)
    requires Draining(s, t) && Busy(s, t) && Current(s.txs[t]) in s.rows
    requires Deserialize(s.rows[Current(s.txs[t])]).None?
    ensures var mark := DispatchProtocol.MarkFailed(t, now, "");
            Enabled(s, mark) && OneRowOn(s, Apply(p, s, mark), t)
  {
    hide Deserialize, OutboxRow.MarkedFailed, QueryResult, Locked;
    var tx := s.txs[t];
    var s' := Apply(p, s, DispatchProtocol.MarkFailed(t, now, ""));
    forall i | 0 <= i < s'.txs[t].done ensures PublishedIfPossible(s', t, tx.claimed[i]) {
      if i < tx.done { assert PublishedIfPossible(s, t, tx.claimed[i]); }
    }
  }

  lemma CommitPublishes(p: RetryPolicy, s: Sys, t: nat)
    requires Inv(p, s) && Draining(s, t) && s.txs[t].done == |s.txs[t].claimed|
    ensures Enabled(s, DispatchProtocol.Commit(t))
    ensures var s' := Apply(p, s, DispatchProtocol.Commit(t));
            && (forall id | id in s.txs[t].claimed ::
                  id in s.rows && id in s'.rows && (Deserialize(s.rows[id]).Some? ==> s'.rows[id].status == Published))
            && (forall id | id in s.rows && id !in s.txs[t].claimed :: id in s'.rows && s'.rows[id] == s.rows[id])
  {
    hide RowsOk, EndedOk, LogOk, SentOk, Disjoint, Consistent, Deserialize;
    TxTaken(p, s.rows, s.log, s.txs, t);
    forall id | id in s.txs[t].claimed ensures PublishedIfPossible(s, t, id) {
      var i :| 0 <= i < |s.txs[t].claimed| && s.txs[t].claimed[i] == id;
    }
  }

  /** A row that can still be delivered. */
  predicate Deliverable(r: OutboxEvent, p: RetryPolicy) {
    Deserialize(r).Some? && !Dead(r, p)
  }

  ghost predicate AllDelivered(p: RetryPolicy, rows: map<RowId, OutboxEvent>, rows': map<RowId, OutboxEvent>) {
    forall id | id in rows && Deliverable(rows[id], p) :: id in rows' && rows'[id].status == Published
  }

  /**
   * Never lost: after any run, and for any instant from then on, some continuation whose clock starts
   * there and does not go back publishes every row whose message deserializes and that is not dead.
   */
  lemma StillDeliverable(p: RetryPolicy, run: seq<DispatchProtocol.Step>, start: int, from: int)
    returns (rest: seq<DispatchProtocol.Step>)
    requires ValidRun(p, START, run) && InTime(run, start) && LastTime(run, start) <= from
    ensures ValidRun(p, After(p, START, run), rest) && InTime(rest, from) && InTime(run + rest, start)
    ensures AllDelivered(p, After(p, START, run).rows, After(p, After(p, START, run), rest).rows)
  {
    hide Inv, Enabled, Apply, AllDelivered;
    ReachableInv(p, run);
    var s := After(p, START, run);
    var now := Later(s.rows, s.rows.Keys, from);
    var aborts := AbortAll(p, s);
    var quiet := After(p, s, aborts);
    var batch := DeliverAll(p, quiet, now);
    RunsCompose(p, s, aborts, batch);
    rest := aborts + batch;
    AllAtInTime(rest, from, now);
    AllAtInTime(rest, LastTime(run, start), now);
    InTimeCompose(run, rest, start);
  }

  /** With no lock held and every retry due, one batch delivers all that can be delivered. */
  lemma DeliverAll(p: RetryPolicy, s: Sys, now: int) returns (steps: seq<DispatchProtocol.Step>)
    requires Inv(p, s) && s.txs == map[]
    requires forall id | id in s.rows && s.rows[id].nextRetryAt.Some? :: s.rows[id].nextRetryAt.value <= now
    ensures ValidRun(p, s, steps) && AllAt(steps, now)
    ensures AllDelivered(p, s.rows, After(p, s, steps).rows)
  {
    hide Inv, Deserialize, Enabled, Apply, QueryResult, Eligible, Draining, Dead;
    var picked := ClaimAll(s.rows, now);
    DeliverableIsPicked(p, s, now, picked);
    if picked == [] {
      return [];
    }
    var t := FreshTx(s.ended);
    var claim, commit := DispatchProtocol.Claim(t, now, 0, |picked|, picked), DispatchProtocol.Commit(t);
    ClaimDrains(p, s, t, claim);
    OneStep(p, s, claim);
    StepKeepsInv(p, s, claim);
    var open := Apply(p, s, claim);
    var marks := Drain(p, open, t, now);
    var full := After(p, open, marks);
    CommitPublishes(p, full, t);
    OneStep(p, full, commit);
    RunsCompose(p, open, marks, [commit]);
    RunsCompose(p, s, [claim], marks + [commit]);
    steps := [claim] + (marks + [commit]);
  }

  /** Every deliverable row is published already or among the eligible ones. */
  lemma DeliverableIsPicked(p: RetryPolicy, s: Sys, now: int, picked: seq<RowId>)
    requires Inv(p, s)
    requires forall id | id in s.rows && s.rows[id].nextRetryAt.Some? :: s.rows[id].nextRetryAt.value <= now
    requires forall id | id in s.rows && Eligible(s.rows[id], now) :: id in picked
    ensures forall id | id in s.rows && Deliverable(s.rows[id], p) :: id in picked || s.rows[id].status == Published
  {
    hide TxsOk, EndedOk, LogOk, Disjoint, Deserialize, Failures, PublishedBy;
    forall id | id in s.rows && Deliverable(s.rows[id], p)
      ensures id in picked || s.rows[id].status == Published
    {
      assert RowOk(p, id, s.rows[id], s.ended);
    }
  }

  lemma ClaimDrains(p: RetryPolicy, s: Sys, t: nat, claim: DispatchProtocol.Step)
    requires claim.Claim? && claim.t == t && claim.picked != [] && t !in s.ended && s.txs == map[]
    requires QueryResult(s.rows, {}, claim.now, claim.limit, claim.picked)
    ensures Enabled(s, claim)
    ensures var s' := Apply(p, s, claim); Draining(s', t) && s'.rows == s.rows && s'.txs[t].claimed == claim.picked
  {
    hide Eligible;
    assert Locked(s.txs) == {};
  }

  lemma FreshTx(ended: map<nat, End>) returns (t: nat)
    ensures t !in ended
  {
    if ended == map[] { return 0; }
    var top := Largest(ended.Keys);
    t := top + 1;
  }

  lemma {:induction false} Largest(ids: set<nat>) returns (top: nat)
    requires ids != {}
    ensures forall id | id in ids :: id <= top
    decreases |ids|
  {
    top :| top in ids;
    if ids != {top} {
      var other := Largest(ids - {top});
      assert forall id | id in ids :: id == top || id in ids - {top};
      if other > top { top := other; }
    }
  }
}
