/**
 * One copy of an incident at a time keeps every save up to date; two copies at once do not, and the
 * store with a broken history is reached.
 */
module IncidentCopies {
  import opened PythonText
  import opened IncidentStatus
  import opened IncidentLifecycle
  import opened IncidentHistory

  // ---------------------------------------------------------------------------------------------
  // One copy of an incident at a time.

  /** An incident is loaded only while no other copy of it is in memory. */
  ghost predicate Serial(u: UnicodeTable, s: Sys, steps: seq<Step>)
    requires ValidRun(u, s, steps)
    decreases |steps|
  {
    steps != [] ==>
      && (steps[0].Load? ==> NoCopyOf(s.copies, steps[0].id))
      && Serial(u, Apply(u, s, steps[0]), steps[1..])
  }

  /** Every copy is up to date and the only one of its incident. */
  ghost predicate Fresh(s: Sys) {
    && (forall h | h in s.copies :: UpToDate(s.store, s.copies[h]))
    && (forall h, k | h in s.copies && k in s.copies && s.copies[h].id == s.copies[k].id :: h == k)
  }

  lemma StepKeepsFresh(u: UnicodeTable, s: Sys, step: Step)
    requires Inv(s) && Fresh(s) && Enabled(u, s, step) && (step.Load? ==> NoCopyOf(s.copies, step.id))
    ensures Fresh(Apply(u, s, step))
  {
    hide StoreOk, CopyOk, CopiesApart, Base, Saved, Refused, FreshHistoryId, CanTransition;
    match step
    case Create(h, _, _, _) => NewCopyOk(s.store, Apply(u, s, step).copies[h]);
    case Load(h, _) => NewCopyOk(s.store, Apply(u, s, step).copies[h]);
    case Transition(_, _, _, _, _, _) => TransitionKeepsCopy(u, s, step);
    case Save(h) =>
      if Refused(s.store, s.copies[h]) {
        RefusedChangesNothing(s.store, s.copies[h]);
      } else {
        SaveKeepsFresh(s, h);
      }
    case Drop(_) =>
  }

  lemma SaveKeepsFresh(s: Sys, h: Handle)
    requires Inv(s) && Fresh(s) && h in s.copies && !Refused(s.store, s.copies[h])
    ensures Fresh(s.(store := Saved(s.store, s.copies[h])))
  {
    hide StoreOk, CopyOk, CopiesApart, Base, Saved, Refused;
    SavedIs(s.store, s.copies[h]);
    forall k | k in s.copies ensures UpToDate(Saved(s.store, s.copies[h]), s.copies[k]) {
      if k == h {
        SaveKeepsCopy(s.store, s.copies[h]);
      } else {
        SaveKeepsOther(s.store, s.copies, h, k);
      }
    }
  }

  lemma {:induction false} FreshIsChecked(u: UnicodeTable, s: Sys, steps: seq<Step>)
    requires Inv(s) && Fresh(s) && ValidRun(u, s, steps) && Serial(u, s, steps)
    ensures Checked(u, s, steps)
    decreases |steps|
  {
    hide Inv, Apply, Refused, UpToDate;
    if steps != [] {
      StepKeepsInv(u, s, steps[0]);
      StepKeepsFresh(u, s, steps[0]);
      FreshIsChecked(u, Apply(u, s, steps[0]), steps[1..]);
    }
  }

  /** With one copy of an incident at a time every save is up to date, so every stored history is a path. */
  lemma SerialIsChecked(u: UnicodeTable, steps: seq<Step>)
    requires ValidRun(u, START, steps) && Serial(u, START, steps)
    ensures Checked(u, START, steps)
  {
    StartOk();
    FreshIsChecked(u, START, steps);
  }

  // ---------------------------------------------------------------------------------------------
  // Two copies at once.

  lemma {:induction false} RunsCompose(u: UnicodeTable, s: Sys, a: seq<Step>, b: seq<Step>)
    requires ValidRun(u, s, a) && ValidRun(u, After(u, s, a), b)
    ensures ValidRun(u, s, a + b) && After(u, s, a + b) == After(u, After(u, s, a), b)
    decreases |a|
  {
    hide Enabled, Apply;
    if a == [] {
      assert a + b == b;
    } else {
      assert (a + b)[0] == a[0] && (a + b)[1..] == a[1..] + b;
      RunsCompose(u, Apply(u, s, a[0]), a[1..], b);
    }
  }

  lemma OneStep(u: UnicodeTable, s: Sys, step: Step)
    requires Enabled(u, s, step)
    ensures ValidRun(u, s, [step]) && After(u, s, [step]) == Apply(u, s, step)
  {
    hide Enabled, Apply;
    assert [step][1..] == [];
  }

  /** A row of an active incident has no rival, so the index does not refuse a save of a copy of it. */
  lemma StoredIsNotRefused(s: Store, c: Copy)
    requires OneActiveRow(s) && IsStored(s, c) && (IsActive(c.status) ==> IsActive(s.rows[c.id].status))
    ensures !Refused(s, c)
  {
    hide IsActive;
    if IsActive(c.status) {
      assert IsActiveRow(s, c.tenantId, SavedKey(s, c), c.id);
    }
  }

  /** Nor does it refuse to put back a status the row had, while no other row has changed. */
  lemma StoredStatusAgain(s: Store, s': Store, c: Copy)
    requires OneActiveRow(s) && IsStored(s, c) && c.status == s.rows[c.id].status
    requires c.id in s'.rows && s'.rows == s.rows[c.id := s.rows[c.id].(status := s'.rows[c.id].status)]
    ensures !Refused(s', c)
  {
    StoredIsNotRefused(s, c);
    forall id ensures IsRival(s', c, id) <==> IsRival(s, c, id) {}
    hide IsRival, OneActiveRow;
  }

  /**
   * Wherever a run has got to: load an incident twice, make a transition in one copy, save it, and save
   * the other copy, in which nothing happened. Both saves go through, and the stored history of the
   * incident is no path any more.
   */
  lemma StaleSaveBreaksHistory(u: UnicodeTable, s: Sys, id: IncidentId, h: Handle, k: Handle,
                               to: Status, actor: string, reason: string, at: int, change: HistoryId)
    returns (steps: seq<Step>)
    requires Inv(s) && PathsOk(s.store) && id in s.store.rows && h !in s.copies && k !in s.copies && h != k
    requires CanTransition(u, s.store.rows[id].status, to, actor, reason) && FreshHistoryId(s, change)
    ensures steps == [Load(h, id), Load(k, id), Transition(h, to, actor, reason, at, change), Save(h), Save(k)]
    ensures ValidRun(u, s, steps) && !PathOk(After(u, s, steps).store, id)
  {
    hide *;
    TransitionAllowed(u, s.store.rows[id].status, to, actor, reason);
    var s1 := TwoLoads(u, s, id, h, k);
    var move := Transition(h, to, actor, reason, at, change);
    var s2 := Moved(u, s, s1, id, h, k, move);
    var s3 := FirstSave(u, s, s2, id, h, k, move);
    SecondSaveBreaks(u, s, s3, id, h, k, move);
    OneStep(u, s3, Save(k));
    RunsCompose(u, s2, [Save(h)], [Save(k)]);
    RunsCompose(u, s1, [move], [Save(h)] + [Save(k)]);
    RunsCompose(u, s, [Load(h, id)] + [Load(k, id)], [move] + ([Save(h)] + [Save(k)]));
    steps := [Load(h, id)] + [Load(k, id)] + ([move] + ([Save(h)] + [Save(k)]));
  }

  lemma TransitionAllowed(u: UnicodeTable, from: Status, to: Status, actor: string, reason: string)
    requires CanTransition(u, from, to, actor, reason)
    ensures to in AllowedFrom(from)
  {}

  lemma TwoLoads(u: UnicodeTable, s: Sys, id: IncidentId, h: Handle, k: Handle) returns (s1: Sys)
    requires Inv(s) && id in s.store.rows && h !in s.copies && k !in s.copies && h != k
    ensures s1 == s.(copies := s.copies[h := Loaded(s.store, id)][k := Loaded(s.store, id)])
    ensures Inv(s1)
    ensures ValidRun(u, s, [Load(h, id)] + [Load(k, id)]) && After(u, s, [Load(h, id)] + [Load(k, id)]) == s1
  {
    hide Inv, Apply;
    var first := Apply(u, s, Load(h, id));
    assert first == s.(copies := s.copies[h := Loaded(s.store, id)]) by { LoadIs(u, s, h, id); }
    StepKeepsInv(u, s, Load(h, id));
    OneStep(u, s, Load(h, id));
    LoadIs(u, first, k, id);
    s1 := Apply(u, first, Load(k, id));
    StepKeepsInv(u, first, Load(k, id));
    OneStep(u, first, Load(k, id));
    RunsCompose(u, s, [Load(h, id)], [Load(k, id)]);
  }

  lemma LoadIs(u: UnicodeTable, s: Sys, h: Handle, id: IncidentId)
    requires h !in s.copies && id in s.store.rows
    ensures Enabled(u, s, Load(h, id))
    ensures Apply(u, s, Load(h, id)) == s.(copies := s.copies[h := Loaded(s.store, id)])
  {}

  /** The first copy moves on. */
  lemma Moved(u: UnicodeTable, s: Sys, s1: Sys, id: IncidentId, h: Handle, k: Handle, move: Step) returns (s2: Sys)
    requires move.Transition? && move.h == h && h != k && id in s.store.rows && Inv(s1)
    requires s1 == s.(copies := s.copies[h := Loaded(s.store, id)][k := Loaded(s.store, id)])
    requires CanTransition(u, s.store.rows[id].status, move.to, move.actor, move.reason)
    requires FreshHistoryId(s, move.history)
    ensures s2 == s1.(copies := s1.copies[h := Transitioned(Loaded(s.store, id), move)]) && Inv(s2)
    ensures ValidRun(u, s1, [move]) && After(u, s1, [move]) == s2
  {
    hide Inv, CanTransition;
    assert FreshHistoryId(s1, move.history);
    s2 := Apply(u, s1, move);
    StepKeepsInv(u, s1, move);
    OneStep(u, s1, move);
  }

  lemma FirstSave(u: UnicodeTable, s: Sys, s2: Sys, id: IncidentId, h: Handle, k: Handle, move: Step) returns (s3: Sys)
    requires move.Transition? && move.h == h && h != k && id in s.store.rows && Inv(s2)
    requires s2.store == s.store && h in s2.copies && s2.copies[h] == Transitioned(Loaded(s.store, id), move)
    requires k in s2.copies && s2.copies[k] == Loaded(s.store, id)
    requires move.to in AllowedFrom(s.store.rows[id].status) && PathsOk(s.store)
    requires FreshHistoryId(s, move.history)
    ensures Inv(s3) && PathOk(s3.store, id) && ValidRun(u, s2, [Save(h)]) && After(u, s2, [Save(h)]) == s3
    ensures k in s3.copies && s3.copies[k] == Loaded(s.store, id)
    ensures s3.store.rows == s.store.rows[id := s.store.rows[id].(status := move.to)]
  {
    hide CopyOk, CopiesApart, HistoryOf, IsPath, WithChanges, OneActiveRow;
    var c := s2.copies[h];
    assert IsActive(move.to) ==> IsActive(s.store.rows[id].status);
    StoredIsNotRefused(s.store, c);
    s3 := Apply(u, s2, Save(h));
    assert UpToDate(s.store, c) by {
      assert c.history[0].id == move.history && !Recorded(s.store.history, move.history);
    }
    hide Refused, Saved, PathOk;
    SaveKeepsPathsIff(s.store, c);
    SavedIs(s.store, c);
    StepKeepsInv(u, s2, Save(h));
    OneStep(u, s2, Save(h));
  }

  lemma SecondSaveBreaks(u: UnicodeTable, s: Sys, s3: Sys, id: IncidentId, h: Handle, k: Handle, move: Step)
    requires move.Transition? && id in s.store.rows && Inv(s3) && Inv(s) && PathOk(s3.store, id)
    requires k in s3.copies && s3.copies[k] == Loaded(s.store, id)
    requires s3.store.rows == s.store.rows[id := s.store.rows[id].(status := move.to)]
    requires move.to in AllowedFrom(s.store.rows[id].status)
    ensures Enabled(u, s3, Save(k)) && !PathOk(Apply(u, s3, Save(k)).store, id)
  {
    hide CopyOk, CopiesApart, HistoryOf, IsPath, OneActiveRow;
    var c := s3.copies[k];
    StoredStatusAgain(s.store, s3.store, c);
    AllowedIsNextRank(c.status, move.to);
    hide Refused, Saved, PathOk;
    SaveKeepsPathIff(s3.store, c);
  }

  /**
   * Neither does it help that both copies move on: whenever two copies loaded from the same row each make
   * a transition and both are saved, the second save goes through as well, and the history is no path.
   */
  lemma StaleCopyBreaksHistory(s: Store, id: IncidentId, a: Change, b: Change)
    requires StoreOk(s) && id in s.rows && PathOk(s, id)
    requires a.source == b.source == s.rows[id].status
    requires a.target in AllowedFrom(a.source) && b.target in AllowedFrom(b.source)
    requires a.id != b.id && !Recorded(s.history, a.id) && !Recorded(s.history, b.id)
    ensures var row := s.rows[id];
            var first := Copy(id, row.tenantId, row.key, a.target, [a]);
            var second := Copy(id, row.tenantId, row.key, b.target, [b]);
            var s' := Saved(Saved(s, first), second);
            && HistoryOf(s'.history, id) == HistoryOf(s.history, id) + [a, b]
            && id in s'.rows && s'.rows[id].status == b.target
            && !IsPath(HistoryOf(s'.history, id), Open, s'.rows[id].status)
  {
    hide IsPath, OneActiveRow, HistoryOf, Recorded, WithChanges, Refused, Saved;
    var row := s.rows[id];
    var first := Copy(id, row.tenantId, row.key, a.target, [a]);
    SaveOne(s, first, a);
    var s1 := Saved(s, first);
    assert !Recorded(s1.history, b.id) by {
      RecordedGrows(s.history, [HistoryRow(id, a)], b.id);
      OneRowRecorded(id, a, b.id);
    }
    var second := Copy(id, row.tenantId, row.key, b.target, [b]);
    AllowedIsNextRank(a.source, a.target);
    AllowedIsNextRank(b.source, b.target);
    RankTells(a.target, b.target);
    SaveOne(s1, second, b);
    var path := HistoryOf(Saved(s1, second).history, id);
    assert path == HistoryOf(s.history, id) + [a, b];
    PathRanks(HistoryOf(s.history, id), Open, row.status);
    if IsPath(path, Open, b.target) { PathRanks(path, Open, b.target); }
  }

  lemma OneRowRecorded(id: IncidentId, change: Change, other: HistoryId)
    ensures Recorded([HistoryRow(id, change)], other) <==> change.id == other
  {
    assert [HistoryRow(id, change)][0].change == change;
  }

  /** Saving a copy with one new change that does not make its incident active again. */
  lemma SaveOne(s: Store, c: Copy, change: Change)
    requires IsStored(s, c) && c.history == [change] && !Recorded(s.history, change.id) && OneActiveRow(s)
    requires IsActive(c.status) ==> IsActive(s.rows[c.id].status)
    ensures Saved(s, c).history == s.history + [HistoryRow(c.id, change)]
    ensures Saved(s, c).rows == s.rows[c.id := s.rows[c.id].(status := c.status)] && OneActiveRow(Saved(s, c))
    ensures HistoryOf(Saved(s, c).history, c.id) == HistoryOf(s.history, c.id) + [change]
  {
    hide OneActiveRow, Recorded, HistoryOf, Refused;
    StoredIsNotRefused(s, c);
    SaveKeepsIndex(s, c);
    assert c.history[..0] == [];
    assert WithChanges(s.history, c.id, c.history) == s.history + [HistoryRow(c.id, change)];
    assert RowsFor(c.id, [change]) == [HistoryRow(c.id, change)];
    HistoryOfAppended(s.history, c.id, [change], c.id);
  }

  /** Such a run exists from the start: the failing store is reached. */
  lemma BrokenHistoryReached(u: UnicodeTable) returns (steps: seq<Step>)
    ensures ValidRun(u, START, steps) && !PathsOk(After(u, START, steps).store) && !Checked(u, START, steps)
  {
    var create, save := Create(0, "incident", "tenant", "key"), Save(0);
    StartOk();
    var s := FirstStored(u);
    var rest := StaleSaveBreaksHistory(u, s, "incident", 1, 2, Acknowledged, "operator", "triage", 0, "change");
    RunsCompose(u, START, [create] + [save], rest);
    steps := [create] + [save] + rest;
    hide Enabled, Apply, PathOk, Checked, After, ValidRun;
    assert !PathOk(After(u, START, steps).store, "incident");
    PathsExactlyWhenChecked(u, steps);
    if AlwaysPaths(u, START, steps) { EndsInPaths(u, START, steps); }
  }

  lemma FirstStored(u: UnicodeTable) returns (s: Sys)
    ensures var run := [Create(0, "incident", "tenant", "key")] + [Save(0)];
            ValidRun(u, START, run) && After(u, START, run) == s
    ensures Inv(s) && PathsOk(s.store) && "incident" in s.store.rows && s.store.rows["incident"].status == Open
    ensures s.copies.Keys == {0} && FreshHistoryId(s, "change")
    ensures CanTransition(u, Open, Acknowledged, "operator", "triage")
  {
    var create, save := Create(0, "incident", "tenant", "key"), Save(0);
    StartOk();
    var s1 := Apply(u, START, create);
    StepKeepsInv(u, START, create);
    OneStep(u, START, create);
    s := Apply(u, s1, save);
    StepKeepsInv(u, s1, save);
    OneStep(u, s1, save);
    RunsCompose(u, START, [create], [save]);
    assert !Refused(s1.store, s1.copies[0]);
    StepKeepsPathsIff(u, s1, save);
    assert !IsSpace(u, "operator"[0]) && !IsSpace(u, "triage"[0]);
  }
}
