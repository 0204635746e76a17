/**
 * What the stored histories of incidents are after any run of loads, transitions and saves, with any
 * number of copies of an incident in memory at once. A save compares no version; the histories stay
 * paths of the state machine exactly while every save is up to date.
 */
module IncidentHistory {
  import opened PythonText
  import opened IncidentStatus
  import opened IncidentLifecycle

  /** Where a copy lives in memory. */
  type Handle = nat

  datatype Sys = Sys(store: Store, copies: map<Handle, Copy>)

  datatype Step =
    | Create(h: Handle, id: IncidentId, tenantId: string, key: string)
    | Load(h: Handle, id: IncidentId)
    | Transition(h: Handle, to: Status, actor: string, reason: string, at: int, history: HistoryId)
    | Save(h: Handle)
    | Drop(h: Handle)

  predicate InCopy(c: Copy, id: HistoryId) {
    exists i | 0 <= i < |c.history| :: c.history[i].id == id
  }

  /** Identifiers are drawn at random and never repeat. */
  ghost predicate FreshHistoryId(s: Sys, id: HistoryId) {
    !Recorded(s.store.history, id) && forall h | h in s.copies :: !InCopy(s.copies[h], id)
  }

  ghost predicate NoCopyOf(copies: map<Handle, Copy>, id: IncidentId) {
    forall h | h in copies :: copies[h].id != id
  }

  ghost predicate Enabled(u: UnicodeTable, s: Sys, step: Step) {
    match step
    case Create(h, id, _, _) => h !in s.copies && id !in s.store.rows && NoCopyOf(s.copies, id)
    case Load(h, id) => h !in s.copies && id in s.store.rows
    case Transition(h, to, actor, reason, _, history) =>
      h in s.copies && CanTransition(u, s.copies[h].status, to, actor, reason) && FreshHistoryId(s, history)
    case Save(h) => h in s.copies
    case Drop(h) => h in s.copies
  }

  function Transitioned(c: Copy, step: Step): Copy
    requires step.Transition?
  {
    c.(status := step.to,
       history := c.history + [Change(step.history, c.status, step.to, step.actor, step.reason, step.at)])
  }

  function Loaded(s: Store, id: IncidentId): Copy
    requires id in s.rows
  {
    Copy(id, s.rows[id].tenantId, s.rows[id].key, s.rows[id].status, [])
  }

  ghost function Apply(u: UnicodeTable, s: Sys, step: Step): Sys
    requires Enabled(u, s, step)
  {
    match step
    case Create(h, id, tenantId, key) => s.(copies := s.copies[h := Copy(id, tenantId, key, Open, [])])
    case Load(h, id) => s.(copies := s.copies[h := Loaded(s.store, id)])
    case Transition(h, _, _, _, _, _) => s.(copies := s.copies[h := Transitioned(s.copies[h], step)])
    case Save(h) => s.(store := Saved(s.store, s.copies[h]))
    case Drop(h) => s.(copies := s.copies - {h})
  }

  ghost predicate ValidRun(u: UnicodeTable, s: Sys, steps: seq<Step>)
    decreases |steps|
  {
    steps != [] ==> Enabled(u, s, steps[0]) && ValidRun(u, Apply(u, s, steps[0]), steps[1..])
  }

  ghost function After(u: UnicodeTable, s: Sys, steps: seq<Step>): Sys
    requires ValidRun(u, s, steps)
    decreases |steps|
  {
    if steps == [] then s else After(u, Apply(u, s, steps[0]), steps[1..])
  }

  const START: Sys := Sys(Store(map[], []), map[])

  // ---------------------------------------------------------------------------------------------
  // Histories as paths of the state machine.

  /** The stored changes of one incident, in the order they were stored. */
  function HistoryOf(history: seq<HistoryRow>, id: IncidentId): seq<Change> {
    if history == [] then []
    else
      var n := |history| - 1;
      HistoryOf(history[..n], id) + if history[n].incident == id then [history[n].change] else []
  }

  /** Each change is allowed and starts where the one before it ended. */
  predicate IsPath(changes: seq<Change>, from: Status, to: Status) {
    if changes == [] then from == to
    else
      var last := changes[|changes| - 1];
      last.target == to && to in AllowedFrom(last.source) && IsPath(changes[..|changes| - 1], from, last.source)
  }

  ghost predicate DistinctIds(changes: seq<Change>) {
    forall i, j | 0 <= i < j < |changes| :: changes[i].id != changes[j].id
  }

  /** A path has one change per rank, so it never visits a status twice. */
  lemma {:induction false} PathRanks(changes: seq<Change>, from: Status, to: Status)
    requires IsPath(changes, from, to)
    ensures Rank(to) == Rank(from) + |changes|
    ensures forall i | 0 <= i < |changes| ::
              Rank(changes[i].source) == Rank(from) + i && Rank(changes[i].target) == Rank(from) + i + 1
  {
    if changes != [] {
      var n := |changes| - 1;
      PathRanks(changes[..n], from, changes[n].source);
      AllowedIsNextRank(changes[n].source, to);
    }
  }

  lemma {:induction false} PathsJoin(a: seq<Change>, b: seq<Change>, from: Status, middle: Status, to: Status)
    requires IsPath(a, from, middle) && IsPath(b, middle, to)
    ensures IsPath(a + b, from, to)
    decreases |b|
  {
    if b == [] {
      assert a + b == a;
    } else {
      var n := |b| - 1;
      PathsJoin(a, b[..n], from, middle, b[n].source);
      assert (a + b)[..|a + b| - 1] == a + b[..n];
    }
  }

  lemma RankTells(s: Status, t: Status)
    ensures s == t <==> Rank(s) == Rank(t)
  {}

  /** The stored history of a row leads from open to the stored status. */
  ghost predicate PathOk(s: Store, id: IncidentId) {
    id in s.rows ==> IsPath(HistoryOf(s.history, id), Open, s.rows[id].status)
  }

  ghost predicate PathsOk(s: Store) {
    forall id :: PathOk(s, id)
  }

  // ---------------------------------------------------------------------------------------------
  // What a caller can compare before a save.

  /** The leading changes of a copy that are recorded already. */
  function SavedUpTo(history: seq<HistoryRow>, changes: seq<Change>): (n: nat)
    ensures n <= |changes|
    ensures forall i | 0 <= i < n :: Recorded(history, changes[i].id)
    ensures n < |changes| ==> !Recorded(history, changes[n].id)
  {
    if changes == [] || !Recorded(history, changes[0].id) then 0 else 1 + SavedUpTo(history, changes[1..])
  }

  /** The status the copy had when it was last loaded or saved. */
  function Base(history: seq<HistoryRow>, c: Copy): Status {
    var n := SavedUpTo(history, c.history);
    if n < |c.history| then c.history[n].source else c.status
  }

  /** The stored status is still the one the copy set out from. */
  predicate UpToDate(s: Store, c: Copy) {
    c.id in s.rows ==> s.rows[c.id].status == Base(s.history, c)
  }

  // ---------------------------------------------------------------------------------------------
  // What every run keeps, up to date or not.

  /** A copy leads by allowed transitions from its base to its status; what is not recorded is a suffix. */
  ghost predicate CopyOk(s: Store, c: Copy) {
    var n := SavedUpTo(s.history, c.history);
    && DistinctIds(c.history)
    && (forall i | n <= i < |c.history| :: !Recorded(s.history, c.history[i].id))
    && IsPath(c.history[n..], Base(s.history, c), c.status)
    && (if c.id in s.rows then s.rows[c.id].tenantId == c.tenantId else n == 0 && Base(s.history, c) == Open)
  }

  ghost predicate CopiesOk(s: Store, copies: map<Handle, Copy>) {
    forall h | h in copies :: CopyOk(s, copies[h])
  }

  /** No two copies record a change under the same identifier, and an incident not stored has one copy. */
  ghost predicate CopiesApart(s: Store, copies: map<Handle, Copy>) {
    && (forall h, k, id | h in copies && k in copies && InCopy(copies[h], id) && InCopy(copies[k], id) :: h == k)
    && (forall h, k | h in copies && k in copies && copies[h].id == copies[k].id && copies[h].id !in s.rows :: h == k)
  }

  ghost predicate StoreOk(s: Store) {
    && (forall id | id !in s.rows :: HistoryOf(s.history, id) == [])
    && (forall i, j | 0 <= i < j < |s.history| :: s.history[i].change.id != s.history[j].change.id)
    && OneActiveRow(s)
  }

  ghost predicate OneActiveRow(s: Store) {
    forall id, other, tenantId, key |
      IsActiveRow(s, tenantId, key, id) && IsActiveRow(s, tenantId, key, other) :: id == other
  }

  ghost predicate Inv(s: Sys) {
    StoreOk(s.store) && CopiesOk(s.store, s.copies) && CopiesApart(s.store, s.copies)
  }

  // ---------------------------------------------------------------------------------------------
  // Saving appends exactly the changes not stored yet.

  function RowsFor(id: IncidentId, changes: seq<Change>): seq<HistoryRow> {
    seq(|changes|, i requires 0 <= i < |changes| => HistoryRow(id, changes[i]))
  }

  lemma {:induction false} SaveAppends(history: seq<HistoryRow>, id: IncidentId, pending: seq<Change>, n: nat)
    requires n <= |pending| && DistinctIds(pending)
    requires forall i | 0 <= i < n :: Recorded(history, pending[i].id)
    requires forall i | n <= i < |pending| :: !Recorded(history, pending[i].id)
    ensures WithChanges(history, id, pending) == history + RowsFor(id, pending[n..])
    decreases |pending|
  {
    hide Recorded;
    if n == |pending| {
      if pending != [] { SaveAppends(history, id, pending[..n - 1], n - 1); }
      assert pending[n..] == [] && history + RowsFor(id, []) == history;
    } else {
      var k := |pending| - 1;
      SaveAppends(history, id, pending[..k], n);
      assert pending[n..] == pending[..k][n..] + [pending[k]];
      LastNotRecorded(history, id, pending, n);
      RowsForMore(id, pending[..k][n..], pending[k]);
    }
  }

  lemma RowsForMore(id: IncidentId, changes: seq<Change>, change: Change)
    ensures RowsFor(id, changes + [change]) == RowsFor(id, changes) + [HistoryRow(id, change)]
  {}

  lemma LastNotRecorded(history: seq<HistoryRow>, id: IncidentId, pending: seq<Change>, n: nat)
    requires n < |pending| && DistinctIds(pending) && !Recorded(history, pending[|pending| - 1].id)
    ensures !Recorded(history + RowsFor(id, pending[..|pending| - 1][n..]), pending[|pending| - 1].id)
  {
    var k := |pending| - 1;
    var added := RowsFor(id, pending[..k][n..]);
    RecordedGrows(history, added, pending[k].id);
    assert forall j | 0 <= j < |added| :: added[j].change == pending[n + j];
  }

  lemma {:induction false} HistoryOfAppended(history: seq<HistoryRow>, id: IncidentId, changes: seq<Change>,
                                             other: IncidentId)
    ensures HistoryOf(history + RowsFor(id, changes), other) ==
            if other == id then HistoryOf(history, other) + changes else HistoryOf(history, other)
    decreases |changes|
  {
    if changes == [] {
      assert history + RowsFor(id, changes) == history;
    } else {
      var n := |changes| - 1;
      var all := history + RowsFor(id, changes);
      HistoryOfAppended(history, id, changes[..n], other);
      assert all[..|all| - 1] == history + RowsFor(id, changes[..n]);
      assert all[|all| - 1] == HistoryRow(id, changes[n]);
    }
  }

  lemma RecordedGrows(a: seq<HistoryRow>, b: seq<HistoryRow>, id: HistoryId)
    ensures Recorded(a + b, id) <==> Recorded(a, id) || Recorded(b, id)
  {
    if i :| 0 <= i < |a| && a[i].change.id == id { assert (a + b)[i].change.id == id; }
    if i :| 0 <= i < |b| && b[i].change.id == id { assert (a + b)[|a| + i].change.id == id; }
  }

  lemma RecordedInRows(id: IncidentId, changes: seq<Change>, i: nat)
    requires i < |changes|
    ensures Recorded(RowsFor(id, changes), changes[i].id)
  {
    assert RowsFor(id, changes)[i].change == changes[i];
  }

  /** The changes a save adds. */
  function Unsaved(history: seq<HistoryRow>, c: Copy): seq<Change> {
    c.history[SavedUpTo(history, c.history)..]
  }

  lemma SavedIs(s: Store, c: Copy)
    requires CopyOk(s, c) && !Refused(s, c)
    ensures Saved(s, c) == Store(s.rows[c.id := SavedRow(s, c)], s.history + RowsFor(c.id, Unsaved(s.history, c)))
  {
    hide IsPath, Recorded, SavedRow;
    SaveAppends(s.history, c.id, c.history, SavedUpTo(s.history, c.history));
  }

  // ---------------------------------------------------------------------------------------------
  // The exact condition for one save.

  /**
   * A save that goes through keeps the stored history of its incident a path if and only if the stored
   * status is still the one the copy set out from.
   */
  lemma SaveKeepsPathIff(s: Store, c: Copy)
    requires CopyOk(s, c) && PathOk(s, c.id) && !Refused(s, c) && c.id in s.rows
    ensures PathOk(Saved(s, c), c.id) <==> UpToDate(s, c)
  {
    hide HistoryOf, IsPath, Recorded, Refused, Saved, SavedUpTo, DistinctIds;
    var stored, added, base := HistoryOf(s.history, c.id), Unsaved(s.history, c), Base(s.history, c);
    SavedIs(s, c);
    HistoryOfAppended(s.history, c.id, added, c.id);
    PathRanks(stored, Open, s.rows[c.id].status);
    PathRanks(added, base, c.status);
    RankTells(s.rows[c.id].status, base);
    if UpToDate(s, c) { PathsJoin(stored, added, Open, base, c.status); }
    if IsPath(stored + added, Open, c.status) { PathRanks(stored + added, Open, c.status); }
  }

  /** The first save of an incident always stores a path. */
  lemma FirstSaveIsPath(s: Store, c: Copy)
    requires CopyOk(s, c) && StoreOk(s) && !Refused(s, c) && c.id !in s.rows
    ensures PathOk(Saved(s, c), c.id)
  {
    hide HistoryOf, IsPath, Recorded, Refused, Saved, SavedUpTo, DistinctIds, OneActiveRow;
    SavedIs(s, c);
    HistoryOfAppended(s.history, c.id, Unsaved(s.history, c), c.id);
    assert [] + Unsaved(s.history, c) == Unsaved(s.history, c);
  }

  lemma OthersKeepPath(s: Store, c: Copy, id: IncidentId)
    requires CopyOk(s, c) && id != c.id
    ensures PathOk(Saved(s, c), id) == PathOk(s, id)
  {
    hide HistoryOf, IsPath, Recorded, Refused, SavedUpTo, DistinctIds, Saved, CopyOk;
    if Refused(s, c) {
      RefusedChangesNothing(s, c);
    } else {
      SavedIs(s, c);
      HistoryOfAppended(s.history, c.id, Unsaved(s.history, c), id);
    }
  }

  lemma RefusedChangesNothing(s: Store, c: Copy)
    requires Refused(s, c)
    ensures Saved(s, c) == s
  {}

  /** Whether a save counts as checked: it is refused, or up to date. */
  ghost predicate SafeSave(s: Store, c: Copy) {
    Refused(s, c) || UpToDate(s, c)
  }

  lemma SaveKeepsPathsIff(s: Store, c: Copy)
    requires StoreOk(s) && CopyOk(s, c) && PathsOk(s)
    ensures PathsOk(Saved(s, c)) <==> SafeSave(s, c)
  {
    hide PathOk, CopyOk, Saved, Refused, StoreOk, Base;
    forall id | id != c.id ensures PathOk(Saved(s, c), id) {
      OthersKeepPath(s, c, id);
    }
    if Refused(s, c) {
      RefusedChangesNothing(s, c);
    } else if c.id in s.rows {
      SaveKeepsPathIff(s, c);
    } else {
      FirstSaveIsPath(s, c);
    }
  }

  // ---------------------------------------------------------------------------------------------
  // Each step keeps the invariant.

  /** A copy that was just loaded or created. */
  lemma NewCopyOk(s: Store, c: Copy)
    requires c.history == [] && (if c.id in s.rows then s.rows[c.id].tenantId == c.tenantId else c.status == Open)
    ensures CopyOk(s, c) && Base(s.history, c) == c.status
  {}

  lemma StartKeepsInv(u: UnicodeTable, s: Sys, step: Step)
    requires Inv(s) && Enabled(u, s, step) && (step.Create? || step.Load?)
    ensures Inv(Apply(u, s, step))
  {
    hide StoreOk, CopyOk;
    NewCopyOk(s.store, Apply(u, s, step).copies[step.h]);
  }

  lemma TransitionKeepsInv(u: UnicodeTable, s: Sys, step: Step)
    requires Inv(s) && Enabled(u, s, step) && step.Transition?
    ensures Inv(Apply(u, s, step))
  {
    hide StoreOk, CopyOk, CanTransition, InCopy, FreshHistoryId;
    var c, c' := s.copies[step.h], Transitioned(s.copies[step.h], step);
    TransitionKeepsCopy(u, s, step);
    forall id | InCopy(c', id) ensures InCopy(c, id) || id == step.history { OneMoreId(c, step, id); }
    forall h | h in s.copies ensures !InCopy(s.copies[h], step.history) { NotInCopies(s, step.history, h); }
  }

  lemma NotInCopies(s: Sys, id: HistoryId, h: Handle)
    requires FreshHistoryId(s, id) && h in s.copies
    ensures !InCopy(s.copies[h], id) && !Recorded(s.store.history, id)
  {}

  lemma OneMoreId(c: Copy, step: Step, id: HistoryId)
    requires step.Transition? && InCopy(Transitioned(c, step), id)
    ensures InCopy(c, id) || id == step.history
  {}

  /** One change more leaves recorded what was. */
  lemma {:induction false} SavedUpToGrows(history: seq<HistoryRow>, changes: seq<Change>, change: Change)
    requires !Recorded(history, change.id)
    ensures SavedUpTo(history, changes + [change]) == SavedUpTo(history, changes)
    decreases |changes|
  {
    hide Recorded;
    if changes == [] {
      assert ([] + [change])[0] == change;
    } else {
      assert (changes + [change])[0] == changes[0] && (changes + [change])[1..] == changes[1..] + [change];
      SavedUpToGrows(history, changes[1..], change);
    }
  }

  lemma PathGrows(path: seq<Change>, change: Change, from: Status)
    requires IsPath(path, from, change.source) && change.target in AllowedFrom(change.source)
    ensures IsPath(path + [change], from, change.target)
  {
    assert (path + [change])[..|path|] == path;
  }

  lemma IdsGrow(c: Copy, change: Change)
    requires DistinctIds(c.history) && !InCopy(c, change.id)
    ensures DistinctIds(c.history + [change])
  {
    assert forall i | 0 <= i < |c.history| :: c.history[i].id != change.id;
  }

  lemma BaseStays(history: seq<HistoryRow>, c: Copy, change: Change)
    requires change.source == c.status && !Recorded(history, change.id)
    ensures var c' := c.(status := change.target, history := c.history + [change]);
            && Base(history, c') == Base(history, c)
            && SavedUpTo(history, c'.history) == SavedUpTo(history, c.history)
            && Unsaved(history, c') == Unsaved(history, c) + [change]
  {
    hide Recorded, SavedUpTo;
    SavedUpToGrows(history, c.history, change);
  }

  lemma OneMoreChange(s: Store, c: Copy, change: Change)
    requires CopyOk(s, c) && change.source == c.status && change.target in AllowedFrom(c.status)
    requires !Recorded(s.history, change.id) && !InCopy(c, change.id)
    ensures CopyOk(s, c.(status := change.target, history := c.history + [change]))
  {
    hide Recorded, SavedUpTo, IsPath, DistinctIds, InCopy, Base, AllowedFrom;
    BaseStays(s.history, c, change);
    IdsGrow(c, change);
    PathGrows(Unsaved(s.history, c), change, Base(s.history, c));
  }

  lemma TransitionKeepsCopy(u: UnicodeTable, s: Sys, step: Step)
    requires Enabled(u, s, step) && step.Transition? && CopyOk(s.store, s.copies[step.h])
    ensures CopyOk(s.store, Transitioned(s.copies[step.h], step))
    ensures Base(s.store.history, Transitioned(s.copies[step.h], step)) == Base(s.store.history, s.copies[step.h])
  {
    hide IsBlank, Recorded, CopyOk, FreshHistoryId, InCopy, Base, AllowedFrom;
    var c := s.copies[step.h];
    var change := Change(step.history, c.status, step.to, step.actor, step.reason, step.at);
    NotInCopies(s, step.history, step.h);
    BaseStays(s.store.history, c, change);
    OneMoreChange(s.store, c, change);
  }

  lemma DropKeepsInv(u: UnicodeTable, s: Sys, step: Step)
    requires Inv(s) && Enabled(u, s, step) && step.Drop?
    ensures Inv(Apply(u, s, step))
  {
    hide StoreOk, CopyOk, InCopy;
  }

  lemma SaveKeepsInv(u: UnicodeTable, s: Sys, step: Step)
    requires Inv(s) && Enabled(u, s, step) && step.Save?
    ensures Inv(Apply(u, s, step))
  {
    hide StoreOk, CopyOk, Refused, Saved, CopiesApart;
    var c := s.copies[step.h];
    if Refused(s.store, c) {
      RefusedChangesNothing(s.store, c);
    } else {
      SaveKeepsStore(s.store, c);
      SaveKeepsApart(s.store, s.copies, step.h);
      forall h | h in s.copies ensures CopyOk(Saved(s.store, c), s.copies[h]) {
        if h == step.h { SaveKeepsCopy(s.store, c); } else { SaveKeepsOther(s.store, s.copies, step.h, h); }
      }
    }
  }

  lemma SaveKeepsStore(s: Store, c: Copy)
    requires StoreOk(s) && CopyOk(s, c) && !Refused(s, c)
    ensures StoreOk(Saved(s, c))
  {
    hide HistoryOf, IsPath, Recorded, Refused, SavedUpTo, DistinctIds, OneActiveRow, Saved;
    SavedIs(s, c);
    var s' := Saved(s, c);
    forall id | id !in s'.rows ensures HistoryOf(s'.history, id) == [] {
      HistoryOfAppended(s.history, c.id, Unsaved(s.history, c), id);
    }
    SaveKeepsIds(s, c);
    SaveKeepsIndex(s, c);
  }

  lemma SaveKeepsIndex(s: Store, c: Copy)
    requires OneActiveRow(s) && !Refused(s, c)
    ensures OneActiveRow(Saved(s, c))
  {
    hide IsActive, WithChanges;
    var s' := Saved(s, c);
    forall id, other, tenantId, key | IsActiveRow(s', tenantId, key, id) && IsActiveRow(s', tenantId, key, other)
      ensures id == other
    {
      if id != c.id { assert IsActiveRow(s, tenantId, key, id); }
      if other != c.id { assert IsActiveRow(s, tenantId, key, other); }
      assert !IsRival(s, c, id) || !IsActive(c.status);
      assert !IsRival(s, c, other) || !IsActive(c.status);
    }
  }

  lemma SaveKeepsIds(s: Store, c: Copy)
    requires CopyOk(s, c)
    requires forall i, j | 0 <= i < j < |s.history| :: s.history[i].change.id != s.history[j].change.id
    ensures var h := s.history + RowsFor(c.id, Unsaved(s.history, c));
            forall i, j | 0 <= i < j < |h| :: h[i].change.id != h[j].change.id
  {
    hide HistoryOf, IsPath, SavedUpTo;
    var n, m := SavedUpTo(s.history, c.history), |s.history|;
    var h := s.history + RowsFor(c.id, c.history[n..]);
    forall i, j | 0 <= i < j < |h| ensures h[i].change.id != h[j].change.id {
      if m <= j {
        assert h[j].change == c.history[n + (j - m)];
        if m <= i {
          assert h[i].change == c.history[n + (i - m)];
        } else {
          assert !Recorded(s.history, h[j].change.id);
        }
      }
    }
  }

  lemma {:induction false} AllRecordedSaved(history: seq<HistoryRow>, changes: seq<Change>)
    requires forall i | 0 <= i < |changes| :: Recorded(history, changes[i].id)
    ensures SavedUpTo(history, changes) == |changes|
    decreases |changes|
  {
    hide Recorded;
    if changes != [] { AllRecordedSaved(history, changes[1..]); }
  }

  /** The copy just saved is up to date, with nothing left to save. */
  lemma SaveKeepsCopy(s: Store, c: Copy)
    requires CopyOk(s, c) && !Refused(s, c)
    ensures CopyOk(Saved(s, c), c) && UpToDate(Saved(s, c), c)
  {
    hide IsPath, Recorded, Refused, SavedUpTo, Saved, RowsFor;
    SavedIs(s, c);
    var s', n := Saved(s, c), SavedUpTo(s.history, c.history);
    forall i | 0 <= i < |c.history| ensures Recorded(s'.history, c.history[i].id) {
      RecordedGrows(s.history, RowsFor(c.id, c.history[n..]), c.history[i].id);
      if n <= i { RecordedInRows(c.id, c.history[n..], i - n); }
    }
    AllRecordedSaved(s'.history, c.history);
    assert c.history[|c.history|..] == [];
    NoChangePath(c.status);
  }

  lemma NoChangePath(s: Status)
    ensures IsPath([], s, s)
  {}

  lemma {:induction false} SavedUpToSame(a: seq<HistoryRow>, b: seq<HistoryRow>, changes: seq<Change>)
    requires forall i | 0 <= i < |changes| :: Recorded(a, changes[i].id) == Recorded(b, changes[i].id)
    ensures SavedUpTo(a, changes) == SavedUpTo(b, changes)
    decreases |changes|
  {
    hide Recorded;
    if changes != [] { SavedUpToSame(a, b, changes[1..]); }
  }

  lemma SaveKeepsOther(s: Store, copies: map<Handle, Copy>, h: Handle, k: Handle)
    requires CopiesApart(s, copies) && h in copies && k in copies && h != k && !Refused(s, copies[h])
    requires CopyOk(s, copies[h]) && CopyOk(s, copies[k])
    ensures CopyOk(Saved(s, copies[h]), copies[k])
    ensures Base(Saved(s, copies[h]).history, copies[k]) == Base(s.history, copies[k])
  {
    hide IsPath, Recorded, DistinctIds, Refused, SavedUpTo, Saved, RowsFor;
    var c, d := copies[h], copies[k];
    SavedIs(s, c);
    var s' := Saved(s, c);
    forall i | 0 <= i < |d.history|
      ensures Recorded(s'.history, d.history[i].id) == Recorded(s.history, d.history[i].id)
    {
      RecordedGrows(s.history, RowsFor(c.id, Unsaved(s.history, c)), d.history[i].id);
      OthersNotAdded(s, copies, h, k, i);
    }
    SavedUpToSame(s'.history, s.history, d.history);
  }

  lemma OthersNotAdded(s: Store, copies: map<Handle, Copy>, h: Handle, k: Handle, i: nat)
    requires CopiesApart(s, copies) && h in copies && k in copies && h != k && i < |copies[k].history|
    ensures !Recorded(RowsFor(copies[h].id, Unsaved(s.history, copies[h])), copies[k].history[i].id)
  {
    hide SavedUpTo;
    var c, id := copies[h], copies[k].history[i].id;
    var n := SavedUpTo(s.history, c.history);
    var added := RowsFor(c.id, c.history[n..]);
    if j :| 0 <= j < |added| && added[j].change.id == id {
      assert c.history[n + j].id == id;
      assert InCopy(copies[h], id) && InCopy(copies[k], id);
    }
  }

  lemma SaveKeepsApart(s: Store, copies: map<Handle, Copy>, h: Handle)
    requires CopiesApart(s, copies) && h in copies && CopyOk(s, copies[h]) && !Refused(s, copies[h])
    ensures CopiesApart(Saved(s, copies[h]), copies)
  {
    hide InCopy, CopyOk, Refused, WithChanges;
  }

  lemma StepKeepsInv(u: UnicodeTable, s: Sys, step: Step)
    requires Inv(s) && Enabled(u, s, step)
    ensures Inv(Apply(u, s, step))
  {
    hide Inv, Enabled, Apply;
    match step
    case Create(_, _, _, _) => StartKeepsInv(u, s, step);
    case Load(_, _) => StartKeepsInv(u, s, step);
    case Transition(_, _, _, _, _, _) => TransitionKeepsInv(u, s, step);
    case Save(_) => SaveKeepsInv(u, s, step);
    case Drop(_) => DropKeepsInv(u, s, step);
  }

  lemma StartOk()
    ensures Inv(START) && PathsOk(START.store)
  {}

  // ---------------------------------------------------------------------------------------------
  // Runs.

  /** Every save of the run is refused by the database or up to date. */
  ghost predicate Checked(u: UnicodeTable, s: Sys, steps: seq<Step>)
    requires ValidRun(u, s, steps)
    decreases |steps|
  {
    steps != [] ==>
      && (steps[0].Save? ==> SafeSave(s.store, s.copies[steps[0].h]))
      && Checked(u, Apply(u, s, steps[0]), steps[1..])
  }

  /** At every moment of the run every stored history is a path. */
  ghost predicate AlwaysPaths(u: UnicodeTable, s: Sys, steps: seq<Step>)
    requires ValidRun(u, s, steps)
    decreases |steps|
  {
    PathsOk(s.store) && (steps != [] ==> AlwaysPaths(u, Apply(u, s, steps[0]), steps[1..]))
  }

  /** One step keeps the histories paths exactly unless it is an unsafe save. */
  lemma StepKeepsPathsIff(u: UnicodeTable, s: Sys, step: Step)
    requires Inv(s) && PathsOk(s.store) && Enabled(u, s, step)
    ensures PathsOk(Apply(u, s, step).store) <==> (step.Save? ==> SafeSave(s.store, s.copies[step.h]))
  {
    hide StoreOk, CopyOk, PathsOk, SafeSave, CopiesApart, Saved;
    if step.Save? { SaveKeepsPathsIff(s.store, s.copies[step.h]); }
  }

  lemma {:induction false} PathsIffChecked(u: UnicodeTable, s: Sys, steps: seq<Step>)
    requires Inv(s) && PathsOk(s.store) && ValidRun(u, s, steps)
    ensures AlwaysPaths(u, s, steps) <==> Checked(u, s, steps)
    decreases |steps|
  {
    hide Inv, Enabled, Apply, PathsOk, SafeSave;
    if steps != [] {
      var s' := Apply(u, s, steps[0]);
      StepKeepsInv(u, s, steps[0]);
      StepKeepsPathsIff(u, s, steps[0]);
      if PathsOk(s'.store) {
        PathsIffChecked(u, s', steps[1..]);
      } else {
        NotAlways(u, s', steps[1..]);
      }
    }
  }

  lemma NotAlways(u: UnicodeTable, s: Sys, steps: seq<Step>)
    requires ValidRun(u, s, steps) && !PathsOk(s.store)
    ensures !AlwaysPaths(u, s, steps)
  {
    hide PathsOk;
  }

  /**
   * Over every run with any number of copies: the stored histories are paths at every moment if and only
   * if every save that goes through is up to date, which its caller could check before it.
   */
  lemma PathsExactlyWhenChecked(u: UnicodeTable, steps: seq<Step>)
    requires ValidRun(u, START, steps)
    ensures AlwaysPaths(u, START, steps) <==> Checked(u, START, steps)
  {
    StartOk();
    PathsIffChecked(u, START, steps);
  }

  lemma {:induction false} RunKeepsInv(u: UnicodeTable, s: Sys, steps: seq<Step>)
    requires Inv(s) && ValidRun(u, s, steps)
    ensures Inv(After(u, s, steps))
    decreases |steps|
  {
    hide Inv, Enabled, Apply;
    if steps != [] {
      StepKeepsInv(u, s, steps[0]);
      RunKeepsInv(u, Apply(u, s, steps[0]), steps[1..]);
    }
  }

  lemma {:induction false} EndsInPaths(u: UnicodeTable, s: Sys, steps: seq<Step>)
    requires ValidRun(u, s, steps) && AlwaysPaths(u, s, steps)
    ensures PathsOk(After(u, s, steps).store)
    decreases |steps|
  {
    hide PathsOk, Enabled, Apply;
    if steps != [] { EndsInPaths(u, Apply(u, s, steps[0]), steps[1..]); }
  }

  /**
   * After any run whose saves are up to date, with copies saved any number of times and reloaded without
   * their history, the stored history of every incident is a path from open to its stored status, one
   * change per rank, and no change is stored twice.
   */
  lemma StoredHistoryIsPath(u: UnicodeTable, steps: seq<Step>, id: IncidentId)
    requires ValidRun(u, START, steps) && Checked(u, START, steps) && id in After(u, START, steps).store.rows
    ensures var s := After(u, START, steps).store;
            var stored := HistoryOf(s.history, id);
            && IsPath(stored, Open, s.rows[id].status)
            && |stored| == Rank(s.rows[id].status)
            && (forall i | 0 <= i < |stored| :: Rank(stored[i].source) == i && Rank(stored[i].target) == i + 1)
            && (forall i, j | 0 <= i < j < |s.history| :: s.history[i].change.id != s.history[j].change.id)
  {
    hide IsPath, HistoryOf, CopyOk, CopiesApart, OneActiveRow, Checked, AlwaysPaths, START;
    StartOk();
    RunKeepsInv(u, START, steps);
    PathsExactlyWhenChecked(u, steps);
    EndsInPaths(u, START, steps);
    var s := After(u, START, steps).store;
    assert PathOk(s, id);
    PathRanks(HistoryOf(s.history, id), Open, s.rows[id].status);
  }
}
