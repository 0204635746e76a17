/**
 * The two outbox repositories: one over a dictionary in insertion order, one over a table queried
 * in creation order. Both claim through the same row operations.
 */
module OutboxRepository {
  import opened Prelude
  import opened TimeBucket
  import opened OutboxRow

  // ---------------------------------------------------------------------------------------------
  // What a claim takes from rows in a given order.

  function EligibleRows(rows: seq<OutboxEvent>, now: int): (chosen: seq<OutboxEvent>)
    ensures forall r :: r in chosen <==> r in rows && Eligible(r, now)
  {
    if rows == [] then []
    else
      var n := |rows| - 1;
      EligibleRows(rows[..n], now) + if Eligible(rows[n], now) then [rows[n]] else []
  }

  function First<T>(s: seq<T>, limit: nat): seq<T> {
    if |s| <= limit then s else s[..limit]
  }

  /** The row at position `i` is among the first `limit` eligible ones. */
  predicate Taken(rows: seq<OutboxEvent>, now: int, limit: nat, i: nat)
    requires i < |rows|
  {
    Eligible(rows[i], now) && |EligibleRows(rows[..i], now)| < limit
  }

  ghost predicate ClaimedAsSpecified(rows: seq<OutboxEvent>, rows': seq<OutboxEvent>, claimed: seq<OutboxEvent>,
                                     now: int, limit: nat, lease: int)
  {
    var chosen := First(EligibleRows(rows, now), limit);
    && |rows'| == |rows|
    && (forall i | 0 <= i < |rows| ::
          rows'[i] == if Taken(rows, now, limit, i) then Claimed(rows[i], now, lease) else rows[i])
    && |claimed| == |chosen|
    && (forall i | 0 <= i < |claimed| :: claimed[i] == Claimed(chosen[i], now, lease))
  }

  /** The claim loop over rows in a given order: the rows afterwards and what it returns. */
  function ClaimFirst(rows: seq<OutboxEvent>, now: int, limit: nat, lease: int)
    : (r: (seq<OutboxEvent>, seq<OutboxEvent>))
  {
    if rows == [] then ([], [])
    else
      var n := |rows| - 1;
      var (after, claimed) := ClaimFirst(rows[..n], now, limit, lease);
      if |claimed| < limit && Eligible(rows[n], now) then
        var row := Claimed(rows[n], now, lease);
        (after + [row], claimed + [row])
      else (after + [rows[n]], claimed)
  }

  lemma {:induction false} EligibleRowsGrow(rows: seq<OutboxEvent>, now: int, n: nat)
    requires n <= |rows|
    ensures EligibleRows(rows[..n], now) <= EligibleRows(rows, now)
    decreases |rows|
  {
    if n < |rows| {
      EligibleRowsGrow(rows[..|rows| - 1], now, n);
      assert rows[..|rows| - 1][..n] == rows[..n];
    } else {
      assert rows[..n] == rows;
    }
  }

  /** The loop claims the first `limit` eligible rows and leaves every other row as it was. */
  lemma ClaimFirstAsSpecified(rows: seq<OutboxEvent>, now: int, limit: nat, lease: int)
    ensures var (after, claimed) := ClaimFirst(rows, now, limit, lease);
            ClaimedAsSpecified(rows, after, claimed, now, limit, lease)
  {
    hide Eligible, Claimed, ClaimFirst, EligibleRows, Taken, First;
    ClaimFirstResult(rows, now, limit, lease);
    ClaimFirstRows(rows, now, limit, lease);
  }

  lemma {:induction false} ClaimFirstResult(rows: seq<OutboxEvent>, now: int, limit: nat, lease: int)
    ensures var claimed, chosen := ClaimFirst(rows, now, limit, lease).1, First(EligibleRows(rows, now), limit);
            |claimed| == |chosen| &&
            forall i | 0 <= i < |claimed| :: claimed[i] == Claimed(chosen[i], now, lease)
  {
    hide Eligible, Claimed;
    if rows != [] {
      var n := |rows| - 1;
      ClaimFirstResult(rows[..n], now, limit, lease);
      var e := EligibleRows(rows[..n], now);
      FirstOfMore(e, rows[n], limit);
    }
  }

  lemma FirstOfMore<T>(s: seq<T>, x: T, limit: nat)
    ensures First(s + [x], limit) == if |s| < limit then First(s, limit) + [x] else First(s, limit)
    ensures |First(s, limit)| == if |s| < limit then |s| else limit
  {}

  lemma {:induction false} ClaimFirstRows(rows: seq<OutboxEvent>, now: int, limit: nat, lease: int)
    ensures var after := ClaimFirst(rows, now, limit, lease).0;
            |after| == |rows| &&
            forall i | 0 <= i < |rows| ::
              after[i] == if Taken(rows, now, limit, i) then Claimed(rows[i], now, lease) else rows[i]
  {
    hide Eligible, Claimed, EligibleRows, First;
    if rows != [] {
      var n := |rows| - 1;
      ClaimFirstRows(rows[..n], now, limit, lease);
      ClaimedCount(rows[..n], now, limit, lease);
      forall i | 0 <= i < n ensures Taken(rows, now, limit, i) == Taken(rows[..n], now, limit, i) {
        assert rows[..n][..i] == rows[..i];
      }
    }
  }

  lemma ClaimedCount(rows: seq<OutboxEvent>, now: int, limit: nat, lease: int)
    ensures |ClaimFirst(rows, now, limit, lease).1| < limit <==> |EligibleRows(rows, now)| < limit
  {
    hide Eligible, Claimed, EligibleRows, ClaimFirst;
    ClaimFirstResult(rows, now, limit, lease);
  }

  /** Once the limit is reached the rest of the rows does not matter. */
  lemma {:induction false} FullClaimStops(rows: seq<OutboxEvent>, now: int, limit: nat, lease: int, n: nat)
    requires n <= |rows| && |ClaimFirst(rows[..n], now, limit, lease).1| >= limit
    ensures ClaimFirst(rows, now, limit, lease).0 == ClaimFirst(rows[..n], now, limit, lease).0 + rows[n..]
    ensures ClaimFirst(rows, now, limit, lease).1 == ClaimFirst(rows[..n], now, limit, lease).1
    decreases |rows|
  {
    hide Eligible, Claimed;
    if n == |rows| {
      assert rows[..n] == rows && rows[n..] == [];
    } else {
      var k := |rows| - 1;
      assert rows[..k][..n] == rows[..n];
      FullClaimStops(rows[..k], now, limit, lease, n);
      assert rows[n..] == rows[..k][n..] + [rows[k]];
    }
  }

  function RowsOf(order: seq<RowId>, events: map<RowId, OutboxEvent>): (rows: seq<OutboxEvent>)
    requires forall id | id in order :: id in events
    ensures |rows| == |order| && forall i | 0 <= i < |order| :: rows[i] == events[order[i]]
  {
    seq(|order|, i requires 0 <= i < |order| => events[order[i]])
  }

  /** Every row is stored under its own identifier, and the order lists each of them once. */
  ghost predicate Indexed(order: seq<RowId>, events: map<RowId, OutboxEvent>) {
    && Distinct(order)
    && (forall id :: id in order <==> id in events)
    && (forall id | id in events :: events[id].id == id)
  }

  /** The claim loop after `n` rows. */
  ghost predicate Claiming(rows: seq<OutboxEvent>, current: seq<OutboxEvent>, claimed: seq<OutboxEvent>,
                           now: int, limit: nat, lease: int, n: nat)
  {
    && n <= |rows|
    && current == ClaimFirst(rows[..n], now, limit, lease).0 + rows[n..]
    && claimed == ClaimFirst(rows[..n], now, limit, lease).1
  }

  lemma ClaimStep(rows: seq<OutboxEvent>, current: seq<OutboxEvent>, claimed: seq<OutboxEvent>,
                  now: int, limit: nat, lease: int, n: nat)
    requires Claiming(rows, current, claimed, now, limit, lease, n) && n < |rows| && |claimed| < limit
    ensures |current| == |rows|
    ensures if Eligible(rows[n], now)
            then var row := Claimed(rows[n], now, lease);
                 Claiming(rows, current[n := row], claimed + [row], now, limit, lease, n + 1)
            else Claiming(rows, current, claimed, now, limit, lease, n + 1)
  {
    hide Eligible, Claimed;
    ClaimFirstLength(rows[..n], now, limit, lease);
    assert rows[..n + 1][..n] == rows[..n];
    assert rows[n..] == [rows[n]] + rows[n + 1..];
  }

  lemma ClaimingDone(rows: seq<OutboxEvent>, current: seq<OutboxEvent>, claimed: seq<OutboxEvent>,
                     now: int, limit: nat, lease: int, n: nat)
    requires Claiming(rows, current, claimed, now, limit, lease, n)
    requires n == |rows| || |claimed| >= limit
    ensures ClaimedAsSpecified(rows, current, claimed, now, limit, lease)
  {
    hide ClaimedAsSpecified, ClaimFirst;
    ClaimFirstAsSpecified(rows, now, limit, lease);
    if n == |rows| {
      assert rows[..n] == rows && rows[n..] == [];
      assert current == ClaimFirst(rows, now, limit, lease).0;
    } else {
      FullClaimStops(rows, now, limit, lease, n);
    }
  }

  lemma ClaimFirstOfNone(rows: seq<OutboxEvent>, now: int, limit: nat, lease: int)
    ensures Claiming(rows, rows, [], now, limit, lease, 0)
  {}

  lemma {:induction false} ClaimFirstLength(rows: seq<OutboxEvent>, now: int, limit: nat, lease: int)
    ensures |ClaimFirst(rows, now, limit, lease).0| == |rows|
  {
    hide Eligible, Claimed;
    if rows != [] { ClaimFirstLength(rows[..|rows| - 1], now, limit, lease); }
  }

  lemma ClaimedKeepsId(r: OutboxEvent, now: int, lease: int)
    ensures Claimed(r, now, lease).id == r.id
  {}

  lemma RowsOfUpdate(order: seq<RowId>, events: map<RowId, OutboxEvent>, n: nat, row: OutboxEvent)
    requires Indexed(order, events) && n < |order| && row.id == order[n]
    ensures Indexed(order, events[order[n] := row])
    ensures RowsOf(order, events[order[n] := row]) == RowsOf(order, events)[n := row]
  {}

  /** The claim loop of the in-memory repository after `n` entries of the snapshot. */
  ghost predicate ClaimingIn(order: seq<RowId>, events: map<RowId, OutboxEvent>, snapshot: map<RowId, OutboxEvent>,
                             claimed: seq<OutboxEvent>, now: int, limit: nat, lease: int, n: nat)
  {
    && Indexed(order, events) && Indexed(order, snapshot)
    && Claiming(RowsOf(order, snapshot), RowsOf(order, events), claimed, now, limit, lease, n)
  }

  lemma NothingClaimed(order: seq<RowId>, snapshot: map<RowId, OutboxEvent>, now: int, limit: nat, lease: int)
    requires Indexed(order, snapshot)
    ensures ClaimingIn(order, snapshot, snapshot, [], now, limit, lease, 0)
  {
    hide Claiming, RowsOf;
    ClaimFirstOfNone(RowsOf(order, snapshot), now, limit, lease);
  }

  lemma NextInOrder(order: seq<RowId>, events: map<RowId, OutboxEvent>, snapshot: map<RowId, OutboxEvent>,
                    claimed: seq<OutboxEvent>, now: int, limit: nat, lease: int, n: nat)
    requires ClaimingIn(order, events, snapshot, claimed, now, limit, lease, n)
    requires n < |order| && |claimed| < limit
    ensures order[n] in snapshot
    ensures var evt := snapshot[order[n]];
            var updated := Claimed(evt, now, lease);
            if Eligible(evt, now)
            then ClaimingIn(order, events[order[n] := updated], snapshot, claimed + [updated], now, limit, lease, n + 1)
            else ClaimingIn(order, events, snapshot, claimed, now, limit, lease, n + 1)
  {
    hide Claiming, Eligible, Claimed, Distinct;
    var rows, updated := RowsOf(order, snapshot), Claimed(snapshot[order[n]], now, lease);
    assert rows[n] == snapshot[order[n]];
    ClaimStep(rows, RowsOf(order, events), claimed, now, limit, lease, n);
    ClaimedKeepsId(rows[n], now, lease);
    hide RowsOf, Indexed;
    RowsOfUpdate(order, events, n, updated);
  }

  lemma AllClaimed(order: seq<RowId>, events: map<RowId, OutboxEvent>, snapshot: map<RowId, OutboxEvent>,
                   claimed: seq<OutboxEvent>, now: int, limit: nat, lease: int, n: nat)
    requires ClaimingIn(order, events, snapshot, claimed, now, limit, lease, n)
    requires n == |order| || |claimed| >= limit
    ensures Indexed(order, events) && events.Keys == snapshot.Keys
    ensures Indexed(order, snapshot)
    ensures ClaimedAsSpecified(RowsOf(order, snapshot), RowsOf(order, events), claimed, now, limit, lease)
  {
    hide Claiming, RowsOf, ClaimedAsSpecified, Distinct;
    ClaimingDone(RowsOf(order, snapshot), RowsOf(order, events), claimed, now, limit, lease, n);
  }

  /** The in-memory repository: a dictionary, whose iteration order is insertion order. */
  class InMemoryOutboxRepository {
    var order: seq<RowId>
    var events: map<RowId, OutboxEvent>

    ghost predicate Valid()
      reads this
    {
      Indexed(order, events)
    }

    ghost function Rows(): seq<OutboxEvent>
      requires Valid()
      reads this
    {
      RowsOf(order, events)
    }

    constructor ()
      ensures Valid() && Rows() == []
    {
      order, events := [], map[];
    }

    /** A new row goes to the end; an identifier already there keeps its place. */
    method Save(e: OutboxEvent)
      requires Valid()
      modifies this
      ensures Valid()
      ensures e.id !in old(events) ==> Rows() == old(Rows()) + [e]
      ensures e.id in old(events) ==> order == old(order)
      ensures events == old(events)[e.id := e]
    {
      if e.id !in events { order := order + [e.id]; }
      events := events[e.id := e];
    }

    method FetchPendingAndClaim(now: int, limit: nat, lease: int) returns (claimed: seq<OutboxEvent>)
      requires Valid()
      modifies this`events
      ensures Valid() && events.Keys == old(events).Keys
      ensures ClaimedAsSpecified(old(Rows()), Rows(), claimed, now, limit, lease)
    {
      hide Eligible, Claimed, ClaimedAsSpecified, RowsOf, Indexed, ClaimingIn;
      claimed := [];
      var snapshot := events;
      NothingClaimed(order, snapshot, now, limit, lease);
      for n := 0 to |order|
        invariant ClaimingIn(order, events, snapshot, claimed, now, limit, lease, n)
      {
        if |claimed| >= limit {
          AllClaimed(order, events, snapshot, claimed, now, limit, lease, n);
          return;
        }
        NextInOrder(order, events, snapshot, claimed, now, limit, lease, n);
        var evt := snapshot[order[n]];
        if Eligible(evt, now) {
          var updated := Claimed(evt, now, lease);
          events := events[order[n] := updated];
          claimed := claimed + [updated];
        }
      }
      AllClaimed(order, events, snapshot, claimed, now, limit, lease, |order|);
    }

    method MarkPublished(id: RowId, now: int)
      requires Valid()
      modifies this`events
      ensures Valid()
      ensures events ==
        if id in old(events) then old(events)[id := MarkedPublished(old(events)[id], now)] else old(events)
    {
      if id in events {
        events := events[id := MarkedPublished(events[id], now)];
      }
    }

    method MarkFailed(id: RowId, now: int, message: string, p: RetryPolicy)
      requires Valid()
      modifies this`events
      ensures Valid()
      ensures events ==
        if id in old(events) then old(events)[id := MarkedFailed(old(events)[id], now, message, p)] else old(events)
    {
      if id in events {
        events := events[id := MarkedFailed(events[id], now, message, p)];
      }
    }
  }

  // ---------------------------------------------------------------------------------------------
  // The table in the database.

  /** What a claim query may return: the oldest eligible rows that nobody else holds a lock on. */
  ghost predicate QueryResult(rows: map<RowId, OutboxEvent>, locked: set<RowId>, now: int, limit: nat,
                              picked: seq<RowId>)
  {
    && Distinct(picked) && |picked| <= limit
    && (forall id | id in picked :: id in rows && id !in locked && Eligible(rows[id], now))
    && (forall i, j :: 0 <= i < j < |picked| ==> rows[picked[i]].createdAt <= rows[picked[j]].createdAt)
    && (forall id | id in rows && id !in locked && id !in picked && Eligible(rows[id], now) ::
          |picked| == limit && forall p | p in picked :: rows[p].createdAt <= rows[id].createdAt)
  }

  /** The table after a claim of the picked rows. */
  function ClaimedTable(rows: map<RowId, OutboxEvent>, picked: seq<RowId>, now: int, lease: int)
    : (after: map<RowId, OutboxEvent>)
    ensures after.Keys == rows.Keys
  {
    map id | id in rows :: if id in picked then Claimed(rows[id], now, lease) else rows[id]
  }

  lemma ClaimedTableGrows(rows: map<RowId, OutboxEvent>, picked: seq<RowId>, n: nat, now: int, lease: int)
    requires n < |picked| && picked[n] in rows && picked[n] !in picked[..n]
    ensures ClaimedTable(rows, picked[..n], now, lease)[picked[n]] == rows[picked[n]]
    ensures ClaimedTable(rows, picked[..n + 1], now, lease) ==
            ClaimedTable(rows, picked[..n], now, lease)[picked[n] := Claimed(rows[picked[n]], now, lease)]
  {}

  lemma PickedFacts(rows: map<RowId, OutboxEvent>, locked: set<RowId>, now: int, limit: nat, picked: seq<RowId>)
    requires QueryResult(rows, locked, now, limit, picked)
    ensures forall n | 0 <= n < |picked| ::
              picked[n] in rows && picked[n] !in picked[..n] && Eligible(rows[picked[n]], now)
  {}

  /** Among eligible rows, being in processing already means that the lease ran out. */
  lemma ClaimedInPlace(r: OutboxEvent, now: int, lease: int)
    requires Eligible(r, now)
    ensures Claimed(r, now, lease) ==
      r.(retryCount := if r.status == Processing then r.retryCount + 1 else r.retryCount,
         status := Processing, claimedAt := Some(now), claimExpiresAt := Some(now + lease * SECOND))
  {}

  /** A table row as the application sees it: the lease is not copied. */
  function Entity(r: OutboxEvent): OutboxEvent {
    r.(claimedAt := None, claimExpiresAt := None)
  }

  /** What is handed back has no lease and is otherwise the row. */
  lemma EntityHasNoLease(r: OutboxEvent)
    ensures var e := Entity(r);
            && e.claimedAt.None? && e.claimExpiresAt.None? && e.status == r.status && e.retryCount == r.retryCount
            && e == r.(claimedAt := e.claimedAt, claimExpiresAt := e.claimExpiresAt)
  {}

  class PostgresOutboxRepository {
    var rows: map<RowId, OutboxEvent>

    constructor (rows: map<RowId, OutboxEvent>)
      ensures this.rows == rows
    {
      this.rows := rows;
    }

    /** The result of the query comes in from the database; the claim updates those rows in place. */
    method FetchPendingAndClaim(now: int, limit: nat, lease: int, locked: set<RowId>, picked: seq<RowId>)
      returns (claimed: seq<OutboxEvent>)
      requires QueryResult(rows, locked, now, limit, picked)
      modifies this
      ensures rows == ClaimedTable(old(rows), picked, now, lease)
      ensures |claimed| == |picked|
      ensures forall i | 0 <= i < |picked| :: claimed[i] == Entity(rows[picked[i]])
    {
      PickedFacts(rows, locked, now, limit, picked);
      hide QueryResult, Distinct, Eligible, Claimed, ClaimedTable;
      claimed := [];
      for n := 0 to |picked|
        invariant rows == ClaimedTable(old(rows), picked[..n], now, lease)
        invariant |claimed| == n && forall i | 0 <= i < n :: claimed[i] == Entity(rows[picked[i]])
      {
        var model := rows[picked[n]];
        ClaimedInPlace(model, now, lease);
        ClaimedTableGrows(old(rows), picked, n, now, lease);
        model := model.(retryCount := if model.status == Processing then model.retryCount + 1 else model.retryCount,
                        status := Processing, claimedAt := Some(now), claimExpiresAt := Some(now + lease * SECOND));
        rows := rows[picked[n] := model];
        claimed := claimed + [Entity(model)];
      }
      assert picked[..|picked|] == picked;
    }

    method MarkPublished(id: RowId, now: int)
      modifies this
      ensures rows ==
        if id in old(rows) then old(rows)[id := MarkedPublished(old(rows)[id], now)] else old(rows)
    {
      if id in rows {
        var model := rows[id];
        model := model.(status := Published);
        model := model.(publishedAt := Some(now));
        model := model.(claimExpiresAt := None);
        rows := rows[id := model];
      }
    }

    method MarkFailed(id: RowId, now: int, message: string, p: RetryPolicy)
      modifies this
      ensures rows ==
        if id in old(rows) then old(rows)[id := MarkedFailed(old(rows)[id], now, message, p)] else old(rows)
    {
      if id in rows {
        var model := rows[id];
        model := model.(retryCount := model.retryCount + 1);
        model := model.(lastError := Some(Truncated(message)), claimExpiresAt := None);
        if model.retryCount >= p.maxRetries {
          model := model.(status := Failed, nextRetryAt := None);
        } else {
          model := model.(status := Failed, nextRetryAt := Some(now + Delay(p, model.retryCount)));
        }
        rows := rows[id := model];
      }
    }
  }

  // ---------------------------------------------------------------------------------------------
  // The two claims agree when insertion order is creation order.

  ghost predicate InCreationOrder(rows: seq<OutboxEvent>) {
    forall i, j :: 0 <= i < j < |rows| ==> rows[i].createdAt < rows[j].createdAt
  }

  ghost predicate SameRows(rows: seq<OutboxEvent>, table: map<RowId, OutboxEvent>) {
    && (forall i | 0 <= i < |rows| :: rows[i].id in table && table[rows[i].id] == rows[i])
    && (forall id | id in table :: table[id].id == id && table[id] in rows)
  }

  lemma {:induction false} EligibleInCreationOrder(rows: seq<OutboxEvent>, now: int)
    requires InCreationOrder(rows)
    ensures InCreationOrder(EligibleRows(rows, now))
  {
    if rows != [] {
      var n := |rows| - 1;
      EligibleInCreationOrder(rows[..n], now);
      var before := EligibleRows(rows[..n], now);
      assert EligibleRows(rows, now) == before + if Eligible(rows[n], now) then [rows[n]] else [];
      forall i | 0 <= i < |before| ensures before[i].createdAt < rows[n].createdAt {
        assert before[i] in rows[..n];
      }
    }
  }

  /** The query then returns exactly the first `limit` eligible rows in insertion order. */
  lemma QueryPicksFirst(rows: seq<OutboxEvent>, table: map<RowId, OutboxEvent>, now: int, limit: nat,
                        picked: seq<RowId>)
    requires InCreationOrder(rows) && SameRows(rows, table) && QueryResult(table, {}, now, limit, picked)
    ensures var chosen := First(EligibleRows(rows, now), limit);
            |picked| == |chosen| && forall i | 0 <= i < |picked| :: table[picked[i]] == chosen[i]
  {
    var e := EligibleRows(rows, now);
    EligibleInCreationOrder(rows, now);
    forall n: nat | n <= |picked| ensures PickedSoFar(e, table, picked, n) {
      PickedInOrder(rows, e, table, now, limit, picked, n);
    }
    assert PickedSoFar(e, table, picked, |picked|);
    if |picked| < |e| {
      var r := e[|picked|];
      assert r in rows && r.id !in picked;
    }
  }

  ghost predicate PickedSoFar(e: seq<OutboxEvent>, table: map<RowId, OutboxEvent>, picked: seq<RowId>, n: nat) {
    && n <= |picked| && n <= |e|
    && forall i | 0 <= i < n :: picked[i] in table && table[picked[i]] == e[i]
  }

  lemma {:induction false} PickedInOrder(rows: seq<OutboxEvent>, e: seq<OutboxEvent>, table: map<RowId, OutboxEvent>,
                                         now: int, limit: nat, picked: seq<RowId>, n: nat)
    requires SameRows(rows, table) && QueryResult(table, {}, now, limit, picked) && n <= |picked|
    requires e == EligibleRows(rows, now) && InCreationOrder(e)
    ensures PickedSoFar(e, table, picked, n)
    decreases n
  {
    hide Eligible, EligibleRows, QueryResult, InCreationOrder;
    if n > 0 {
      var k := n - 1;
      PickedInOrder(rows, e, table, now, limit, picked, k);
      var j := PickedIsEligible(rows, table, now, limit, picked, k);
      PickedNotBefore(e, table, now, limit, picked, k, j);
      PickedNotAfter(e, table, now, limit, picked, k, j);
    }
  }

  lemma PickedIsEligible(rows: seq<OutboxEvent>, table: map<RowId, OutboxEvent>, now: int, limit: nat,
                         picked: seq<RowId>, k: nat)
    returns (j: nat)
    requires SameRows(rows, table) && QueryResult(table, {}, now, limit, picked) && k < |picked|
    ensures picked[k] in table && table[picked[k]].id == picked[k]
    ensures j < |EligibleRows(rows, now)| && EligibleRows(rows, now)[j] == table[picked[k]]
    ensures forall r | r in EligibleRows(rows, now) :: r.id in table && table[r.id] == r && Eligible(r, now)
  {
    hide Eligible;
    var id := picked[k];
    assert id in picked;
    assert table[id] in EligibleRows(rows, now);
    j :| 0 <= j < |EligibleRows(rows, now)| && EligibleRows(rows, now)[j] == table[id];
  }

  lemma PickedNotBefore(e: seq<OutboxEvent>, table: map<RowId, OutboxEvent>, now: int, limit: nat, picked: seq<RowId>,
                        k: nat, j: nat)
    requires QueryResult(table, {}, now, limit, picked) && k < |picked| && PickedSoFar(e, table, picked, k)
    requires picked[k] in table && j < |e| && e[j] == table[picked[k]]
    requires forall id | id in table :: table[id].id == id
    ensures j >= k
  {}

  lemma PickedNotAfter(e: seq<OutboxEvent>, table: map<RowId, OutboxEvent>, now: int, limit: nat, picked: seq<RowId>,
                       k: nat, j: nat)
    requires QueryResult(table, {}, now, limit, picked) && k < |picked| && PickedSoFar(e, table, picked, k)
    requires InCreationOrder(e) && picked[k] in table && k <= j < |e| && e[j] == table[picked[k]]
    requires forall r | r in e :: r.id in table && table[r.id] == r && Eligible(r, now)
    ensures j == k
  {
    hide Eligible, QueryResult;
    if j > k {
      assert e[k] in e && e[k].createdAt < e[j].createdAt;
      var i := OlderPickedBefore(table, now, limit, picked, k, e[k].id);
      assert false;
    }
  }

  /** An eligible row older than a picked one was picked before it. */
  lemma OlderPickedBefore(table: map<RowId, OutboxEvent>, now: int, limit: nat, picked: seq<RowId>, k: nat, id: RowId)
    returns (i: nat)
    requires QueryResult(table, {}, now, limit, picked) && k < |picked| && id in table && Eligible(table[id], now)
    requires table[id].createdAt < table[picked[k]].createdAt
    ensures i < k && picked[i] == id
  {
    hide Eligible;
    assert picked[k] in picked;
    i :| 0 <= i < |picked| && picked[i] == id;
  }

  /** Both claims leave the same rows and return the same rows, up to the lease a table row keeps to itself. */
  lemma ClaimsAgree(rows: seq<OutboxEvent>, table: map<RowId, OutboxEvent>, now: int, limit: nat, lease: int,
                    picked: seq<RowId>, rows': seq<OutboxEvent>, claimed: seq<OutboxEvent>)
    requires InCreationOrder(rows) && SameRows(rows, table) && QueryResult(table, {}, now, limit, picked)
    requires ClaimedAsSpecified(rows, rows', claimed, now, limit, lease)
    ensures var table' := ClaimedTable(table, picked, now, lease);
            && (forall i | 0 <= i < |rows'| :: rows'[i].id in table' && table'[rows'[i].id] == rows'[i])
            && |claimed| == |picked|
            && (forall i | 0 <= i < |claimed| :: Entity(claimed[i]) == Entity(table'[picked[i]]))
  {
    hide Eligible;
    QueryPicksFirst(rows, table, now, limit, picked);
    forall i | 0 <= i < |rows| ensures Taken(rows, now, limit, i) <==> rows[i].id in picked {
      TakenIffChosen(rows, now, limit, i);
      TakenIsPicked(rows, table, now, limit, picked, i);
    }
  }

  lemma TakenIsPicked(rows: seq<OutboxEvent>, table: map<RowId, OutboxEvent>, now: int, limit: nat,
                      picked: seq<RowId>, i: nat)
    requires SameRows(rows, table) && i < |rows|
    requires forall id | id in picked :: id in table
    requires var chosen := First(EligibleRows(rows, now), limit);
             |picked| == |chosen| && forall i | 0 <= i < |picked| :: table[picked[i]] == chosen[i]
    ensures rows[i] in First(EligibleRows(rows, now), limit) <==> rows[i].id in picked
  {}

  /** A row is taken exactly when it is one of the first `limit` eligible rows. */
  lemma {:induction false} TakenIffChosen(rows: seq<OutboxEvent>, now: int, limit: nat, i: nat)
    requires InCreationOrder(rows) && i < |rows|
    ensures Taken(rows, now, limit, i) <==> rows[i] in First(EligibleRows(rows, now), limit)
  {
    hide Eligible;
    EligibleInCreationOrder(rows, now);
    EligibleRowsGrow(rows, now, i);
    var e, k := EligibleRows(rows, now), |EligibleRows(rows[..i], now)|;
    if Eligible(rows[i], now) {
      assert rows[..i + 1][..i] == rows[..i];
      EligibleRowsGrow(rows, now, i + 1);
      assert e[k] == rows[i];
    }
  }
}
