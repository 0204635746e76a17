/**
 * The life cycle of stored incidents: an in-memory incident that records its transitions, and the
 * repository that saves its status together with the records not yet stored.
 */
module IncidentLifecycle {
  import opened Prelude
  import opened PythonText
  import opened IncidentStatus

  type IncidentId = string
  type HistoryId = string

  datatype Change = Change(id: HistoryId, source: Status, target: Status, actor: string, reason: string, at: int)

  /** An incident in memory. A loaded one starts without history. */
  datatype Copy = Copy(id: IncidentId, tenantId: string, key: string, status: Status, history: seq<Change>)

  datatype Row = Row(tenantId: string, key: string, status: Status)

  datatype HistoryRow = HistoryRow(incident: IncidentId, change: Change)

  datatype Store = Store(rows: map<IncidentId, Row>, history: seq<HistoryRow>)

  predicate CanTransition(u: UnicodeTable, from: Status, to: Status, actor: string, reason: string) {
    !IsBlank(u, actor) && !IsBlank(u, reason) && to in AllowedFrom(from)
  }

  /** A transition needs an actor and a reason that say something, and goes one rank up. */
  lemma CanTransitionIff(u: UnicodeTable, from: Status, to: Status, actor: string, reason: string)
    ensures CanTransition(u, from, to, actor, reason) <==>
      && (exists i | 0 <= i < |actor| :: !IsSpace(u, actor[i]))
      && (exists i | 0 <= i < |reason| :: !IsSpace(u, reason[i]))
      && Rank(to) == Rank(from) + 1
  {
    AllowedIsNextRank(from, to);
  }

  class Incident {
    const id: IncidentId
    const tenantId: string
    const key: string
    var status: Status
    var auditHistory: seq<Change>

    function Value(): Copy
      reads this
    {
      Copy(id, tenantId, key, status, auditHistory)
    }

    constructor (id: IncidentId, tenantId: string, key: string, status: Status)
      ensures Value() == Copy(id, tenantId, key, status, [])
    {
      this.id, this.tenantId, this.key, this.status, auditHistory := id, tenantId, key, status, [];
    }

    /** An allowed transition changes the status and records it; any other changes nothing. */
    method TransitionTo(u: UnicodeTable, to: Status, actor: string, reason: string, at: int, id: HistoryId)
      returns (ok: bool)
      modifies this
      ensures ok == CanTransition(u, old(status), to, actor, reason)
      ensures status == if ok then to else old(status)
      ensures auditHistory ==
                if ok then old(auditHistory) + [Change(id, old(status), to, actor, reason, at)] else old(auditHistory)
    {
      if IsBlank(u, actor) || IsBlank(u, reason) { return false; }
      if to !in AllowedFrom(status) { return false; }
      auditHistory := auditHistory + [Change(id, status, to, actor, reason, at)];
      status := to;
      return true;
    }
  }

  // ---------------------------------------------------------------------------------------------
  // Saving.

  predicate Recorded(history: seq<HistoryRow>, id: HistoryId) {
    exists i | 0 <= i < |history| :: history[i].change.id == id
  }

  /** The history table after the pending changes not recorded yet are added. */
  function WithChanges(history: seq<HistoryRow>, incident: IncidentId, pending: seq<Change>): seq<HistoryRow> {
    if pending == [] then history
    else
      var n := |pending| - 1;
      var before := WithChanges(history, incident, pending[..n]);
      if Recorded(before, pending[n].id) then before else before + [HistoryRow(incident, pending[n])]
  }

  /** The row a copy updates: same identifier and same tenant. */
  predicate IsStored(s: Store, c: Copy) {
    c.id in s.rows && s.rows[c.id].tenantId == c.tenantId
  }

  /** The key the saved row has: an update leaves the stored one. */
  function SavedKey(s: Store, c: Copy): string {
    if IsStored(s, c) then s.rows[c.id].key else c.key
  }

  /** An active row of the tenant and key. */
  predicate IsActiveRow(s: Store, tenantId: string, key: string, id: IncidentId) {
    id in s.rows && s.rows[id].tenantId == tenantId && s.rows[id].key == key && IsActive(s.rows[id].status)
  }

  /** Another row of the saved row's key is active. */
  predicate IsRival(s: Store, c: Copy, id: IncidentId) {
    id != c.id && IsActiveRow(s, c.tenantId, SavedKey(s, c), id)
  }

  /** The save, insert or update, would break the primary key or the one-active-incident index. */
  ghost predicate Refused(s: Store, c: Copy) {
    (c.id in s.rows && !IsStored(s, c)) || (IsActive(c.status) && exists id :: IsRival(s, c, id))
  }

  function SavedRow(s: Store, c: Copy): Row {
    Row(c.tenantId, SavedKey(s, c), c.status)
  }

  ghost function Saved(s: Store, c: Copy): Store {
    if Refused(s, c) then s
    else Store(s.rows[c.id := SavedRow(s, c)], WithChanges(s.history, c.id, c.history))
  }

  lemma RefusedIff(s: Store, c: Copy)
    ensures Refused(s, c) <==>
      || (c.id in s.rows && !IsStored(s, c))
      || (IsActive(c.status) && exists id :: id != c.id && IsActiveRow(s, c.tenantId, SavedKey(s, c), id))
  {
    hide IsActiveRow, IsActive;
    forall id ensures IsRival(s, c, id) <==> id != c.id && IsActiveRow(s, c.tenantId, SavedKey(s, c), id) {}
    hide IsRival;
  }

  /** What a save hands back: the incident saved, another active incident of its key, or an error. */
  datatype SaveResult = SavedAs(id: IncidentId) | Adopted(id: IncidentId) | Raised

  class PostgresIncidentRepository {
    var rows: map<IncidentId, Row>
    var history: seq<HistoryRow>

    ghost function View(): Store
      reads this
    {
      Store(rows, history)
    }

    constructor ()
      ensures View() == Store(map[], [])
    {
      rows, history := map[], [];
    }

    method FindOpenByCorrelationKey(tenantId: string, key: string) returns (r: Option<IncidentId>)
      ensures r.Some? ==> IsActiveRow(View(), tenantId, key, r.value)
      ensures r.None? ==> forall id :: !IsActiveRow(View(), tenantId, key, id)
    {
      ghost var s := View();
      if id :| id in rows && rows[id].tenantId == tenantId && rows[id].key == key && IsActive(rows[id].status) {
        assert IsActiveRow(s, tenantId, key, id);
        return Some(id);
      }
      return None;
    }

    /** Whether the index refuses an active row of the tenant and key under the identifier. */
    method BreaksIndex(id: IncidentId, tenantId: string, key: string) returns (broken: bool)
      ensures broken <==> exists other :: other != id && IsActiveRow(View(), tenantId, key, other)
    {
      ghost var s := View();
      if other :| other in rows && other != id && rows[other].tenantId == tenantId && rows[other].key == key &&
                  IsActive(rows[other].status) {
        assert IsActiveRow(s, tenantId, key, other);
        return true;
      }
      return false;
    }

    /** An insert the index refuses falls back to the active incident of the key; an update raises. */
    method Save(incident: Incident) returns (result: SaveResult)
      modifies this
      ensures View() == Saved(old(View()), old(incident.Value()))
      ensures var s, c := old(View()), old(incident.Value());
              match result
              case SavedAs(id) => id == c.id && !Refused(s, c)
              case Adopted(id) => Refused(s, c) && !IsStored(s, c) && IsActiveRow(s, c.tenantId, c.key, id)
              case Raised => Refused(s, c) && (IsStored(s, c) || forall id :: !IsActiveRow(s, c.tenantId, c.key, id))
    {
      ghost var s := View();
      var c := incident.Value();
      var stored := incident.id in rows && rows[incident.id].tenantId == incident.tenantId;
      var key := if stored then rows[incident.id].key else incident.key;
      var broken := BreaksIndex(incident.id, incident.tenantId, key);
      assert View() == s && stored == IsStored(s, c) && key == SavedKey(s, c);
      RefusedIff(s, c);
      if stored {
        if IsActive(incident.status) && broken { return Raised; }
        rows := rows[incident.id := rows[incident.id].(status := incident.status)];
      } else {
        if incident.id in rows || (IsActive(incident.status) && broken) {
          var existing := FindOpenByCorrelationKey(incident.tenantId, incident.key);
          return if existing.Some? then Adopted(existing.value) else Raised;
        }
        rows := rows[incident.id := Row(incident.tenantId, incident.key, incident.status)];
      }
      assert !Refused(s, c) && rows == s.rows[c.id := SavedRow(s, c)];
      AppendChanges(c);
      return SavedAs(incident.id);
    }

    /** Adds the records not stored yet. */
    method AppendChanges(c: Copy)
      modifies this`history
      ensures history == WithChanges(old(history), c.id, c.history)
    {
      assert WithChanges(old(history), c.id, c.history[..0]) == old(history);
      for n := 0 to |c.history|
        invariant history == WithChanges(old(history), c.id, c.history[..n])
      {
        assert c.history[..n + 1][..n] == c.history[..n];
        if !Recorded(history, c.history[n].id) {
          history := history + [HistoryRow(c.id, c.history[n])];
        }
      }
      assert c.history[..|c.history|] == c.history;
    }

    /** Loading starts a new in-memory incident from the row alone. */
    method GetById(id: IncidentId, tenantId: string) returns (incident: Incident?)
      ensures incident == null <==> !(id in rows && rows[id].tenantId == tenantId)
      ensures incident != null ==>
                fresh(incident) && incident.Value() == Copy(id, tenantId, rows[id].key, rows[id].status, [])
    {
      if id in rows && rows[id].tenantId == tenantId {
        incident := new Incident(id, tenantId, rows[id].key, rows[id].status);
      } else {
        incident := null;
      }
    }
  }
}
