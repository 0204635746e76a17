/** The life-cycle states of an incident and the transitions allowed between them. */
module IncidentStatus {
  datatype Status = Open | Acknowledged | Investigating | Contained | Resolved | Closed

  predicate IsActive(s: Status) {
    s == Open || s == Acknowledged || s == Investigating || s == Contained
  }

  function AllowedFrom(s: Status): set<Status> {
    match s
    case Open => {Acknowledged}
    case Acknowledged => {Investigating}
    case Investigating => {Contained}
    case Contained => {Resolved}
    case Resolved => {Closed}
    case Closed => {}
  }

  /** How far along the life cycle a state is. */
  function Rank(s: Status): nat {
    match s
    case Open => 0
    case Acknowledged => 1
    case Investigating => 2
    case Contained => 3
    case Resolved => 4
    case Closed => 5
  }

  /** Active are exactly the states before resolution. */
  lemma ActiveBeforeResolved(s: Status)
    ensures IsActive(s) <==> Rank(s) < Rank(Resolved)
    ensures IsActive(s) <==> exists t :: t in AllowedFrom(s) && s != Resolved
  {
    if IsActive(s) {
      var t :| t in AllowedFrom(s);
    }
  }

  lemma AllowedIsNextRank(s: Status, t: Status)
    ensures t in AllowedFrom(s) <==> Rank(t) == Rank(s) + 1
  {}
}
