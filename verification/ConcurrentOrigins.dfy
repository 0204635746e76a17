/** Where the incidents of an interleaved run come from: each has the severity of evidence of its own. */
module ConcurrentOrigins {
  import opened Prelude
  import opened CorrelationRules
  import opened CorrelationStore
  import opened IncidentStatus
  import opened ConcurrentCorrelation
  import opened ConcurrentCorrelationSafety

  /** A row not committed yet is open and has the severity of the event its transaction handles. */
  ghost predicate Opening(c: Config, s: Sys, i: nat, t: nat) {
    && i in s.incidents && t in s.txs && s.incidents[i].incident.status == Open
    && s.incidents[i].incident.severity == SeverityOf(c, s.txs[t].event)
  }

  /** A committed row has the severity of an event that is committed evidence of it. */
  ghost predicate Opened(c: Config, s: Sys, i: nat) {
    exists id :: OpenedFor(c, s, i, id)
  }

  ghost predicate OpenedFor(c: Config, s: Sys, i: nat, id: EventId) {
    && i in s.incidents && s.incidents[i].incident.severity == SeverityOf(c, id)
    && SeesLink(s, None, Link(i, id))
  }

  ghost predicate Origins(c: Config, s: Sys) {
    forall i | i in s.incidents ::
      match s.incidents[i].owner
      case Some(t) => Opening(c, s, i, t)
      case None => Opened(c, s, i)
  }

  lemma StepKeepsOpening(c: Config, s: Sys, step: Step, i: nat, t: nat)
    requires ValidConfig(c) && Enabled(s, step) && OneActive(s) && i in s.incidents && s.incidents[i].owner == Some(t)
    requires Opening(c, s, i, t)
    requires var s' := Apply(c, s, step); i in s'.incidents && s'.incidents[i].owner == Some(t)
    ensures Opening(c, Apply(c, s, step), i, t)
  {
    hide Plan, IsActive, NoneSeen, NoRival, OnlyActive, SeverityOf, Clash;
  }

  lemma StepKeepsOpened(c: Config, s: Sys, step: Step, i: nat)
    requires ValidConfig(c) && Enabled(s, step) && OneActive(s) && Opened(c, s, i)
    requires i in s.incidents && s.incidents[i].owner.None?
    ensures Opened(c, Apply(c, s, step), i)
  {
    hide Plan, IsActive, NoneSeen, NoRival, OnlyActive, SeverityOf, Clash;
    var id :| OpenedFor(c, s, i, id);
    assert OpenedFor(c, Apply(c, s, step), i, id);
  }

  /** A commit makes the event of the transaction committed evidence of the rows it opened. */
  lemma CommitOpens(c: Config, s: Sys, step: Step, i: nat)
    requires ValidConfig(c) && Inv(c, s) && Enabled(s, step) && step.Commit?
    requires i in s.incidents && s.incidents[i].owner == Some(step.t) && Opening(c, s, i, step.t)
    ensures Opened(c, Apply(c, s, step), i)
  {
    hide Plan, IsActive, SeverityOf, OneActive, OwnersOpen, HandlingKept, EvidenceExplained, LinkFits, ChoiceKept,
         ChosenKeys;
    assert TxInv(c, s, step.t, s.txs[step.t]);
    assert OpenedFor(c, Apply(c, s, step), i, s.txs[step.t].event);
  }

  lemma InsertOpens(c: Config, s: Sys, step: Step)
    requires ValidConfig(c) && Enabled(s, step) && step.InsertOk?
    ensures Opening(c, Apply(c, s, step), s.nextId, step.t)
  {
    hide Plan, IsActive, NoneSeen, NoRival, SeverityOf;
  }

  lemma OwnersAre(c: Config, s: Sys, step: Step, i: nat)
    requires ValidConfig(c) && Enabled(s, step) && i in Apply(c, s, step).incidents
    ensures var owner := Apply(c, s, step).incidents[i].owner;
            if step.InsertOk? && i == s.nextId then owner == Some(step.t)
            else i in s.incidents && (owner == s.incidents[i].owner ||
                 (step.Commit? && owner.None? && s.incidents[i].owner == Some(step.t)))
  {
    hide Plan, IsActive, NoneSeen, NoRival, OnlyActive, SeverityOf;
  }

  lemma StepKeepsOrigins(c: Config, s: Sys, step: Step)
    requires ValidConfig(c) && Inv(c, s) && Origins(c, s) && Enabled(s, step)
    ensures Origins(c, Apply(c, s, step))
  {
    hide Opening, Opened, Enabled, Apply, TxInv, HandlingKept, EvidenceExplained, OwnersOpen, OneActive;
    var s' := Apply(c, s, step);
    forall i | i in s'.incidents
      ensures match s'.incidents[i].owner
              case Some(t) => Opening(c, s', i, t)
              case None => Opened(c, s', i)
    {
      OwnersAre(c, s, step, i);
      if step.InsertOk? && i == s.nextId {
        InsertOpens(c, s, step);
      } else if s.incidents[i].owner.None? {
        StepKeepsOpened(c, s, step, i);
      } else if s'.incidents[i].owner.None? {
        CommitOpens(c, s, step, i);
      } else {
        StepKeepsOpening(c, s, step, i, s.incidents[i].owner.value);
      }
    }
  }

  lemma {:induction false} RunKeepsOrigins(c: Config, steps: seq<Step>)
    requires ValidConfig(c) && Run(c, steps).Some?
    ensures Origins(c, Run(c, steps).value)
  {
    hide Inv, Origins, Enabled, Apply;
    if steps == [] {
      StartHasOrigins(c);
    } else {
      var n := |steps| - 1;
      RunKeepsOrigins(c, steps[..n]);
      RunKeepsInv(c, steps[..n]);
      StepKeepsOrigins(c, Run(c, steps[..n]).value, steps[n]);
    }
  }

  lemma StartHasOrigins(c: Config)
    ensures Origins(c, START)
  {}

  /**
   * In every interleaving, with operators and aborts: an uncommitted incident is open with the severity of
   * the event being handled, and a committed one has the severity of an event that is committed evidence
   * of it.
   */
  lemma IncidentsHaveOrigins(c: Config, steps: seq<Step>, i: nat)
    requires ValidConfig(c) && Run(c, steps).Some? && i in Run(c, steps).value.incidents
    ensures var s := Run(c, steps).value;
            var row := s.incidents[i];
            if row.owner.Some?
            then row.owner.value in s.txs && row.incident.status == Open &&
                 row.incident.severity == SeverityOf(c, s.txs[row.owner.value].event)
            else exists id :: SeesLink(s, None, Link(i, id)) && row.incident.severity == SeverityOf(c, id)
  {
    hide SeverityOf, SeesLink, Run;
    RunKeepsOrigins(c, steps);
    var s := Run(c, steps).value;
    if s.incidents[i].owner.None? {
      assert Opened(c, s, i);
      var id :| OpenedFor(c, s, i, id);
    }
  }
}
