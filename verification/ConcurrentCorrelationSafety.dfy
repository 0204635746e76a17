/** What every interleaving of correlators and operators keeps, and where every run ends. */
module ConcurrentCorrelationSafety {
  import opened Prelude
  import opened CorrelationRules
  import opened CorrelationStore
  import opened IncidentStatus
  import opened CorrelationGrouping
  import opened ConcurrentCorrelation

  ghost predicate Clash(a: Incident, b: Incident) {
    SameKey(a, b) && IsActive(a.status) && IsActive(b.status)
  }

  /** No two active incidents share tenant and key, committed or not. */
  ghost predicate OneActive(s: Sys) {
    && (forall i | i in s.incidents :: i < s.nextId)
    && (forall i, j | i in s.incidents && j in s.incidents && i != j ::
          !Clash(s.incidents[i].incident, s.incidents[j].incident))
  }

  /** Uncommitted rows belong to open transactions. */
  ghost predicate OwnersOpen(s: Sys) {
    && (forall i | i in s.incidents :: s.incidents[i].owner.Some? ==> s.incidents[i].owner.value in s.txs)
    && (forall l | l in s.evidence :: s.evidence[l].Some? ==> s.evidence[l].value in s.txs)
  }

  /** The reader sees row `i`, and it belongs to the tenant and key. */
  ghost predicate SeesRow(s: Sys, reader: Option<nat>, i: nat, tenant: string, key: string) {
    && i in s.incidents && Seen(s.incidents[i].owner, reader)
    && s.incidents[i].incident.tenantId == tenant && s.incidents[i].incident.key == key
  }

  ghost predicate SeesLink(s: Sys, reader: Option<nat>, l: Link) {
    l in s.evidence && Seen(s.evidence[l], reader)
  }

  ghost predicate ActiveWhenRead(seen: Incident, tenant: string, key: string) {
    seen.tenantId == tenant && seen.key == key && IsActive(seen.status)
  }

  /** A choice was active when it was read, and the event is now its evidence. */
  ghost predicate ChoiceKept(s: Sys, reader: Option<nat>, tenant: string, event: EventId, ch: Choice) {
    && ActiveWhenRead(ch.seen, tenant, ch.key)
    && SeesRow(s, reader, ch.incident, tenant, ch.key)
    && SeesLink(s, reader, Link(ch.incident, event))
  }

  /** A link of the event to an incident of one of its keys. */
  ghost predicate LinkFits(c: Config, s: Sys, reader: Option<nat>, tenant: string, event: EventId, l: Link)
    requires ValidConfig(c)
  {
    l.event == event && exists key :: key in Plan(c, tenant, event) && SeesRow(s, reader, l.incident, tenant, key)
  }

  function ChosenKeys(chosen: seq<Choice>): seq<string> {
    seq(|chosen|, i requires 0 <= i < |chosen| => chosen[i].key)
  }

  ghost predicate TxInv(c: Config, s: Sys, t: nat, tx: Tx)
    requires ValidConfig(c)
  {
    && ChosenKeys(tx.chosen) + tx.todo == Plan(c, tx.tenant, tx.event)
    && (forall ch | ch in tx.chosen :: ChoiceKept(s, Some(t), tx.tenant, tx.event, ch))
    && (tx.phase.Attach? ==>
          && tx.todo != [] && SeesRow(s, Some(t), tx.phase.incident, tx.tenant, tx.todo[0])
          && ActiveWhenRead(tx.phase.seen, tx.tenant, tx.todo[0]))
    && (forall l | l in s.evidence && s.evidence[l] == Some(t) :: LinkFits(c, s, Some(t), tx.tenant, tx.event, l))
    && (forall i | i in s.incidents && s.incidents[i].owner == Some(t) ::
          SeesLink(s, Some(t), Link(i, tx.event)) || (tx.phase.Attach? && tx.phase.incident == i))
  }

  ghost predicate HandlingKept(c: Config, s: Sys, h: Handling)
    requires ValidConfig(c)
  {
    && ChosenKeys(h.chosen) == Plan(c, h.tenant, h.event)
    && forall ch | ch in h.chosen :: ChoiceKept(s, None, h.tenant, h.event, ch)
  }

  ghost predicate LinkExplained(c: Config, s: Sys, l: Link)
    requires ValidConfig(c)
  {
    exists h :: h in s.log && LinkFits(c, s, None, h.tenant, h.event, l)
  }

  ghost predicate HasLink(s: Sys, i: nat) {
    exists event :: SeesLink(s, None, Link(i, event))
  }

  /** Committed evidence comes from committed handlings, and committed incidents have some. */
  ghost predicate EvidenceExplained(c: Config, s: Sys)
    requires ValidConfig(c)
  {
    && (forall l | SeesLink(s, None, l) :: LinkExplained(c, s, l))
    && (forall i | i in s.incidents && s.incidents[i].owner.None? :: HasLink(s, i))
  }

  ghost predicate Inv(c: Config, s: Sys)
    requires ValidConfig(c)
  {
    && OneActive(s)
    && OwnersOpen(s)
    && (forall t | t in s.txs :: TxInv(c, s, t, s.txs[t]))
    && (forall h | h in s.log :: HandlingKept(c, s, h))
    && EvidenceExplained(c, s)
  }

  // ---------------------------------------------------------------------------------------------
  // What a reader sees only grows.

  ghost predicate GrowsFor(s: Sys, s': Sys, reader: Option<nat>) {
    && (forall i, tenant, key | SeesRow(s, reader, i, tenant, key) :: SeesRow(s', reader, i, tenant, key))
    && (forall l | SeesLink(s, reader, l) :: SeesLink(s', reader, l))
  }

  lemma StepGrows(c: Config, s: Sys, step: Step, reader: Option<nat>)
    requires ValidConfig(c) && OneActive(s) && Enabled(s, step)
    requires reader.Some? ==> reader.value in s.txs && reader.value in Apply(c, s, step).txs
    ensures GrowsFor(s, Apply(c, s, step), reader)
  {}

  // ---------------------------------------------------------------------------------------------
  // Uniqueness.

  /** Saving a status keeps the index: an active one only where no other row of the key is active. */
  lemma OperatorKeepsOneActive(s: Sys, i: nat, status: Status)
    requires OneActive(s) && i in s.incidents
    requires IsActive(status) ==> OnlyActive(s, i, s.incidents[i].incident.tenantId, s.incidents[i].incident.key)
    ensures var row := s.incidents[i];
            OneActive(s.(incidents := s.incidents[i := row.(incident := row.incident.(status := status))]))
  {
    hide IsActive;
  }

  lemma StepKeepsOneActive(c: Config, s: Sys, step: Step)
    requires ValidConfig(c) && OneActive(s) && Enabled(s, step)
    ensures OneActive(Apply(c, s, step))
  {
    hide Plan, IsActive, NoneSeen, SeverityOf;
    if step.Operator? { OperatorKeepsOneActive(s, step.i, step.status); }
  }

  lemma StepKeepsOwners(c: Config, s: Sys, step: Step)
    requires ValidConfig(c) && OwnersOpen(s) && Enabled(s, step)
    ensures OwnersOpen(Apply(c, s, step))
  {}

  // ---------------------------------------------------------------------------------------------
  // Transactions.

  lemma ChoiceStays(s: Sys, s': Sys, reader: Option<nat>, tenant: string, event: EventId, ch: Choice)
    requires ChoiceKept(s, reader, tenant, event, ch) && GrowsFor(s, s', reader)
    ensures ChoiceKept(s', reader, tenant, event, ch)
  {}

  lemma LinkStaysFit(c: Config, s: Sys, s': Sys, reader: Option<nat>, tenant: string, event: EventId, l: Link)
    requires ValidConfig(c) && LinkFits(c, s, reader, tenant, event, l) && GrowsFor(s, s', reader)
    ensures LinkFits(c, s', reader, tenant, event, l)
  {}

  /** The writes of a transaction are the same in both states. */
  ghost predicate SameOwned(s: Sys, s': Sys, t: nat) {
    && (forall i | i in s'.incidents && s'.incidents[i].owner == Some(t) ::
          i in s.incidents && s.incidents[i].owner == Some(t))
    && (forall l | l in s'.evidence && s'.evidence[l] == Some(t) :: l in s.evidence && s.evidence[l] == Some(t))
  }

  /** A transaction keeps its invariant through steps that write nothing for it. */
  lemma TxStays(c: Config, s: Sys, s': Sys, t: nat, tx: Tx)
    requires ValidConfig(c) && TxInv(c, s, t, tx) && GrowsFor(s, s', Some(t)) && SameOwned(s, s', t)
    ensures TxInv(c, s', t, tx)
  {}

  /** The transaction a step belongs to. */
  ghost function Actor(step: Step): Option<nat> {
    match step
    case Begin(t, _, _) => Some(t)
    case LookupFound(t, _) => Some(t)
    case LookupNone(t) => Some(t)
    case InsertOk(t) => Some(t)
    case InsertConflict(t) => Some(t)
    case RecheckFound(t, _) => Some(t)
    case RecheckNone(t) => Some(t)
    case SaveEvidence(t) => Some(t)
    case Commit(t) => Some(t)
    case Abort(t) => Some(t)
    case Operator(_, _) => None
  }

  lemma OthersStay(c: Config, s: Sys, step: Step, t: nat)
    requires ValidConfig(c) && Inv(c, s) && Enabled(s, step)
    requires t in s.txs && Actor(step) != Some(t)
    ensures t in Apply(c, s, step).txs && TxInv(c, Apply(c, s, step), t, Apply(c, s, step).txs[t])
  {
    hide Plan, IsActive, NoneSeen, NoRival, SeverityOf, TxInv, HandlingKept, EvidenceExplained;
    StepGrows(c, s, step, Some(t));
    TxStays(c, s, Apply(c, s, step), t, s.txs[t]);
  }

  lemma BeginStarts(c: Config, s: Sys, t: nat, tenant: string, event: EventId)
    requires ValidConfig(c) && OwnersOpen(s) && Enabled(s, Begin(t, tenant, event))
    ensures var s' := Apply(c, s, Begin(t, tenant, event)); TxInv(c, s', t, s'.txs[t])
  {}

  /** A lookup that found an active row, first or after a conflict, settles on it. */
  lemma FoundAttaches(c: Config, s: Sys, step: Step)
    requires ValidConfig(c) && Inv(c, s) && Enabled(s, step) && (step.LookupFound? || step.RecheckFound?)
    ensures var s' := Apply(c, s, step); TxInv(c, s', step.t, s'.txs[step.t])
  {
    hide Plan, ChosenKeys, LinkFits, ChoiceKept, HandlingKept, EvidenceExplained, OneActive, OwnersOpen, GrowsFor;
    var s' := Apply(c, s, step);
    var t := step.t;
    var tx := s'.txs[t];
    StepGrows(c, s, step, Some(t));
    WritesStay(c, s, s', t, s.txs[t], tx);
  }

  lemma PhaseMoves(c: Config, s: Sys, step: Step)
    requires ValidConfig(c) && Inv(c, s) && Enabled(s, step) && (step.LookupNone? || step.InsertConflict?)
    ensures var s' := Apply(c, s, step); TxInv(c, s', step.t, s'.txs[step.t])
  {
    hide Plan, ChosenKeys, LinkFits, ChoiceKept, HandlingKept, EvidenceExplained, NoneSeen;
    var s' := Apply(c, s, step);
    StepGrows(c, s, step, Some(step.t));
    WritesStay(c, s, s', step.t, s.txs[step.t], s'.txs[step.t]);
  }

  /** Choices, links and keys carry over when only the phase changes. */
  lemma WritesStay(c: Config, s: Sys, s': Sys, t: nat, tx: Tx, tx': Tx)
    requires ValidConfig(c) && TxInv(c, s, t, tx) && GrowsFor(s, s', Some(t))
    requires tx' == tx.(phase := tx'.phase)
    requires forall l | l in s'.evidence && s'.evidence[l] == Some(t) :: l in s.evidence && s.evidence[l] == Some(t)
    ensures ChosenKeys(tx'.chosen) + tx'.todo == Plan(c, tx'.tenant, tx'.event)
    ensures forall ch | ch in tx'.chosen :: ChoiceKept(s', Some(t), tx'.tenant, tx'.event, ch)
    ensures forall l | l in s'.evidence && s'.evidence[l] == Some(t) ::
              LinkFits(c, s', Some(t), tx'.tenant, tx'.event, l)
  {}

  lemma InsertAttaches(c: Config, s: Sys, t: nat)
    requires ValidConfig(c) && Inv(c, s) && Enabled(s, InsertOk(t))
    ensures var s' := Apply(c, s, InsertOk(t)); TxInv(c, s', t, s'.txs[t])
  {
    hide Plan, ChosenKeys, LinkFits, ChoiceKept, HandlingKept, EvidenceExplained, NoRival;
    var s' := Apply(c, s, InsertOk(t));
    StepGrows(c, s, InsertOk(t), Some(t));
    WritesStay(c, s, s', t, s.txs[t], s'.txs[t]);
  }

  lemma TargetLinkFits(c: Config, s: Sys, t: nat)
    requires ValidConfig(c) && Inv(c, s) && Enabled(s, SaveEvidence(t))
    ensures var s' := Apply(c, s, SaveEvidence(t));
            var tx := s.txs[t];
            && SeesRow(s', Some(t), tx.phase.incident, tx.tenant, tx.todo[0])
            && SeesLink(s', Some(t), Link(tx.phase.incident, tx.event))
            && LinkFits(c, s', Some(t), tx.tenant, tx.event, Link(tx.phase.incident, tx.event))
  {
    hide Plan, HandlingKept, EvidenceExplained, ChoiceKept, OneActive, OwnersOpen;
    var tx := s.txs[t];
    StepGrows(c, s, SaveEvidence(t), Some(t));
    assert TxInv(c, s, t, tx);
    assert (ChosenKeys(tx.chosen) + tx.todo)[|tx.chosen|] == tx.todo[0];
  }

  /** Settling on a first key moves it from those to do to those chosen. */
  lemma KeysMoveOn(chosen: seq<Choice>, todo: seq<string>, ch: Choice)
    requires todo != [] && ch.key == todo[0]
    ensures ChosenKeys(chosen + [ch]) + todo[1..] == ChosenKeys(chosen) + todo
  {}

  lemma ChoicesStay(s: Sys, s': Sys, reader: Option<nat>, tenant: string, event: EventId, chosen: seq<Choice>,
                    ch: Choice)
    requires GrowsFor(s, s', reader) && ChoiceKept(s', reader, tenant, event, ch)
    requires forall x | x in chosen :: ChoiceKept(s, reader, tenant, event, x)
    ensures forall x | x in chosen + [ch] :: ChoiceKept(s', reader, tenant, event, x)
  {}

  lemma EvidenceChoices(c: Config, s: Sys, t: nat)
    requires ValidConfig(c) && Inv(c, s) && Enabled(s, SaveEvidence(t))
    ensures var s' := Apply(c, s, SaveEvidence(t));
            var tx' := s'.txs[t];
            && ChosenKeys(tx'.chosen) + tx'.todo == Plan(c, tx'.tenant, tx'.event)
            && forall ch | ch in tx'.chosen :: ChoiceKept(s', Some(t), tx'.tenant, tx'.event, ch)
  {
    hide Plan, HandlingKept, EvidenceExplained, LinkFits, OneActive, OwnersOpen, GrowsFor, ChosenKeys;
    var s' := Apply(c, s, SaveEvidence(t));
    var tx := s.txs[t];
    var ch := Choice(tx.todo[0], tx.phase.incident, tx.phase.seen);
    StepGrows(c, s, SaveEvidence(t), Some(t));
    TargetLinkFits(c, s, t);
    assert TxInv(c, s, t, tx);
    KeysMoveOn(tx.chosen, tx.todo, ch);
    assert ChoiceKept(s', Some(t), tx.tenant, tx.event, ch);
    hide ChoiceKept, SeesRow, SeesLink;
    ChoicesStay(s, s', Some(t), tx.tenant, tx.event, tx.chosen, ch);
  }

  lemma EvidenceLinks(c: Config, s: Sys, t: nat, l: Link)
    requires ValidConfig(c) && Inv(c, s) && Enabled(s, SaveEvidence(t))
    requires var s' := Apply(c, s, SaveEvidence(t)); l in s'.evidence && s'.evidence[l] == Some(t)
    ensures var s' := Apply(c, s, SaveEvidence(t)); LinkFits(c, s', Some(t), s.txs[t].tenant, s.txs[t].event, l)
  {
    var s' := Apply(c, s, SaveEvidence(t));
    var tx := s.txs[t];
    assert TxInv(c, s, t, tx);
    hide Plan, ChosenKeys, ChoiceKept, LinkFits, HandlingKept, EvidenceExplained;
    if l == Link(tx.phase.incident, tx.event) {
      TargetLinkFits(c, s, t);
    } else {
      StepGrows(c, s, SaveEvidence(t), Some(t));
      LinkStaysFit(c, s, s', Some(t), tx.tenant, tx.event, l);
    }
  }

  lemma EvidenceMovesOn(c: Config, s: Sys, t: nat)
    requires ValidConfig(c) && Inv(c, s) && Enabled(s, SaveEvidence(t))
    ensures var s' := Apply(c, s, SaveEvidence(t)); TxInv(c, s', t, s'.txs[t])
  {
    hide Plan, ChosenKeys, ChoiceKept, LinkFits, HandlingKept, EvidenceExplained, OneActive, OwnersOpen;
    var s' := Apply(c, s, SaveEvidence(t));
    StepGrows(c, s, SaveEvidence(t), Some(t));
    TargetLinkFits(c, s, t);
    EvidenceChoices(c, s, t);
    assert TxInv(c, s, t, s.txs[t]);
    forall l | l in s'.evidence && s'.evidence[l] == Some(t)
      ensures LinkFits(c, s', Some(t), s.txs[t].tenant, s.txs[t].event, l)
    {
      EvidenceLinks(c, s, t, l);
    }
  }

  lemma StepKeepsTxs(c: Config, s: Sys, step: Step, t: nat)
    requires ValidConfig(c) && Inv(c, s) && Enabled(s, step) && t in Apply(c, s, step).txs
    ensures TxInv(c, Apply(c, s, step), t, Apply(c, s, step).txs[t])
  {
    hide Plan, NoneSeen, NoRival, TxInv, HandlingKept, EvidenceExplained, OneActive, IsActive;
    if Actor(step) != Some(t) {
      OthersStay(c, s, step, t);
    } else {
      match step
      case Begin(_, tenant, event) => BeginStarts(c, s, t, tenant, event);
      case LookupFound(_, _) => FoundAttaches(c, s, step);
      case RecheckFound(_, _) => FoundAttaches(c, s, step);
      case LookupNone(_) => PhaseMoves(c, s, step);
      case InsertConflict(_) => PhaseMoves(c, s, step);
      case InsertOk(_) => InsertAttaches(c, s, t);
      case SaveEvidence(_) => EvidenceMovesOn(c, s, t);
      case _ =>
    }
  }

  // ---------------------------------------------------------------------------------------------
  // Commits.

  /** Committing makes visible to everyone what the transaction saw. */
  lemma CommitPublishes(c: Config, s: Sys, t: nat)
    requires ValidConfig(c) && Enabled(s, Commit(t))
    ensures var s' := Apply(c, s, Commit(t));
            && (forall i, tenant, key | SeesRow(s, Some(t), i, tenant, key) :: SeesRow(s', None, i, tenant, key))
            && (forall l | SeesLink(s, Some(t), l) :: SeesLink(s', None, l))
  {}

  lemma CommitKeepsPromises(c: Config, s: Sys, t: nat)
    requires ValidConfig(c) && Inv(c, s) && Enabled(s, Commit(t))
    ensures var tx := s.txs[t];
            HandlingKept(c, Apply(c, s, Commit(t)), Handling(tx.tenant, tx.event, tx.chosen))
  {
    var s' := Apply(c, s, Commit(t));
    var tx := s.txs[t];
    CommitPublishes(c, s, t);
    assert TxInv(c, s, t, tx);
    hide Plan, Apply, SeesRow, SeesLink, LinkFits, EvidenceExplained, OneActive, OwnersOpen;
    assert ChosenKeys(tx.chosen) + tx.todo == ChosenKeys(tx.chosen);
    forall ch | ch in tx.chosen ensures ChoiceKept(s', None, tx.tenant, tx.event, ch) {
      assert ChoiceKept(s, Some(t), tx.tenant, tx.event, ch);
    }
  }

  lemma StepKeepsHandlings(c: Config, s: Sys, step: Step, h: Handling)
    requires ValidConfig(c) && Inv(c, s) && Enabled(s, step) && h in Apply(c, s, step).log
    ensures HandlingKept(c, Apply(c, s, step), h)
  {
    var s' := Apply(c, s, step);
    if h in s.log {
      StepGrows(c, s, step, None);
      hide Plan, Apply, EvidenceExplained, TxInv, OneActive, OwnersOpen;
      forall ch | ch in h.chosen ensures ChoiceKept(s', None, h.tenant, h.event, ch) {
        ChoiceStays(s, s', None, h.tenant, h.event, ch);
      }
    } else {
      hide Plan, HandlingKept, EvidenceExplained, TxInv, OneActive, OwnersOpen, IsActive;
      CommitKeepsPromises(c, s, step.t);
    }
  }

  lemma LinkStaysExplained(c: Config, s: Sys, s': Sys, l: Link)
    requires ValidConfig(c) && LinkExplained(c, s, l) && GrowsFor(s, s', None)
    requires forall h | h in s.log :: h in s'.log
    ensures LinkExplained(c, s', l)
  {}

  lemma HasLinkStays(s: Sys, s': Sys, i: nat)
    requires HasLink(s, i) && GrowsFor(s, s', None)
    ensures HasLink(s', i)
  {}

  /** Away from commits, the committed rows and links are the ones there were. */
  lemma OnlyCommitsPublish(c: Config, s: Sys, step: Step)
    requires ValidConfig(c) && Enabled(s, step) && !step.Commit?
    ensures var s' := Apply(c, s, step);
            && s'.log == s.log
            && (forall l | SeesLink(s', None, l) :: SeesLink(s, None, l))
            && (forall i | i in s'.incidents && s'.incidents[i].owner.None? ::
                  i in s.incidents && s.incidents[i].owner.None?)
  {}

  lemma CommittedLinkExplained(c: Config, s: Sys, t: nat, l: Link)
    requires ValidConfig(c) && Inv(c, s) && Enabled(s, Commit(t))
    requires l in s.evidence && s.evidence[l] == Some(t)
    ensures LinkExplained(c, Apply(c, s, Commit(t)), l)
  {
    var s' := Apply(c, s, Commit(t));
    var tx := s.txs[t];
    CommitPublishes(c, s, t);
    assert LinkFits(c, s, Some(t), tx.tenant, tx.event, l);
    hide Plan, SeesRow, TxInv, HandlingKept, EvidenceExplained, OneActive, OwnersOpen;
    var key :| key in Plan(c, tx.tenant, tx.event) && SeesRow(s, Some(t), l.incident, tx.tenant, key);
    assert SeesRow(s', None, l.incident, tx.tenant, key);
    var h := Handling(tx.tenant, tx.event, tx.chosen);
    assert h in s'.log && LinkFits(c, s', None, h.tenant, h.event, l);
  }

  lemma CommitExplains(c: Config, s: Sys, t: nat)
    requires ValidConfig(c) && Inv(c, s) && Enabled(s, Commit(t))
    ensures EvidenceExplained(c, Apply(c, s, Commit(t)))
  {
    var s' := Apply(c, s, Commit(t));
    StepGrows(c, s, Commit(t), None);
    CommitPublishes(c, s, t);
    assert TxInv(c, s, t, s.txs[t]);
    hide Plan, LinkFits, ChoiceKept, HandlingKept, LinkExplained, HasLink, OneActive, OwnersOpen, GrowsFor;
    forall l | SeesLink(s', None, l) ensures LinkExplained(c, s', l) {
      if SeesLink(s, None, l) { LinkStaysExplained(c, s, s', l); } else { CommittedLinkExplained(c, s, t, l); }
    }
    forall i | i in s'.incidents && s'.incidents[i].owner.None? ensures HasLink(s', i) {
      if s.incidents[i].owner.None? {
        HasLinkStays(s, s', i);
      } else {
        LinkedAfter(s', i, s.txs[t].event);
      }
    }
  }

  lemma LinkedAfter(s: Sys, i: nat, event: EventId)
    requires SeesLink(s, None, Link(i, event))
    ensures HasLink(s, i)
  {}

  /** When nothing new is published, what was explained stays explained. */
  lemma StaysExplained(c: Config, s: Sys, s': Sys)
    requires ValidConfig(c) && EvidenceExplained(c, s) && GrowsFor(s, s', None) && s'.log == s.log
    requires forall l | SeesLink(s', None, l) :: SeesLink(s, None, l)
    requires forall i | i in s'.incidents && s'.incidents[i].owner.None? ::
               i in s.incidents && s.incidents[i].owner.None?
    ensures EvidenceExplained(c, s')
  {}

  lemma StepExplains(c: Config, s: Sys, step: Step)
    requires ValidConfig(c) && Inv(c, s) && Enabled(s, step)
    ensures EvidenceExplained(c, Apply(c, s, step))
  {
    hide Apply, Enabled, SeesLink, TxInv, HandlingKept, EvidenceExplained, OneActive, OwnersOpen, GrowsFor;
    if step.Commit? {
      CommitExplains(c, s, step.t);
    } else {
      OnlyCommitsPublish(c, s, step);
      StepGrows(c, s, step, None);
      StaysExplained(c, s, Apply(c, s, step));
    }
  }

  lemma StepKeepsInv(c: Config, s: Sys, step: Step)
    requires ValidConfig(c) && Inv(c, s) && Enabled(s, step)
    ensures Inv(c, Apply(c, s, step))
  {
    hide Plan, TxInv, HandlingKept, EvidenceExplained, OneActive, OwnersOpen, IsActive;
    StepKeepsOneActive(c, s, step);
    StepKeepsOwners(c, s, step);
    StepExplains(c, s, step);
    forall t | t in Apply(c, s, step).txs ensures TxInv(c, Apply(c, s, step), t, Apply(c, s, step).txs[t]) {
      StepKeepsTxs(c, s, step, t);
    }
    forall h | h in Apply(c, s, step).log ensures HandlingKept(c, Apply(c, s, step), h) {
      StepKeepsHandlings(c, s, step, h);
    }
  }

  // ---------------------------------------------------------------------------------------------
  // Whole runs.

  const START := Sys(map[], map[], map[], 0, [])

  /** The state after a run, if every step of it was enabled. */
  ghost function Run(c: Config, steps: seq<Step>): Option<Sys>
    requires ValidConfig(c)
  {
    if steps == [] then Some(START)
    else
      var n := |steps| - 1;
      match Run(c, steps[..n])
      case None => None
      case Some(s) => if Enabled(s, steps[n]) then Some(Apply(c, s, steps[n])) else None
  }

  lemma {:induction false} RunKeepsInv(c: Config, steps: seq<Step>)
    requires ValidConfig(c) && Run(c, steps).Some?
    ensures Inv(c, Run(c, steps).value)
  {
    hide Plan, Enabled, Apply, TxInv, HandlingKept;
    if steps != [] {
      var n := |steps| - 1;
      RunKeepsInv(c, steps[..n]);
      StepKeepsInv(c, Run(c, steps[..n]).value, steps[n]);
    }
  }

  /** In every interleaving no tenant ever has two active incidents of one key. */
  lemma NeverTwoActive(c: Config, steps: seq<Step>, i: nat, j: nat)
    requires ValidConfig(c) && Run(c, steps).Some?
    requires var s := Run(c, steps).value;
             i in s.incidents && j in s.incidents && i != j
    ensures var s := Run(c, steps).value;
            !Clash(s.incidents[i].incident, s.incidents[j].incident)
  {
    RunKeepsInv(c, steps);
  }

  /**
   * Every committed handling left its event as committed evidence of one incident for each of its
   * keys, an incident of the right tenant and key that was active when it was looked up.
   */
  lemma CommittedHandlingsAreKept(c: Config, steps: seq<Step>, h: Handling)
    requires ValidConfig(c) && Run(c, steps).Some? && h in Run(c, steps).value.log
    ensures ChosenKeys(h.chosen) == Plan(c, h.tenant, h.event)
    ensures forall ch | ch in h.chosen ::
              && ActiveWhenRead(ch.seen, h.tenant, ch.key)
              && SeesRow(Run(c, steps).value, None, ch.incident, h.tenant, ch.key)
              && SeesLink(Run(c, steps).value, None, Link(ch.incident, h.event))
  {
    hide Plan, TxInv, EvidenceExplained, OneActive, OwnersOpen;
    RunKeepsInv(c, steps);
  }

  /** With a committed active incident of its key, an insert cannot succeed and the recheck adopts that incident. */
  lemma LoserAdoptsWinner(c: Config, s: Sys, t: nat, winner: nat, i: nat)
    requires ValidConfig(c) && Inv(c, s) && AtPhase(s, t, Insert)
    requires SeesActive(s, None, winner, s.txs[t].tenant, s.txs[t].todo[0])
    ensures !Enabled(s, InsertOk(t)) && Enabled(s, InsertConflict(t))
    ensures var s' := Apply(c, s, InsertConflict(t));
            && Enabled(s', RecheckFound(t, winner)) && !Enabled(s', RecheckNone(t))
            && (Enabled(s', RecheckFound(t, i)) <==> i == winner)
  {
    hide Plan, TxInv, HandlingKept, EvidenceExplained, IsActive;
    var tenant, key := s.txs[t].tenant, s.txs[t].todo[0];
    assert SeesActive(s, Some(t), winner, tenant, key);
  }

  // ---------------------------------------------------------------------------------------------
  // The committed tables are the group-by of the committed handlings.

  function Deliveries(log: seq<Handling>): seq<Delivery> {
    seq(|log|, i requires 0 <= i < |log| => Delivery(log[i].tenant, log[i].event))
  }

  lemma DeliveredIffLogged(log: seq<Handling>, d: Delivery)
    ensures d in Deliveries(log) <==> exists h :: h in log && h.tenant == d.tenant && h.event == d.event
  {
    if d in Deliveries(log) {
      var i :| 0 <= i < |log| && Deliveries(log)[i] == d;
      assert log[i] in log;
    }
    if h :| h in log && h.tenant == d.tenant && h.event == d.event {
      var i :| 0 <= i < |log| && log[i] == h;
      assert Deliveries(log)[i] == d;
    }
  }

  /** The group of a key, among the committed handlings. */
  ghost predicate InCommittedGroup(c: Config, s: Sys, m: Membership)
    requires ValidConfig(c)
  {
    InGroup(c.settings, c.events, c.rules, Deliveries(s.log), m)
  }

  lemma InCommittedGroupIff(c: Config, s: Sys, m: Membership)
    requires ValidConfig(c)
    ensures InCommittedGroup(c, s, m) <==>
            exists h :: h in s.log && h.tenant == m.tenant && h.event == m.event && m.key in Plan(c, m.tenant, m.event)
  {
    hide Selected, Deliveries;
    DeliveredIffLogged(s.log, Delivery(m.tenant, m.event));
  }

  lemma HandlingLeavesEvidence(c: Config, s: Sys, h: Handling, key: string)
    requires ValidConfig(c) && HandlingKept(c, s, h) && key in Plan(c, h.tenant, h.event)
    ensures exists i :: SeesRow(s, None, i, h.tenant, key) && SeesLink(s, None, Link(i, h.event))
  {
    hide Plan, SeesRow, SeesLink;
    assert key in ChosenKeys(h.chosen);
    var k :| 0 <= k < |h.chosen| && ChosenKeys(h.chosen)[k] == key;
    assert h.chosen[k] in h.chosen && ChoiceKept(s, None, h.tenant, h.event, h.chosen[k]);
  }

  lemma EvidenceHasHandling(c: Config, s: Sys, i: nat, m: Membership) returns (h: Handling)
    requires ValidConfig(c) && EvidenceExplained(c, s)
    requires SeesRow(s, None, i, m.tenant, m.key) && SeesLink(s, None, Link(i, m.event))
    ensures h in s.log && h.tenant == m.tenant && h.event == m.event && m.key in Plan(c, m.tenant, m.event)
  {
    hide Plan, HasLink;
    assert LinkExplained(c, s, Link(i, m.event));
    h :| h in s.log && LinkFits(c, s, None, h.tenant, h.event, Link(i, m.event));
    var key :| key in Plan(c, h.tenant, h.event) && SeesRow(s, None, i, h.tenant, key);
  }

  /** Some committed incident of the key has the event as evidence exactly when the group has the event. */
  lemma CommittedEvidenceIff(c: Config, s: Sys, m: Membership)
    requires ValidConfig(c) && Inv(c, s)
    ensures InCommittedGroup(c, s, m) <==>
            exists i :: SeesRow(s, None, i, m.tenant, m.key) && SeesLink(s, None, Link(i, m.event))
  {
    hide Plan, InCommittedGroup, TxInv, OneActive, OwnersOpen, SeesRow, SeesLink, HandlingKept, EvidenceExplained;
    InCommittedGroupIff(c, s, m);
    if h :| h in s.log && h.tenant == m.tenant && h.event == m.event && m.key in Plan(c, m.tenant, m.event) {
      HandlingLeavesEvidence(c, s, h, m.key);
    }
    if i: nat :| SeesRow(s, None, i, m.tenant, m.key) && SeesLink(s, None, Link(i, m.event)) {
      var h := EvidenceHasHandling(c, s, i, m);
    }
  }

  ghost predicate HasCommitted(s: Sys, tenant: string, key: string) {
    exists i :: SeesRow(s, None, i, tenant, key)
  }

  /**
   * Every interleaving in which operators have not yet resolved anything ends in the group-by of
   * the committed handlings: one incident for each non-empty group, with exactly its members.
   */
  lemma InterleavingsAreGroupBy(c: Config, steps: seq<Step>)
    requires ValidConfig(c) && Run(c, steps).Some?
    requires var s := Run(c, steps).value;
             forall i | i in s.incidents :: IsActive(s.incidents[i].incident.status)
    ensures var s := Run(c, steps).value;
            && (forall tenant, key :: HasCommitted(s, tenant, key) <==>
                  exists event :: InCommittedGroup(c, s, Membership(tenant, key, event)))
            && (forall i, j, tenant, key | SeesRow(s, None, i, tenant, key) && SeesRow(s, None, j, tenant, key) ::
                  i == j)
            && (forall i, tenant, key, event | SeesRow(s, None, i, tenant, key) ::
                  SeesLink(s, None, Link(i, event)) <==> InCommittedGroup(c, s, Membership(tenant, key, event)))
  {
    hide Plan, InCommittedGroup, TxInv, HandlingKept, Run, LinkExplained, IsActive;
    RunKeepsInv(c, steps);
    var s := Run(c, steps).value;
    forall i, j, tenant, key | SeesRow(s, None, i, tenant, key) && SeesRow(s, None, j, tenant, key) ensures i == j {
      assert i != j ==> Clash(s.incidents[i].incident, s.incidents[j].incident);
    }
    forall i, tenant, key, event | SeesRow(s, None, i, tenant, key)
      ensures SeesLink(s, None, Link(i, event)) <==> InCommittedGroup(c, s, Membership(tenant, key, event))
    {
      CommittedEvidenceIff(c, s, Membership(tenant, key, event));
    }
    forall tenant, key, event | InCommittedGroup(c, s, Membership(tenant, key, event))
      ensures HasCommitted(s, tenant, key)
    {
      CommittedEvidenceIff(c, s, Membership(tenant, key, event));
    }
    forall tenant, key | HasCommitted(s, tenant, key)
      ensures exists event :: InCommittedGroup(c, s, Membership(tenant, key, event))
    {
      var i: nat :| SeesRow(s, None, i, tenant, key);
      assert HasLink(s, i);
      var event :| SeesLink(s, None, Link(i, event));
      assert InCommittedGroup(c, s, Membership(tenant, key, event));
    }
  }
}
