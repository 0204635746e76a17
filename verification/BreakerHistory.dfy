/**
 * When the command bus turns a command away, what it replies and what it leaves behind, read off the
 * requests and replies so far.
 */
module BreakerHistory {
  import opened CommandBus
  import opened CommandBusBounds

  const EMPTY: State := State(map[], map[], [], [])

  /** What can be seen of one command from outside. */
  datatype Seen = Seen(name: string, id: string, now: int, reply: Reply)

  function ReplyTo(c: Config, before: seq<Request>, r: Request): Reply {
    Sent(c, Run(c, EMPTY, before), r).1
  }

  /** The commands of a run from the empty state with their replies. */
  function History(c: Config, requests: seq<Request>): (seen: seq<Seen>)
    ensures |seen| == |requests|
  {
    if requests == [] then []
    else
      var n := |requests| - 1;
      var r := requests[n];
      History(c, requests[..n]) + [Seen(r.name, r.id, r.now, ReplyTo(c, requests[..n], r))]
  }

  // ---------------------------------------------------------------------------------------------
  // Reading the history.

  /** The failed executions of the command since its last success. */
  function Streak(seen: seq<Seen>, name: string): nat {
    if seen == [] then 0
    else
      var n := |seen| - 1;
      if seen[n].name != name then Streak(seen[..n], name)
      else if seen[n].reply == Succeeded then 0
      else if seen[n].reply == Failed then Streak(seen[..n], name) + 1
      else Streak(seen[..n], name)
  }

  /** When the command last failed; 0 if it never has. */
  function LastFailed(seen: seq<Seen>, name: string): int {
    if seen == [] then 0
    else
      var n := |seen| - 1;
      if seen[n].name == name && seen[n].reply == Failed then seen[n].now else LastFailed(seen[..n], name)
  }

  /**
   * The breaker is open: since its last success the command has failed a whole number of thresholds, the
   * last of them completing the streak since the last recovery, and recovery is not due yet.
   */
  predicate Open(c: Config, seen: seq<Seen>, name: string, now: int) {
    && now - LastFailed(seen, name) < c.recovery
    && (c.threshold <= 0 || (Streak(seen, name) > 0 && Streak(seen, name) % c.threshold == 0))
  }

  function DeadLettersOf(seen: seq<Seen>): seq<DeadLetter> {
    if seen == [] then []
    else
      var n := |seen| - 1;
      DeadLettersOf(seen[..n]) + if seen[n].reply == Failed then [DeadLetter(seen[n].name, seen[n].id)] else []
  }

  // ---------------------------------------------------------------------------------------------
  // The state is what the history says.

  lemma RunGrows(c: Config, s: State, requests: seq<Request>, r: Request)
    ensures Run(c, s, requests + [r]) == Sent(c, Run(c, s, requests), r).0
  {
    hide Sent;
    RunsCompose(c, s, requests, [r], r.name);
    assert [r][1..] == [];
  }

  /** How many failures the breaker counts after a streak of `n`: it starts again after each recovery. */
  function Counted(threshold: int, n: nat): nat {
    if n == 0 then 0 else if threshold <= 0 then 1 else (n - 1) % threshold + 1
  }

  lemma NextCount(threshold: int, n: nat)
    ensures Counted(threshold, n + 1) ==
              if Counted(threshold, n) >= threshold then 1 else Counted(threshold, n) + 1
    ensures threshold >= 1 ==> (Counted(threshold, n) >= threshold <==> n > 0 && n % threshold == 0)
  {
    if threshold >= 1 && n > 0 {
      var q, m := (n - 1) / threshold, (n - 1) % threshold;
      assert n == q * threshold + (m + 1);
      if m + 1 == threshold {
        assert n == (q + 1) * threshold;
        Remainder(n, threshold, q + 1, 0);
      } else {
        Remainder(n, threshold, q, m + 1);
      }
    }
  }

  lemma Remainder(n: int, d: int, q: int, m: int)
    requires d > 0 && 0 <= m < d && n == q * d + m
    ensures n % d == m
  {
    var p := n / d;
    assert (p - q) * d == p * d - q * d;
    QuotientIs(n, d, q);
  }

  ghost predicate Agrees(c: Config, s: State, seen: seq<Seen>) {
    && (forall name :: FailuresOf(s, name) == Counted(c.threshold, Streak(seen, name)))
    && (forall name :: LastFailureOf(s, name) == LastFailed(seen, name))
    && s.dlq == DeadLettersOf(seen)
  }

  lemma StepAgrees(c: Config, s: State, seen: seq<Seen>, r: Request)
    requires Agrees(c, s, seen)
    ensures var (s', reply) := Sent(c, s, r);
            Agrees(c, s', seen + [Seen(r.name, r.id, r.now, reply)])
  {
    var (s', reply) := Sent(c, s, r);
    var seen' := seen + [Seen(r.name, r.id, r.now, reply)];
    assert seen'[..|seen|] == seen;
    NextCount(c.threshold, Streak(seen, r.name));
    hide Counted, WorksInTime;
    assert Counted(c.threshold, 0) == 0 by { NoneCounted(c.threshold); }
    forall name
      ensures FailuresOf(s', name) == Counted(c.threshold, Streak(seen', name))
      ensures LastFailureOf(s', name) == LastFailed(seen', name)
    {
      assert FailuresOf(s, name) == Counted(c.threshold, Streak(seen, name));
      assert LastFailureOf(s, name) == LastFailed(seen, name);
    }
  }

  lemma NoneCounted(threshold: int)
    ensures Counted(threshold, 0) == 0
  {}

  lemma {:induction false} HistoryAgrees(c: Config, requests: seq<Request>)
    ensures Agrees(c, Run(c, EMPTY, requests), History(c, requests))
  {
    hide Sent, Agrees, Run;
    if requests == [] {
      EmptyAgrees(c);
    } else {
      var n := |requests| - 1;
      HistoryAgrees(c, requests[..n]);
      RunGrows(c, EMPTY, requests[..n], requests[n]);
      assert requests == requests[..n] + [requests[n]];
      StepAgrees(c, Run(c, EMPTY, requests[..n]), History(c, requests[..n]), requests[n]);
    }
  }

  lemma EmptyAgrees(c: Config)
    ensures Agrees(c, Run(c, EMPTY, []), [])
  {}

  // ---------------------------------------------------------------------------------------------
  // The results.

  /**
   * Over every run from the empty state, whatever mix of commands, the reply to the next command is told
   * by the request and the history: turned away exactly when the breaker is open, and otherwise succeeded
   * exactly when one of the attempts works.
   */
  lemma ReplyIs(c: Config, requests: seq<Request>, r: Request)
    ensures var reply, seen := ReplyTo(c, requests, r), History(c, requests);
            && (reply == Denied <==> !r.allowed)
            && (reply == Unhandled <==> r.allowed && !r.registered)
            && (reply == CircuitOpen <==> r.allowed && r.registered && Open(c, seen, r.name, r.now))
            && (reply == Succeeded <==> r.allowed && r.registered && !Open(c, seen, r.name, r.now) &&
                                        exists i: nat | i < c.maxRetries :: r.works(i))
            && (reply == Failed <==> r.allowed && r.registered && !Open(c, seen, r.name, r.now) &&
                                     forall i: nat | i < c.maxRetries :: !r.works(i))
  {
    hide Counted, Run, History;
    HistoryAgrees(c, requests);
    NextCount(c.threshold, Streak(History(c, requests), r.name));
    TrippedIff(c, requests, r.name);
  }

  lemma TrippedIff(c: Config, requests: seq<Request>, name: string)
    ensures var s, seen := Run(c, EMPTY, requests), History(c, requests);
            && LastFailureOf(s, name) == LastFailed(seen, name)
            && (Tripped(c, s, name) <==>
                  c.threshold <= 0 || (Streak(seen, name) > 0 && Streak(seen, name) % c.threshold == 0))
  {
    hide Counted, Run, History, Streak, LastFailed;
    HistoryAgrees(c, requests);
    NextCount(c.threshold, Streak(History(c, requests), name));
  }

  /** After a success, fewer failures than the threshold never make the bus turn the command away. */
  lemma SuccessForgets(c: Config, requests: seq<Request>, r: Request)
    requires c.threshold >= 1 && Streak(History(c, requests), r.name) < c.threshold
    ensures ReplyTo(c, requests, r) != CircuitOpen
  {
    hide ReplyTo, Streak;
    ReplyIs(c, requests, r);
    var n := Streak(History(c, requests), r.name);
    if n > 0 { Remainder(n, c.threshold, 0, n); }
  }

  /** Over every run the dead letters are exactly the failed commands, in order. */
  lemma DeadLettersAre(c: Config, requests: seq<Request>)
    ensures Run(c, EMPTY, requests).dlq == DeadLettersOf(History(c, requests))
  {
    hide Run;
    HistoryAgrees(c, requests);
  }

  /** How often the handler is called: up to and including the first attempt that works, or to the limit. */
  lemma CallsAre(c: Config, r: Request, n: nat)
    requires forall i: nat | i < n :: !r.works(i)
    ensures n < c.maxRetries && r.works(n) ==> CallsFrom(c, r, 0) == n + 1
    ensures n == c.maxRetries ==> CallsFrom(c, r, 0) == n
  {
    if n <= c.maxRetries { CallsUpTo(c, r, 0, n); }
  }

  lemma {:induction false} CallsUpTo(c: Config, r: Request, i: nat, n: nat)
    requires i <= n <= c.maxRetries && forall k: nat | i <= k < n :: !r.works(k)
    ensures CallsFrom(c, r, i) == n - i + CallsFrom(c, r, n)
    decreases n - i
  {
    if i < n { CallsUpTo(c, r, i + 1, n); }
  }

  /** The calls a run makes: those of each command that ran, in order, under its name. */
  lemma CallsGrow(c: Config, requests: seq<Request>, r: Request)
    ensures var before, after := Run(c, EMPTY, requests).calls, Run(c, EMPTY, requests + [r]).calls;
            var ran := ReplyTo(c, requests, r) == Succeeded || ReplyTo(c, requests, r) == Failed;
            && before <= after
            && |after| == |before| + (if ran then CallsFrom(c, r, 0) else 0)
            && (forall i | |before| <= i < |after| :: after[i] == r.name)
  {
    hide Run;
    RunGrows(c, EMPTY, requests, r);
  }
}
