/** How much work a failing command can cause over a whole run of the bus. */
module CommandBusBounds {
  import opened CommandBus

  function Run(c: Config, s: State, requests: seq<Request>): State
    decreases |requests|
  {
    if requests == [] then s else Run(c, Sent(c, s, requests[0]).0, requests[1..])
  }

  /** The executions of one command that the breaker let through. */
  function Admitted(c: Config, s: State, requests: seq<Request>, name: string): nat
    decreases |requests|
  {
    if requests == [] then 0
    else (if requests[0].name == name && Admits(c, s, requests[0]) then 1 else 0) +
         Admitted(c, Sent(c, s, requests[0]).0, requests[1..], name)
  }

  /** No execution of the command in the run succeeds. */
  predicate SuccessFree(c: Config, s: State, requests: seq<Request>, name: string)
    decreases |requests|
  {
    requests != [] ==>
      && !(requests[0].name == name && Sent(c, s, requests[0]).1 == Succeeded)
      && SuccessFree(c, Sent(c, s, requests[0]).0, requests[1..], name)
  }

  /** The clock does not run backwards, and the run ends by `end`. */
  predicate Timed(requests: seq<Request>, start: int, end: int)
    decreases |requests|
  {
    requests != [] ==> start <= requests[0].now <= end && Timed(requests[1..], requests[0].now, end)
  }

  function DeadLetters(dlq: seq<DeadLetter>, name: string): nat {
    if dlq == [] then 0
    else DeadLetters(dlq[..|dlq| - 1], name) + if dlq[|dlq| - 1].name == name then 1 else 0
  }

  function CallsOf(calls: seq<string>, name: string): nat {
    if calls == [] then 0
    else CallsOf(calls[..|calls| - 1], name) + if calls[|calls| - 1] == name then 1 else 0
  }

  // ---------------------------------------------------------------------------------------------
  // Counting recovery periods.

  /** The waves of executions that fit in `span`, one at its start and one after each recovery period. */
  function Waves(span: int, recovery: int): nat
    requires recovery > 0
  {
    if span < 0 then 0 else span / recovery + 1
  }

  /** A quotient is told by the multiples around the dividend. */
  lemma QuotientIs(x: int, r: int, q: int)
    requires r > 0 && q * r <= x < q * r + r
    ensures x / r == q
  {
    var p := x / r;
    assert p * r <= x < p * r + r;
    assert (p - q) * r == p * r - q * r;
    OnlyZeroIsSmall(p - q, r);
  }

  lemma OnlyZeroIsSmall(d: int, r: int)
    requires r > 0 && -r < d * r < r
    ensures d == 0
  {}

  lemma WavesAfterRecovery(span: int, recovery: int)
    requires recovery > 0 && span >= 0
    ensures Waves(span, recovery) == Waves(span - recovery, recovery) + 1
  {
    var q := span / recovery;
    if span >= recovery {
      assert (q - 1) * recovery == q * recovery - recovery;
      QuotientIs(span - recovery, recovery, q - 1);
    } else {
      QuotientIs(span, recovery, 0);
    }
  }

  lemma WavesMonotone(a: int, b: int, recovery: int)
    requires recovery > 0 && a <= b
    ensures Waves(a, recovery) <= Waves(b, recovery)
  {
    var p, q := a / recovery, b / recovery;
    assert p * recovery <= a && b < q * recovery + recovery;
    assert (q + 1 - p) * recovery > 0;
  }

  function Max(a: int, b: int): int {
    if a < b then b else a
  }

  /** The most executions the breaker can still let through from `now` to `end`, were all to fail. */
  function Potential(c: Config, failures: nat, last: int, now: int, end: int): int
    requires c.threshold >= 1 && c.recovery > 0
  {
    if failures < c.threshold then c.threshold * Waves(end - now, c.recovery) - failures
    else c.threshold * Waves(end - Max(now, last + c.recovery), c.recovery)
  }

  lemma Scale(k: int, a: int, b: int)
    requires k >= 0 && a <= b
    ensures k * a <= k * b
  {}

  /** Waiting never raises the potential. */
  lemma PotentialWaits(c: Config, failures: nat, last: int, now: int, later: int, end: int)
    requires c.threshold >= 1 && c.recovery > 0 && now <= later
    ensures Potential(c, failures, last, later, end) <= Potential(c, failures, last, now, end)
  {
    WavesMonotone(end - later, end - now, c.recovery);
    Scale(c.threshold, Waves(end - later, c.recovery), Waves(end - now, c.recovery));
    var a, b := end - Max(later, last + c.recovery), end - Max(now, last + c.recovery);
    WavesMonotone(a, b, c.recovery);
    Scale(c.threshold, Waves(a, c.recovery), Waves(b, c.recovery));
  }

  /** One more failure at `now`, counted on from `failures`, uses up one unit. */
  lemma FailureCosts(c: Config, failures: nat, last: int, now: int, end: int)
    requires c.threshold >= 1 && c.recovery > 0 && now <= end && failures < c.threshold
    ensures Potential(c, failures + 1, now, now, end) == Potential(c, failures, last, now, end) - 1
  {
    if failures + 1 == c.threshold {
      WavesAfterRecovery(end - now, c.recovery);
      var w := Waves(end - now - c.recovery, c.recovery);
      assert end - Max(now, now + c.recovery) == end - now - c.recovery;
      assert c.threshold * (w + 1) == c.threshold * w + c.threshold;
    }
  }

  /** A tripped breaker that lets a command through has no more potential than a fresh one. */
  lemma RecoveredPotential(c: Config, failures: nat, last: int, now: int, end: int)
    requires c.threshold >= 1 && c.recovery > 0 && failures >= c.threshold && now - last >= c.recovery
    ensures Potential(c, failures, last, now, end) == Potential(c, 0, last, now, end)
  {}

  lemma PotentialBounded(c: Config, failures: nat, last: int, now: int, end: int)
    requires c.threshold >= 1 && c.recovery > 0 && now <= end
    ensures 0 <= Potential(c, failures, last, now, end) <= c.threshold * ((end - now) / c.recovery + 1)
  {
    var w := Waves(end - now, c.recovery);
    if failures >= c.threshold {
      var x := end - Max(now, last + c.recovery);
      WavesMonotone(x, end - now, c.recovery);
      Scale(c.threshold, Waves(x, c.recovery), w);
      Scale(c.threshold, 0, Waves(x, c.recovery));
    } else {
      Scale(c.threshold, 1, w);
    }
  }

  // ---------------------------------------------------------------------------------------------
  // One request.

  /** A request that is not an execution of the command leaves the command's breaker state alone. */
  lemma OthersIgnored(c: Config, s: State, r: Request, name: string)
    requires !(r.name == name && Admits(c, s, r))
    ensures var s' := Sent(c, s, r).0;
            FailuresOf(s', name) == FailuresOf(s, name) && LastFailureOf(s', name) == LastFailureOf(s, name)
  {}

  /** A failed execution adds one failure, counted from zero when the breaker had tripped. */
  lemma ExecutionFails(c: Config, s: State, r: Request)
    requires Admits(c, s, r) && Sent(c, s, r).1 != Succeeded
    ensures var s' := Sent(c, s, r).0;
            && FailuresOf(s', r.name) == (if Tripped(c, s, r.name) then 0 else FailuresOf(s, r.name)) + 1
            && LastFailureOf(s', r.name) == r.now
  {}

  lemma RequestCosts(c: Config, s: State, r: Request, now: int, end: int, name: string)
    requires c.threshold >= 1 && c.recovery > 0 && now <= r.now <= end
    requires !(r.name == name && Sent(c, s, r).1 == Succeeded)
    ensures var s' := Sent(c, s, r).0;
            Potential(c, FailuresOf(s', name), LastFailureOf(s', name), r.now, end) <=
              Potential(c, FailuresOf(s, name), LastFailureOf(s, name), now, end) -
              if r.name == name && Admits(c, s, r) then 1 else 0
  {
    var s' := Sent(c, s, r).0;
    var failures, last := FailuresOf(s, name), LastFailureOf(s, name);
    PotentialWaits(c, failures, last, now, r.now, end);
    if r.name == name && Admits(c, s, r) {
      ExecutionFails(c, s, r);
      if Tripped(c, s, name) {
        RecoveredPotential(c, failures, last, r.now, end);
        FailureCosts(c, 0, last, r.now, end);
      } else {
        FailureCosts(c, failures, last, r.now, end);
      }
    } else {
      OthersIgnored(c, s, r, name);
    }
    hide Potential, FailuresOf, LastFailureOf, Sent, Admits;
  }

  lemma {:induction false} AdmittedWithinPotential(c: Config, s: State, requests: seq<Request>, name: string,
                                                   start: int, end: int)
    requires c.threshold >= 1 && c.recovery > 0 && start <= end
    requires Timed(requests, start, end) && SuccessFree(c, s, requests, name)
    ensures Admitted(c, s, requests, name) <= Potential(c, FailuresOf(s, name), LastFailureOf(s, name), start, end)
    decreases |requests|
  {
    hide Potential, FailuresOf, LastFailureOf, Sent, Admits;
    if requests == [] {
      PotentialBounded(c, FailuresOf(s, name), LastFailureOf(s, name), start, end);
    } else {
      var r := requests[0];
      RequestCosts(c, s, r, start, end, name);
      AdmittedWithinPotential(c, Sent(c, s, r).0, requests[1..], name, r.now, end);
    }
  }

  /**
   * In a stretch of length `end - start` in which a command never succeeds, whatever happened before and
   * whatever other commands do meanwhile, the breaker lets it through at most
   * threshold * (floor((end - start) / recovery) + 1) times.
   */
  lemma AdmittedBounded(c: Config, s: State, requests: seq<Request>, name: string, start: int, end: int)
    requires c.threshold >= 1 && c.recovery > 0 && start <= end
    requires Timed(requests, start, end) && SuccessFree(c, s, requests, name)
    ensures Admitted(c, s, requests, name) <= c.threshold * ((end - start) / c.recovery + 1)
  {
    hide Potential;
    AdmittedWithinPotential(c, s, requests, name, start, end);
    PotentialBounded(c, FailuresOf(s, name), LastFailureOf(s, name), start, end);
  }

  // ---------------------------------------------------------------------------------------------
  // Dead letters and handler calls.

  lemma {:induction false} CallsOfRepeat(calls: seq<string>, other: string, n: nat, name: string)
    ensures CallsOf(calls + Repeat(other, n), name) == CallsOf(calls, name) + if other == name then n else 0
    decreases n
  {
    var all := calls + Repeat(other, n);
    if n == 0 {
      assert all == calls;
    } else {
      CallsOfRepeat(calls, other, n - 1, name);
      assert all[..|all| - 1] == calls + Repeat(other, n - 1);
      assert all[|all| - 1] == other;
    }
  }

  lemma DeadLettersGrow(dlq: seq<DeadLetter>, d: DeadLetter, name: string)
    ensures DeadLetters(dlq + [d], name) == DeadLetters(dlq, name) + if d.name == name then 1 else 0
  {}

  /** A handler that never works in time is called as often as there are attempts. */
  lemma {:induction false} AllAttemptsMade(c: Config, r: Request, i: nat)
    requires !WorksInTime(c, r)
    ensures CallsFrom(c, r, i) == if i >= c.maxRetries then 0 else c.maxRetries - i
    decreases c.maxRetries - i
  {
    if i < c.maxRetries { AllAttemptsMade(c, r, i + 1); }
  }

  function Attempts(c: Config): nat {
    if c.maxRetries < 0 then 0 else c.maxRetries
  }

  lemma RequestAccounted(c: Config, s: State, r: Request, name: string)
    requires !(r.name == name && Sent(c, s, r).1 == Succeeded)
    ensures var s', n := Sent(c, s, r).0, if r.name == name && Admits(c, s, r) then 1 else 0;
            && DeadLetters(s'.dlq, name) == DeadLetters(s.dlq, name) + n
            && CallsOf(s'.calls, name) == CallsOf(s.calls, name) + Attempts(c) * n
  {
    DeadLettersGrow(s.dlq, DeadLetter(r.name, r.id), name);
    CallsOfRepeat(s.calls, r.name, CallsFrom(c, r, 0), name);
    if !WorksInTime(c, r) { AllAttemptsMade(c, r, 0); }
    hide DeadLetters, CallsOf, CallsFrom, WorksInTime, Repeat, Rejects;
  }

  /** Every execution let through in a success-free stretch leaves one dead letter and all its attempts. */
  lemma {:induction false} ExecutionsAccounted(c: Config, s: State, requests: seq<Request>, name: string)
    requires SuccessFree(c, s, requests, name)
    ensures var s', n := Run(c, s, requests), Admitted(c, s, requests, name);
            && DeadLetters(s'.dlq, name) == DeadLetters(s.dlq, name) + n
            && CallsOf(s'.calls, name) == CallsOf(s.calls, name) + Attempts(c) * n
    decreases |requests|
  {
    hide Sent, Admits, DeadLetters, CallsOf, Attempts;
    if requests != [] {
      var r := requests[0];
      RequestAccounted(c, s, r, name);
      var s1 := Sent(c, s, r).0;
      ExecutionsAccounted(c, s1, requests[1..], name);
      var n := if r.name == name && Admits(c, s, r) then 1 else 0;
      var rest := Admitted(c, s1, requests[1..], name);
      assert Attempts(c) * (n + rest) == Attempts(c) * n + Attempts(c) * rest;
    }
  }

  /** So a failing command costs at most this many handler calls. */
  lemma CallsBounded(c: Config, s: State, requests: seq<Request>, name: string, start: int, end: int)
    requires c.threshold >= 1 && c.recovery > 0 && start <= end
    requires Timed(requests, start, end) && SuccessFree(c, s, requests, name)
    ensures CallsOf(Run(c, s, requests).calls, name) - CallsOf(s.calls, name) <=
            Attempts(c) * (c.threshold * ((end - start) / c.recovery + 1))
  {
    hide Run, Admitted, CallsOf, DeadLetters, SuccessFree, Timed;
    AdmittedBounded(c, s, requests, name, start, end);
    ExecutionsAccounted(c, s, requests, name);
    Scale(Attempts(c), Admitted(c, s, requests, name), c.threshold * ((end - start) / c.recovery + 1));
  }

  // ---------------------------------------------------------------------------------------------
  // The bound is attained.

  function Failing(name: string, at: int): Request {
    Request(name, "", at, true, true, _ => false)
  }

  /** As many failing commands at one instant. */
  function Burst(name: string, at: int, n: nat): seq<Request> {
    if n == 0 then [] else [Failing(name, at)] + Burst(name, at, n - 1)
  }

  /** A burst at the start, and one more after each of `k` recovery periods. */
  function Bursts(c: Config, name: string, start: int, k: nat): seq<Request>
    requires c.threshold >= 1
  {
    if k == 0 then Burst(name, start, c.threshold)
    else Bursts(c, name, start, k - 1) + Burst(name, start + k * c.recovery, c.threshold)
  }

  lemma {:induction false} RunsCompose(c: Config, s: State, a: seq<Request>, b: seq<Request>, name: string)
    ensures Run(c, s, a + b) == Run(c, Run(c, s, a), b)
    ensures Admitted(c, s, a + b, name) == Admitted(c, s, a, name) + Admitted(c, Run(c, s, a), b, name)
    ensures SuccessFree(c, s, a, name) && SuccessFree(c, Run(c, s, a), b, name) ==> SuccessFree(c, s, a + b, name)
    decreases |a|
  {
    hide Sent, Admits;
    if a == [] {
      assert a + b == b;
    } else {
      assert (a + b)[0] == a[0] && (a + b)[1..] == a[1..] + b;
      RunsCompose(c, Sent(c, s, a[0]).0, a[1..], b, name);
    }
  }

  /** The breaker lets a whole burst through that brings the failures up to the threshold. */
  lemma {:induction false} BurstAdmitted(c: Config, s: State, name: string, at: int, n: nat)
    requires FailuresOf(s, name) + n <= c.threshold
    ensures var s' := Run(c, s, Burst(name, at, n));
            && Admitted(c, s, Burst(name, at, n), name) == n && SuccessFree(c, s, Burst(name, at, n), name)
            && FailuresOf(s', name) == FailuresOf(s, name) + n
            && (n > 0 ==> LastFailureOf(s', name) == at)
    decreases n
  {
    if n > 0 {
      var r := Failing(name, at);
      ExecutionFails(c, s, r);
      hide Sent, FailuresOf, LastFailureOf, Executed;
      assert Burst(name, at, n)[1..] == Burst(name, at, n - 1);
      BurstAdmitted(c, Sent(c, s, r).0, name, at, n - 1);
    }
  }

  /** So it does with a burst of threshold size once a tripped breaker has recovered. */
  lemma BurstAfterRecovery(c: Config, s: State, name: string, at: int)
    requires c.threshold >= 1 && Tripped(c, s, name) && at - LastFailureOf(s, name) >= c.recovery
    ensures var b := Burst(name, at, c.threshold);
            var s' := Run(c, s, b);
            && Admitted(c, s, b, name) == c.threshold && SuccessFree(c, s, b, name)
            && Tripped(c, s', name) && LastFailureOf(s', name) == at
  {
    var r := Failing(name, at);
    ExecutionFails(c, s, r);
    hide Sent, FailuresOf, LastFailureOf, Executed;
    assert Burst(name, at, c.threshold)[1..] == Burst(name, at, c.threshold - 1);
    BurstAdmitted(c, Sent(c, s, r).0, name, at, c.threshold - 1);
  }

  lemma {:induction false} BurstTimed(name: string, at: int, n: nat, start: int, end: int)
    requires start <= at <= end
    ensures Timed(Burst(name, at, n), start, end)
    decreases n
  {
    if n > 0 {
      assert Burst(name, at, n)[1..] == Burst(name, at, n - 1);
      BurstTimed(name, at, n - 1, at, end);
    }
  }

  lemma {:induction false} TimedCompose(a: seq<Request>, b: seq<Request>, start: int, middle: int, end: int)
    requires start <= middle <= end && Timed(a, start, middle) && Timed(b, middle, end)
    ensures Timed(a + b, start, end)
    decreases |a|
  {
    if a == [] {
      assert a + b == b;
    } else {
      assert (a + b)[0] == a[0] && (a + b)[1..] == a[1..] + b;
      TimedCompose(a[1..], b, a[0].now, middle, end);
    }
  }

  /** The bursts fit in a stretch of `k` recovery periods. */
  lemma {:induction false} BurstsTimed(c: Config, name: string, start: int, k: nat)
    requires c.threshold >= 1 && c.recovery > 0
    ensures start <= start + k * c.recovery
    ensures Timed(Bursts(c, name, start, k), start, start + k * c.recovery)
    decreases k
  {
    hide Burst, Timed;
    if k == 0 {
      BurstTimed(name, start, c.threshold, start, start);
    } else {
      var at := start + k * c.recovery;
      assert k * c.recovery == (k - 1) * c.recovery + c.recovery;
      BurstsTimed(c, name, start, k - 1);
      BurstTimed(name, at, c.threshold, at - c.recovery, at);
      TimedCompose(Bursts(c, name, start, k - 1), Burst(name, at, c.threshold), start, at - c.recovery, at);
    }
  }

  /** From a breaker without failures, a stretch of `k` recovery periods reaches the bound exactly. */
  lemma {:induction false} BoundAttained(c: Config, s: State, name: string, start: int, k: nat)
    requires c.threshold >= 1 && c.recovery > 0 && FailuresOf(s, name) == 0
    ensures var b := Bursts(c, name, start, k);
            var s' := Run(c, s, b);
            && Admitted(c, s, b, name) == c.threshold * (k + 1) && SuccessFree(c, s, b, name)
            && Tripped(c, s', name) && LastFailureOf(s', name) == start + k * c.recovery
    ensures Timed(Bursts(c, name, start, k), start, start + k * c.recovery)
    decreases k
  {
    hide Sent, FailuresOf, LastFailureOf, Burst, Timed;
    BurstsTimed(c, name, start, k);
    if k == 0 {
      BurstAdmitted(c, s, name, start, c.threshold);
    } else {
      var a, at := Bursts(c, name, start, k - 1), start + k * c.recovery;
      BoundAttained(c, s, name, start, k - 1);
      BurstAfterRecovery(c, Run(c, s, a), name, at);
      RunsCompose(c, s, a, Burst(name, at, c.threshold), name);
      assert c.threshold * (k + 1) == c.threshold * k + c.threshold;
    }
  }
}
