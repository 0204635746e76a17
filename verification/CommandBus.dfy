/**
 * Commands run under a retry loop inside a circuit breaker; commands that exhaust their retries go to
 * a dead letter queue.
 */
module CommandBus {
  /** Times are in any unit of a clock that does not run backwards. */
  datatype Config = Config(threshold: int, recovery: int, maxRetries: int)

  /** A command with what its surroundings answer: the policy, and whether each attempt of its handler works. */
  datatype Request = Request(name: string, id: string, now: int, allowed: bool, registered: bool, works: nat -> bool)

  datatype DeadLetter = DeadLetter(name: string, id: string)

  /** Why nothing was run, or how the run ended. */
  datatype Reply = Denied | Unhandled | CircuitOpen | Succeeded | Failed

  /** The breaker's maps, the dead letters, and the name of the command at every handler call. */
  datatype State = State(failures: map<string, nat>, lastFailure: map<string, int>, dlq: seq<DeadLetter>,
                         calls: seq<string>)

  function FailuresOf(s: State, name: string): nat {
    if name in s.failures then s.failures[name] else 0
  }

  function LastFailureOf(s: State, name: string): int {
    if name in s.lastFailure then s.lastFailure[name] else 0
  }

  predicate Tripped(c: Config, s: State, name: string) {
    FailuresOf(s, name) >= c.threshold
  }

  predicate Rejects(c: Config, s: State, name: string, now: int) {
    Tripped(c, s, name) && now - LastFailureOf(s, name) < c.recovery
  }

  /** The handler works within the attempts it gets. */
  predicate WorksInTime(c: Config, r: Request) {
    exists i: nat | i < c.maxRetries :: r.works(i)
  }

  /** Calls from attempt `i` on: up to and including the first that works. */
  function CallsFrom(c: Config, r: Request, i: nat): nat
    decreases c.maxRetries - i
  {
    if i >= c.maxRetries then 0 else if r.works(i) then 1 else 1 + CallsFrom(c, r, i + 1)
  }

  function Repeat(name: string, n: nat): (names: seq<string>)
    ensures |names| == n
  {
    seq(n, _ => name)
  }

  predicate Admits(c: Config, s: State, r: Request) {
    r.allowed && r.registered && !Rejects(c, s, r.name, r.now)
  }

  /** A command that is run. */
  function Executed(c: Config, s: State, r: Request): (State, Reply) {
    var before := if Tripped(c, s, r.name) then 0 else FailuresOf(s, r.name);
    var calls := s.calls + Repeat(r.name, CallsFrom(c, r, 0));
    if WorksInTime(c, r) then
      (s.(failures := s.failures[r.name := 0], calls := calls), Succeeded)
    else
      (State(s.failures[r.name := before + 1], s.lastFailure[r.name := r.now],
             s.dlq + [DeadLetter(r.name, r.id)], calls), Failed)
  }

  function Sent(c: Config, s: State, r: Request): (State, Reply) {
    if !r.allowed then (s, Denied)
    else if !r.registered then (s, Unhandled)
    else if Rejects(c, s, r.name, r.now) then (s, CircuitOpen)
    else Executed(c, s, r)
  }

  class CircuitBreakerMiddleware {
    const threshold: int
    const recovery: int
    var failures: map<string, nat>
    var lastFailureTime: map<string, int>

    constructor (threshold: int, recovery: int)
      ensures this.threshold == threshold && this.recovery == recovery
      ensures failures == map[] && lastFailureTime == map[]
    {
      this.threshold, this.recovery := threshold, recovery;
      failures, lastFailureTime := map[], map[];
    }

    /** Turns a command away, or lets it through with its failures forgotten if it had tripped. */
    method Enter(name: string, now: int) returns (open: bool)
      modifies this`failures
      ensures var s, c := State(old(failures), lastFailureTime, [], []), Config(threshold, recovery, 0);
              open == Rejects(c, s, name, now) &&
              failures == if !open && Tripped(c, s, name) then old(failures)[name := 0] else old(failures)
    {
      open := false;
      var count := if name in failures then failures[name] else 0;
      if count >= threshold {
        var lastFailed := if name in lastFailureTime then lastFailureTime[name] else 0;
        if now - lastFailed < recovery { return true; }
        failures := failures[name := 0];
      }
    }

    method Leave(name: string, now: int, worked: bool)
      modifies this
      ensures failures == old(failures)[name :=
                if worked then 0 else 1 + if name in old(failures) then old(failures)[name] else 0]
      ensures lastFailureTime == if worked then old(lastFailureTime) else old(lastFailureTime)[name := now]
    {
      if worked {
        failures := failures[name := 0];
      } else {
        failures := failures[name := 1 + if name in failures then failures[name] else 0];
        lastFailureTime := lastFailureTime[name := now];
      }
    }
  }

  class CommandBus {
    const breaker: CircuitBreakerMiddleware
    const maxRetries: int
    var dlq: seq<DeadLetter>
    var calls: seq<string>

    ghost function View(): State
      reads this, breaker
    {
      State(breaker.failures, breaker.lastFailureTime, dlq, calls)
    }

    ghost function Settings(): Config
    {
      Config(breaker.threshold, breaker.recovery, maxRetries)
    }

    constructor (breaker: CircuitBreakerMiddleware, maxRetries: int)
      ensures this.breaker == breaker && this.maxRetries == maxRetries && dlq == [] && calls == []
    {
      this.breaker, this.maxRetries, dlq, calls := breaker, maxRetries, [], [];
    }

    /** The retry loop; when no attempt works the command becomes a dead letter. */
    method RunHandler(r: Request) returns (worked: bool)
      modifies this`dlq, this`calls
      ensures worked == WorksInTime(Settings(), r)
      ensures calls == old(calls) + Repeat(r.name, CallsFrom(Settings(), r, 0))
      ensures dlq == if worked then old(dlq) else old(dlq) + [DeadLetter(r.name, r.id)]
    {
      var attempts: nat := 0;
      while attempts < maxRetries
        invariant forall i: nat | i < attempts :: !r.works(i)
        invariant attempts > 0 ==> attempts <= maxRetries
        invariant calls + Repeat(r.name, CallsFrom(Settings(), r, attempts)) ==
                  old(calls) + Repeat(r.name, CallsFrom(Settings(), r, 0))
        invariant dlq == old(dlq)
      {
        calls := calls + [r.name];
        attempts := attempts + 1;
        assert Repeat(r.name, CallsFrom(Settings(), r, attempts - 1)) ==
          [r.name] + Repeat(r.name, CallsFrom(Settings(), r, attempts - 1) - 1);
        if r.works(attempts - 1) { return true; }
      }
      dlq := dlq + [DeadLetter(r.name, r.id)];
      return false;
    }

    method Send(r: Request) returns (reply: Reply)
      modifies this`dlq, this`calls, breaker
      ensures (View(), reply) == Sent(Settings(), old(View()), r)
    {
      if !r.allowed { return Denied; }
      if !r.registered { return Unhandled; }
      var open := breaker.Enter(r.name, r.now);
      if open { return CircuitOpen; }
      var worked := RunHandler(r);
      breaker.Leave(r.name, r.now, worked);
      ghost var f := old(breaker.failures);
      assert f[r.name := 0][r.name := 0] == f[r.name := 0] && f[r.name := 0][r.name := 1] == f[r.name := 1];
      return if worked then Succeeded else Failed;
    }
  }
}
