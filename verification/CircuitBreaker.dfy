/**
 The circuit breaker around one resource's health check.

 Times are nanoseconds since construction and stay below the sentinel that
 marks a circuit that never opened. A probe that unwinds leaves the breaker as
 it stood while the probe ran.
 */
module CircuitBreaker {
  const NO_TIMESTAMP: nat := 0xFFFF_FFFF_FFFF_FFFF
  const SECOND: nat := 1_000_000_000

  datatype Circuit = Closed | Open | HalfOpen

  datatype Config = Config(threshold: nat, cooldown: nat)

  /** The builder's clamps. */
  function Build(threshold: nat, cooldown: nat): (c: Config)
    ensures WellBuilt(c)
    ensures threshold >= 1 ==> c.threshold == threshold
    ensures cooldown >= SECOND ==> c.cooldown == cooldown
  {
    Config(if threshold < 1 then 1 else threshold, if cooldown < SECOND then SECOND else cooldown)
  }

  predicate WellBuilt(c: Config) {
    c.threshold >= 1 && c.cooldown >= SECOND
  }

  datatype Breaker = Breaker(circuit: Circuit, failures: nat, lastOpened: nat)

  const INITIAL := Breaker(Closed, 0, NO_TIMESTAMP)

  datatype Outcome = Healthy | Unhealthy | Unwound

  /** One health check: when it starts, what a probe would answer, when it ends. */
  datatype Call = Call(start: nat, outcome: Outcome, end: nat)

  // ---------- one check at a time ----------

  function OpenCircuit(b: Breaker, now: nat): Breaker {
    b.(circuit := Open, lastOpened := now)
  }

  function RecordFailure(c: Config, b: Breaker, now: nat): Breaker {
    if b.failures >= c.threshold then OpenCircuit(b, now)
    else
      var counted := b.(failures := b.failures + 1);
      if counted.failures >= c.threshold then OpenCircuit(counted, now) else counted
  }

  predicate CooldownExpired(c: Config, b: Breaker, now: nat) {
    b.lastOpened != NO_TIMESTAMP && now - b.lastOpened >= c.cooldown
  }

  predicate Probes(c: Config, b: Breaker, now: nat) {
    !b.circuit.Open? || CooldownExpired(c, b, now)
  }

  function Probed(c: Config, b: Breaker, call: Call): Breaker {
    var probing := if b.circuit.Open? then b.(circuit := HalfOpen) else b;
    match call.outcome
    case Unwound => probing
    case Healthy => probing.(failures := 0, circuit := Closed)
    case Unhealthy =>
      if probing.circuit.HalfOpen? then OpenCircuit(probing, call.end) else RecordFailure(c, probing, call.end)
  }

  function Check(c: Config, b: Breaker, call: Call): Breaker {
    if Probes(c, b, call.start) then Probed(c, b, call) else b
  }

  function After(c: Config, calls: seq<Call>): Breaker {
    if calls == [] then INITIAL
    else Check(c, After(c, calls[..|calls| - 1]), calls[|calls| - 1])
  }

  /** The probes a run of checks really makes, in order. */
  function ProbesOf(c: Config, calls: seq<Call>): seq<Call> {
    if calls == [] then []
    else
      var before := calls[..|calls| - 1];
      var last := calls[|calls| - 1];
      ProbesOf(c, before) + if Probes(c, After(c, before), last.start) then [last] else []
  }

  // ---------- the reading by probes alone ----------

  /** How many probes failed since the last healthy one. */
  function FailuresInARow(probes: seq<Call>): nat {
    if probes == [] then 0
    else
      var before := probes[..|probes| - 1];
      match probes[|probes| - 1].outcome
      case Healthy => 0
      case Unhealthy => FailuresInARow(before) + 1
      case Unwound => FailuresInARow(before)
  }

  /** When the last unhealthy probe ended. */
  function LastFailure(probes: seq<Call>): nat {
    if probes == [] then NO_TIMESTAMP
    else if probes[|probes| - 1].outcome.Unhealthy? then probes[|probes| - 1].end
    else LastFailure(probes[..|probes| - 1])
  }

  predicate LastUnwound(probes: seq<Call>) {
    probes != [] && probes[|probes| - 1].outcome.Unwound?
  }

  predicate Tripped(c: Config, probes: seq<Call>) {
    FailuresInARow(probes) >= c.threshold
  }

  function Min(a: nat, b: nat): nat {
    if a <= b then a else b
  }

  /** The state every sequence of probes leaves, said without the state machine. */
  ghost predicate Reads(c: Config, b: Breaker, probes: seq<Call>) {
    && b.failures == Min(FailuresInARow(probes), c.threshold)
    && b.circuit == (if !Tripped(c, probes) then Closed else if LastUnwound(probes) then HalfOpen else Open)
    && (Tripped(c, probes) ==> b.lastOpened == LastFailure(probes) < NO_TIMESTAMP)
  }

  ghost predicate InTime(calls: seq<Call>) {
    forall k :: 0 <= k < |calls| ==> calls[k].end < NO_TIMESTAMP
  }

  lemma ProbeReads(c: Config, b: Breaker, probes: seq<Call>, call: Call)
    requires WellBuilt(c) && Reads(c, b, probes) && Probes(c, b, call.start) && call.end < NO_TIMESTAMP
    ensures Reads(c, Probed(c, b, call), probes + [call])
  {
    assert (probes + [call])[..|probes|] == probes;
  }

  lemma {:induction false} AfterReads(c: Config, calls: seq<Call>)
    requires WellBuilt(c) && InTime(calls)
    ensures Reads(c, After(c, calls), ProbesOf(c, calls))
  {
    hide Probed, Reads, Probes;
    if calls == [] {
      assert Reads(c, INITIAL, []) by { InitialReads(c); }
    } else {
      var before := calls[..|calls| - 1];
      var last := calls[|calls| - 1];
      AfterReads(c, before);
      if Probes(c, After(c, before), last.start) {
        ProbeReads(c, After(c, before), ProbesOf(c, before), last);
      } else {
        assert ProbesOf(c, calls) == ProbesOf(c, before);
      }
    }
  }

  lemma InitialReads(c: Config)
    requires WellBuilt(c)
    ensures Reads(c, INITIAL, [])
  {
  }

  /**
   After any run of checks, the next one calls the resource exactly when fewer
   than the threshold of failures stand in a row, or the cooldown since the
   last failure has passed, or the last probe unwound.
   */
  lemma NextProbes(c: Config, calls: seq<Call>, now: nat)
    requires WellBuilt(c) && InTime(calls)
    ensures
      var probes := ProbesOf(c, calls);
      Probes(c, After(c, calls), now) <==>
        !Tripped(c, probes) || LastUnwound(probes) || now - LastFailure(probes) >= c.cooldown
  {
    AfterReads(c, calls);
  }

  /** One failure opens the circuit, and a probe that unwinds after the cooldown leaves it half open. */
  function UnwoundRun(c: Config): seq<Call> {
    [Call(0, Unhealthy, 1), Call(1 + c.cooldown, Unwound, 2 + c.cooldown)]
  }

  /** From there the next check probes at once, whenever it comes. */
  lemma UnwoundProbeStaysHalfOpen(cooldown: nat, now: nat)
    requires SECOND <= cooldown < NO_TIMESTAMP - 2
    ensures
      var c := Config(1, cooldown);
      && ProbesOf(c, UnwoundRun(c)) == UnwoundRun(c) && InTime(UnwoundRun(c))
      && After(c, UnwoundRun(c)) == Breaker(HalfOpen, 1, 1) && Probes(c, After(c, UnwoundRun(c)), now)
  {
    var c := Config(1, cooldown);
    var run := UnwoundRun(c);
    assert run[..1] == [run[0]] && run[..1][..0] == [];
    assert After(c, run[..1]) == Breaker(Open, 1, 1);
    assert ProbesOf(c, run[..1]) == [run[0]];
    assert ProbesOf(c, run) == run;
  }

  /** The circuit opens exactly at the threshold-th failure in a row, and not before. */
  lemma OpensAtThreshold(c: Config, calls: seq<Call>, call: Call)
    requires WellBuilt(c) && InTime(calls) && call.end < NO_TIMESTAMP && After(c, calls).circuit.Closed?
    ensures After(c, calls + [call]).circuit.Open? <==>
      call.outcome.Unhealthy? && FailuresInARow(ProbesOf(c, calls)) == c.threshold - 1
    ensures !After(c, calls + [call]).circuit.Open? ==> After(c, calls + [call]).circuit.Closed?
  {
    AfterReads(c, calls);
    assert (calls + [call])[..|calls|] == calls;
  }

  /** After the cooldown one probe decides: it closes the circuit or opens it afresh. */
  lemma ProbeDecides(c: Config, calls: seq<Call>, call: Call)
    requires WellBuilt(c) && InTime(calls) && After(c, calls).circuit.Open?
    requires Probes(c, After(c, calls), call.start) && !call.outcome.Unwound?
    ensures After(c, calls + [call]) ==
      if call.outcome.Healthy? then Breaker(Closed, 0, LastFailure(ProbesOf(c, calls)))
      else Breaker(Open, c.threshold, call.end)
  {
    AfterReads(c, calls);
    assert (calls + [call])[..|calls|] == calls;
  }

  /** Two probes in a row, the first of which left the circuit open, are a cooldown apart. */
  lemma {:induction false} CooldownIsKept(c: Config, calls: seq<Call>, k: nat)
    requires WellBuilt(c) && InTime(calls) && k + 1 < |ProbesOf(c, calls)|
    requires Tripped(c, ProbesOf(c, calls)[..k + 1]) && ProbesOf(c, calls)[k].outcome.Unhealthy?
    ensures ProbesOf(c, calls)[k + 1].start >= ProbesOf(c, calls)[k].end + c.cooldown
    decreases |calls|
  {
    var before := calls[..|calls| - 1];
    var earlier := ProbesOf(c, before);
    assert earlier <= ProbesOf(c, calls);
    if k + 1 < |earlier| {
      assert earlier[..k + 1] == ProbesOf(c, calls)[..k + 1];
      CooldownIsKept(c, before, k);
    } else {
      assert earlier == ProbesOf(c, calls)[..k + 1];
      NextProbes(c, before, calls[|calls| - 1].start);
    }
  }

  /** The breaker object, checked in place. */
  class HealthBreaker {
    const config: Config
    var circuit: Circuit
    var failures: nat
    var lastOpened: nat

    ghost function Value(): Breaker
      reads this
    {
      Breaker(circuit, failures, lastOpened)
    }

    constructor (threshold: nat, cooldown: nat)
      ensures config == Build(threshold, cooldown) && Value() == INITIAL
    {
      config := Build(threshold, cooldown);
      circuit, failures, lastOpened := Closed, 0, NO_TIMESTAMP;
    }

    method Reopen(now: nat)
      modifies this
      ensures Value() == OpenCircuit(old(Value()), now)
    {
      lastOpened := now;
      circuit := Open;
    }

    method CountFailure(now: nat)
      modifies this
      ensures Value() == RecordFailure(config, old(Value()), now)
    {
      if failures >= config.threshold {
        Reopen(now);
        return;
      }
      failures := failures + 1;
      if failures >= config.threshold {
        Reopen(now);
      }
    }

    method HealthCheck(call: Call) returns (called: bool, healthy: bool)
      modifies this
      ensures Value() == Check(config, old(Value()), call)
      ensures called == Probes(config, old(Value()), call.start)
      ensures healthy <==> called && call.outcome.Healthy?
    {
      called, healthy := true, call.outcome.Healthy?;
      match circuit {
        case Open =>
          var expired := lastOpened != NO_TIMESTAMP && call.start - lastOpened >= config.cooldown;
          if !expired {
            return false, false;
          }
          circuit := HalfOpen;
          ProbeHalfOpen(call);
        case HalfOpen =>
          ProbeHalfOpen(call);
        case Closed =>
          match call.outcome {
            case Healthy => failures := 0;
            case Unhealthy => CountFailure(call.end);
            case Unwound =>
          }
      }
    }

    method ProbeHalfOpen(call: Call)
      requires circuit.HalfOpen?
      modifies this
      ensures Value() == Probed(config, old(Value()), call)
    {
      match call.outcome {
        case Healthy =>
          failures := 0;
          circuit := Closed;
        case Unhealthy =>
          Reopen(call.end);
        case Unwound =>
      }
    }
  }
}
