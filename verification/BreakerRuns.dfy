/**
 Every interleaving of overlapping health checks, one atomic load, store or
 compare-exchange to a step, with any number of callers.
 */
module BreakerRuns {
  import opened CircuitBreaker

  type Caller = nat

  /** Where one caller stands; each holds what it has loaded so far. */
  datatype Pc =
    | Idle
    | ProbingClosed | ResettingFailures | LoadingFailures | ExchangingFailures(prev: nat)
    | LoadingStamp | ExchangingCircuit
    | ProbingHalfOpen | ResettingHalfOpen | StoringClosed
    | Stamping | StoringOpen

  datatype Sys = Sys(config: Config, circuit: Circuit, failures: nat, lastOpened: nat, callers: map<Caller, Pc>)

  /** One step of a caller; `now` is the clock it reads, `outcome` what its probe answers. */
  datatype Label = Label(caller: Caller, now: nat, outcome: Outcome)

  function Init(config: Config): Sys {
    Sys(config, Closed, 0, NO_TIMESTAMP, map[])
  }

  function At(s: Sys, caller: Caller): Pc {
    if caller in s.callers then s.callers[caller] else Idle
  }

  function Move(s: Sys, caller: Caller, pc: Pc): Sys {
    s.(callers := s.callers[caller := pc])
  }

  function Apply(s: Sys, l: Label): Sys {
    match At(s, l.caller)
    case Idle =>
      Move(s, l.caller, match s.circuit case Open => LoadingStamp case HalfOpen => ProbingHalfOpen case Closed => ProbingClosed)
    case ProbingClosed =>
      Move(s, l.caller,
           match l.outcome case Healthy => ResettingFailures case Unhealthy => LoadingFailures case Unwound => Idle)
    case ResettingFailures => Move(s.(failures := 0), l.caller, Idle)
    case LoadingFailures =>
      Move(s, l.caller, if s.failures >= s.config.threshold then Stamping else ExchangingFailures(s.failures))
    case ExchangingFailures(prev) =>
      if s.failures == prev then
        Move(s.(failures := prev + 1), l.caller, if prev + 1 >= s.config.threshold then Stamping else Idle)
      else Move(s, l.caller, LoadingFailures)
    case LoadingStamp =>
      var expired := s.lastOpened != NO_TIMESTAMP && l.now - s.lastOpened >= s.config.cooldown;
      Move(s, l.caller, if expired then ExchangingCircuit else Idle)
    case ExchangingCircuit =>
      if s.circuit.Open? then Move(s.(circuit := HalfOpen), l.caller, ProbingHalfOpen) else Move(s, l.caller, Idle)
    case ProbingHalfOpen =>
      Move(s, l.caller,
           match l.outcome case Healthy => ResettingHalfOpen case Unhealthy => Stamping case Unwound => Idle)
    case ResettingHalfOpen => Move(s.(failures := 0), l.caller, StoringClosed)
    case StoringClosed => Move(s.(circuit := Closed), l.caller, Idle)
    case Stamping => Move(s.(lastOpened := l.now), l.caller, StoringOpen)
    case StoringOpen => Move(s.(circuit := Open), l.caller, Idle)
  }

  ghost predicate Run(s: Sys, ls: seq<Label>, t: Sys)
    decreases |ls|
  {
    if ls == [] then s == t
    else ls[0].now < NO_TIMESTAMP && Run(Apply(s, ls[0]), ls[1..], t)
  }

  ghost predicate Reachable(config: Config, s: Sys) {
    exists ls :: Run(Init(config), ls, s)
  }

  /** Past these points the circuit has been stamped open at least once. */
  predicate PastStamp(pc: Pc) {
    match pc
    case StoringOpen => true
    case LoadingStamp => true
    case ExchangingCircuit => true
    case ProbingHalfOpen => true
    case ResettingHalfOpen => true
    case StoringClosed => true
    case _ => false
  }

  ghost predicate CallerInv(s: Sys, pc: Pc) {
    && (pc.ExchangingFailures? ==> pc.prev < s.config.threshold)
    && (PastStamp(pc) ==> s.lastOpened != NO_TIMESTAMP)
  }

  ghost predicate Inv(s: Sys) {
    && s.failures <= s.config.threshold
    && (!s.circuit.Closed? ==> s.lastOpened != NO_TIMESTAMP)
    && forall caller <- s.callers :: CallerInv(s, s.callers[caller])
  }

  lemma StepInv(s: Sys, l: Label)
    requires Inv(s) && l.now < NO_TIMESTAMP
    ensures Inv(Apply(s, l)) && Apply(s, l).config == s.config
    ensures s.lastOpened != NO_TIMESTAMP ==> Apply(s, l).lastOpened != NO_TIMESTAMP
  {
    assert CallerInv(s, At(s, l.caller));
  }

  lemma {:induction false} RunInv(s: Sys, ls: seq<Label>, t: Sys)
    requires Inv(s) && Run(s, ls, t)
    ensures Inv(t) && t.config == s.config
    decreases |ls|
  {
    if ls != [] {
      StepInv(s, ls[0]);
      RunInv(Apply(s, ls[0]), ls[1..], t);
    }
  }

  /** However checks overlap, the counter never passes the threshold. */
  lemma CounterIsBounded(config: Config, s: Sys)
    requires Reachable(config, s)
    ensures s.failures <= config.threshold
  {
    var ls :| Run(Init(config), ls, s);
    RunInv(Init(config), ls, s);
  }

  /** A caller that observed the circuit open reads a recorded time, however late it reads it. */
  lemma ObservedOpenIsStamped(config: Config, s: Sys, caller: Caller)
    requires Reachable(config, s)
    ensures !s.circuit.Closed? || At(s, caller).LoadingStamp? ==> s.lastOpened != NO_TIMESTAMP
  {
    var ls :| Run(Init(config), ls, s);
    RunInv(Init(config), ls, s);
    assert caller in s.callers ==> CallerInv(s, s.callers[caller]);
  }

  predicate Counting(pc: Pc) {
    pc.LoadingFailures? || pc.ExchangingFailures?
  }

  /** A caller whose probe failed leaves only once that failure is counted, or the count is full. */
  lemma FailureIsCounted(s: Sys, l: Label)
    requires Counting(At(s, l.caller))
    ensures
      var t := Apply(s, l);
      || Counting(At(t, l.caller))
      || (At(t, l.caller).Idle? && t.failures == s.failures + 1 < s.config.threshold)
      || (At(t, l.caller).Stamping? && t.failures >= s.config.threshold)
    ensures
      var t := Apply(s, l);
      t.circuit == s.circuit && t.lastOpened == s.lastOpened && s.failures <= t.failures
  {
  }

  /** Of two callers that found the cooldown over, one probes and the other leaves. */
  lemma OneOfTwoProbes(s: Sys, a: Label, b: Label)
    requires a.caller != b.caller && s.circuit.Open?
    requires At(s, a.caller).ExchangingCircuit? && At(s, b.caller).ExchangingCircuit?
    ensures
      var t := Apply(Apply(s, a), b);
      t.circuit.HalfOpen? && At(t, a.caller).ProbingHalfOpen? && At(t, b.caller).Idle?
  {
  }

  // ---------- one caller at a time ----------

  function BreakerOf(s: Sys): Breaker {
    Breaker(s.circuit, s.failures, s.lastOpened)
  }

  /** `t` is `s` with another breaker, and `caller` somewhere else. */
  function Became(s: Sys, b: Breaker, caller: Caller, pc: Pc): Sys {
    Sys(s.config, b.circuit, b.failures, b.lastOpened, s.callers[caller := pc])
  }

  lemma Joined(s: Sys, l: Label, ls: seq<Label>, t: Sys)
    requires l.now < NO_TIMESTAMP && Run(Apply(s, l), ls, t)
    ensures Run(s, [l] + ls, t)
  {
    hide Apply;
    assert ([l] + ls)[1..] == ls;
  }

  /** A caller about to stamp opens the circuit at the time it then reads. */
  lemma StampsAlone(s: Sys, b: Breaker, caller: Caller, call: Call) returns (ls: seq<Label>)
    requires call.end < NO_TIMESTAMP
    ensures Run(Became(s, b, caller, Stamping), ls, Became(s, OpenCircuit(b, call.end), caller, Idle))
    ensures forall l <- ls :: l.caller == caller
  {
    var l := Label(caller, call.end, call.outcome);
    var s1 := Became(s, b, caller, Stamping);
    var s2 := Apply(s1, l);
    assert s2 == Became(s, b.(lastOpened := call.end), caller, StoringOpen);
    assert Apply(s2, l) == Became(s, OpenCircuit(b, call.end), caller, Idle);
    Joined(s2, l, [], Apply(s2, l));
    Joined(s1, l, [l] + [], Apply(s2, l));
    ls := [l] + ([l] + []);
  }

  lemma HalfOpenAlone(s: Sys, b: Breaker, caller: Caller, call: Call) returns (ls: seq<Label>)
    requires call.end < NO_TIMESTAMP && b.circuit.HalfOpen?
    ensures Run(Became(s, b, caller, ProbingHalfOpen), ls, Became(s, Probed(s.config, b, call), caller, Idle))
    ensures forall l <- ls :: l.caller == caller
  {
    var l := Label(caller, call.end, call.outcome);
    var s1 := Became(s, b, caller, ProbingHalfOpen);
    match call.outcome {
      case Unwound =>
        assert Apply(s1, l) == Became(s, b, caller, Idle);
        Joined(s1, l, [], Apply(s1, l));
        ls := [l] + [];
      case Unhealthy =>
        assert Apply(s1, l) == Became(s, b, caller, Stamping);
        var rest := StampsAlone(s, b, caller, call);
        Joined(s1, l, rest, Became(s, OpenCircuit(b, call.end), caller, Idle));
        ls := [l] + rest;
      case Healthy =>
        var s2 := Apply(s1, l);
        assert s2 == Became(s, b, caller, ResettingHalfOpen);
        var s3 := Apply(s2, l);
        assert s3 == Became(s, b.(failures := 0), caller, StoringClosed);
        var t := Apply(s3, l);
        assert t == Became(s, b.(failures := 0, circuit := Closed), caller, Idle);
        Joined(s3, l, [], t);
        Joined(s2, l, [l] + [], t);
        Joined(s1, l, [l] + ([l] + []), t);
        ls := [l] + ([l] + ([l] + []));
    }
  }

  lemma CountsAlone(s: Sys, b: Breaker, caller: Caller, call: Call) returns (ls: seq<Label>)
    requires call.end < NO_TIMESTAMP
    ensures Run(Became(s, b, caller, LoadingFailures), ls, Became(s, RecordFailure(s.config, b, call.end), caller, Idle))
    ensures forall l <- ls :: l.caller == caller
  {
    var l := Label(caller, call.end, call.outcome);
    var s1 := Became(s, b, caller, LoadingFailures);
    var s2 := Apply(s1, l);
    if b.failures >= s.config.threshold {
      assert s2 == Became(s, b, caller, Stamping);
      var rest := StampsAlone(s, b, caller, call);
      Joined(s1, l, rest, Became(s, OpenCircuit(b, call.end), caller, Idle));
      ls := [l] + rest;
    } else {
      assert s2 == Became(s, b, caller, ExchangingFailures(b.failures));
      var counted := b.(failures := b.failures + 1);
      var s3 := Apply(s2, l);
      if counted.failures >= s.config.threshold {
        assert s3 == Became(s, counted, caller, Stamping);
        var rest := StampsAlone(s, counted, caller, call);
        Joined(s2, l, rest, Became(s, OpenCircuit(counted, call.end), caller, Idle));
        Joined(s1, l, [l] + rest, Became(s, OpenCircuit(counted, call.end), caller, Idle));
        ls := [l] + ([l] + rest);
      } else {
        assert s3 == Became(s, counted, caller, Idle);
        Joined(s2, l, [], s3);
        Joined(s1, l, [l] + [], s3);
        ls := [l] + ([l] + []);
      }
    }
  }

  lemma ClosedAlone(s: Sys, b: Breaker, caller: Caller, call: Call) returns (ls: seq<Label>)
    requires call.end < NO_TIMESTAMP && b.circuit.Closed?
    ensures Run(Became(s, b, caller, ProbingClosed), ls, Became(s, Probed(s.config, b, call), caller, Idle))
    ensures forall l <- ls :: l.caller == caller
  {
    var l := Label(caller, call.end, call.outcome);
    var s1 := Became(s, b, caller, ProbingClosed);
    var s2 := Apply(s1, l);
    match call.outcome {
      case Unwound =>
        assert s2 == Became(s, b, caller, Idle);
        Joined(s1, l, [], s2);
        ls := [l] + [];
      case Unhealthy =>
        assert s2 == Became(s, b, caller, LoadingFailures);
        var rest := CountsAlone(s, b, caller, call);
        Joined(s1, l, rest, Became(s, RecordFailure(s.config, b, call.end), caller, Idle));
        ls := [l] + rest;
      case Healthy =>
        assert s2 == Became(s, b, caller, ResettingFailures);
        assert Apply(s2, l) == Became(s, b.(failures := 0), caller, Idle);
        Joined(s2, l, [], Apply(s2, l));
        Joined(s1, l, [l] + [], Apply(s2, l));
        ls := [l] + ([l] + []);
    }
  }

  lemma OpenAlone(s: Sys, b: Breaker, caller: Caller, call: Call) returns (ls: seq<Label>)
    requires call.start < NO_TIMESTAMP && call.end < NO_TIMESTAMP && b.circuit.Open?
    ensures Run(Became(s, b, caller, LoadingStamp), ls, Became(s, Check(s.config, b, call), caller, Idle))
    ensures forall l <- ls :: l.caller == caller
  {
    var l := Label(caller, call.start, call.outcome);
    var s1 := Became(s, b, caller, LoadingStamp);
    var s2 := Apply(s1, l);
    if CooldownExpired(s.config, b, call.start) {
      assert s2 == Became(s, b, caller, ExchangingCircuit);
      var half := b.(circuit := HalfOpen);
      assert Apply(s2, l) == Became(s, half, caller, ProbingHalfOpen);
      var rest := HalfOpenAlone(s, half, caller, call);
      assert Probed(s.config, half, call) == Check(s.config, b, call);
      Joined(s2, l, rest, Became(s, Check(s.config, b, call), caller, Idle));
      Joined(s1, l, [l] + rest, Became(s, Check(s.config, b, call), caller, Idle));
      ls := [l] + ([l] + rest);
    } else {
      assert s2 == Became(s, b, caller, Idle);
      Joined(s1, l, [], s2);
      ls := [l] + [];
    }
  }

  /**
   A check nobody interferes with is the sequential one: its own atomic steps, run
   together, take the breaker exactly where one whole check would.
   */
  lemma LoneCheckIsAtomic(s: Sys, caller: Caller, call: Call) returns (ls: seq<Label>, t: Sys)
    requires call.start < NO_TIMESTAMP && call.end < NO_TIMESTAMP && At(s, caller).Idle?
    ensures Run(s, ls, t) && forall l <- ls :: l.caller == caller
    ensures t == Became(s, Check(s.config, BreakerOf(s), call), caller, Idle)
  {
    hide Check, Probed;
    var b := BreakerOf(s);
    var l := Label(caller, call.start, call.outcome);
    var rest: seq<Label>;
    t := Became(s, Check(s.config, b, call), caller, Idle);
    match s.circuit {
      case Open =>
        assert Apply(s, l) == Became(s, b, caller, LoadingStamp);
        rest := OpenAlone(s, b, caller, call);
      case HalfOpen =>
        assert Apply(s, l) == Became(s, b, caller, ProbingHalfOpen);
        rest := HalfOpenAlone(s, b, caller, call);
        assert Check(s.config, b, call) == Probed(s.config, b, call) by { ProbesUnlessOpen(s.config, b, call); }
      case Closed =>
        assert Apply(s, l) == Became(s, b, caller, ProbingClosed);
        rest := ClosedAlone(s, b, caller, call);
        assert Check(s.config, b, call) == Probed(s.config, b, call) by { ProbesUnlessOpen(s.config, b, call); }
    }
    Joined(s, l, rest, t);
    ls := [l] + rest;
  }

  lemma ProbesUnlessOpen(c: Config, b: Breaker, call: Call)
    requires !b.circuit.Open?
    ensures Check(c, b, call) == Probed(c, b, call)
  {
  }
}
