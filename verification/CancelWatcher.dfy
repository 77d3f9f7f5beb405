/**
 The external cancellation watcher: registration displaces the one before it,
 and only the watcher that is still current when its future completes may
 request shutdown.

 Every label is one section under the watcher lock or one task event. Nothing
 relies on an abort: a displaced or stopped watcher may still be mid-poll and
 complete.
 */
module CancelWatcher {
  import opened Base

  /** A watcher is named by its registration order, as its gate identifies it. */
  type Id = nat

  datatype Pc = Parked | Watching | Completed(ok: bool) | Unwinding | Ended

  /** What `watch_cancel` still owes after it took over as current. */
  datatype Registrar = AbortOld(displaced: Option<Id>) | OpenGate | Registered

  datatype Watcher = Watcher(pc: Pc, registrar: Registrar, aborted: bool)

  datatype Sys = Sys(
    current: Option<Id>,
    watchers: seq<Watcher>,
    displaced: set<Id>,
    stopped: set<Id>,
    requested: set<Id>,
    withdrawn: set<Id>,
    panicSlot: Option<Id>)

  datatype Label =
    | Register
    | AbortDisplaced(n: Id)
    | NotifyGate(n: Id)
    | Start(n: Id)
    | Complete(n: Id, ok: bool)
    | Finish(n: Id)
    | RecordPanic(n: Id)
    | DropTask(n: Id)
    | Stop
    | StopJoinsPanic(n: Id)
    | TakePanic

  function Init(): Sys {
    Sys(None, [], {}, {}, {}, {}, None)
  }

  predicate At(s: Sys, n: Id, pc: Pc) {
    n < |s.watchers| && s.watchers[n].pc == pc
  }

  predicate Enabled(s: Sys, l: Label) {
    match l
    case Register => true
    case AbortDisplaced(n) => n < |s.watchers| && s.watchers[n].registrar.AbortOld?
    case NotifyGate(n) => n < |s.watchers| && s.watchers[n].registrar.OpenGate?
    case Start(n) => At(s, n, Parked) && s.watchers[n].registrar.Registered?
    case Complete(n, _) => At(s, n, Watching)
    case Finish(n) => n < |s.watchers| && s.watchers[n].pc.Completed?
    case RecordPanic(n) => At(s, n, Unwinding)
    case DropTask(n) => At(s, n, Parked) || At(s, n, Watching)
    case Stop => true
    case StopJoinsPanic(n) => n in s.stopped
    case TakePanic => true
  }

  function Opt(o: Option<Id>): set<Id> {
    if o.Some? then {o.value} else {}
  }

  function Moved(s: Sys, n: Id, pc: Pc): seq<Watcher>
    requires n < |s.watchers|
  {
    s.watchers[n := s.watchers[n].(pc := pc)]
  }

  function Aborted(ws: seq<Watcher>, o: Option<Id>): seq<Watcher> {
    if o.Some? && o.value < |ws| then ws[o.value := ws[o.value].(aborted := true)] else ws
  }

  /** The slot keeps the first panic until it is taken. */
  function Recorded(slot: Option<Id>, n: Id): Option<Id> {
    if slot.Some? then slot else Some(n)
  }

  function Apply(s: Sys, l: Label): Sys
    requires Enabled(s, l)
  {
    match l
    case Register =>
      s.(watchers := s.watchers + [Watcher(Parked, AbortOld(s.current), false)],
         displaced := s.displaced + Opt(s.current),
         current := Some(|s.watchers|))
    case AbortDisplaced(n) =>
      var ws := Aborted(s.watchers, s.watchers[n].registrar.displaced);
      s.(watchers := ws[n := ws[n].(registrar := OpenGate)])
    case NotifyGate(n) =>
      s.(watchers := s.watchers[n := s.watchers[n].(registrar := Registered)])
    case Start(n) => s.(watchers := Moved(s, n, Watching))
    case Complete(n, ok) => s.(watchers := Moved(s, n, Completed(ok)))
    case Finish(n) =>
      var mine := s.current == Some(n);
      if s.watchers[n].pc.ok then
        s.(watchers := Moved(s, n, Ended),
           requested := if mine then s.requested + {n} else s.requested,
           current := if mine then None else s.current)
      else
        s.(watchers := Moved(s, n, Unwinding),
           withdrawn := if mine then s.withdrawn + {n} else s.withdrawn,
           current := if mine then None else s.current)
    case RecordPanic(n) =>
      s.(watchers := Moved(s, n, Ended), panicSlot := Recorded(s.panicSlot, n))
    case DropTask(n) => s.(watchers := Moved(s, n, Ended))
    case Stop =>
      s.(stopped := s.stopped + Opt(s.current),
         watchers := Aborted(s.watchers, s.current), current := None)
    case StopJoinsPanic(n) => s.(panicSlot := Recorded(s.panicSlot, n))
    case TakePanic => s.(panicSlot := None)
  }

  ghost predicate Run(s: Sys, ls: seq<Label>, t: Sys)
    decreases |ls|
  {
    if ls == [] then s == t
    else Enabled(s, ls[0]) && Run(Apply(s, ls[0]), ls[1..], t)
  }

  ghost predicate Reachable(s: Sys) {
    exists ls :: Run(Init(), ls, s)
  }

  function One(b: bool): nat {
    if b then 1 else 0
  }

  /** How many of the five fates hold of `n`. */
  function Fates(s: Sys, n: Id): nat {
    One(s.current == Some(n)) + One(n in s.displaced) + One(n in s.stopped)
    + One(n in s.requested) + One(n in s.withdrawn)
  }

  /** Every registered watcher has exactly one fate, and nothing else has any. */
  ghost predicate Partition(s: Sys) {
    forall n: Id :: Fates(s, n) == One(n < |s.watchers|)
  }

  /** What one watcher owes to those before and after it. */
  ghost predicate WatcherOk(s: Sys, n: Id)
    requires n < |s.watchers|
  {
    var w := s.watchers[n];
    && (w.registrar.AbortOld? && w.registrar.displaced.Some? ==>
          w.registrar.displaced.value + 1 == n && w.registrar.displaced.value in s.displaced)
    && (w.pc.Watching? || w.pc.Completed? || w.pc.Unwinding? ==> w.registrar.Registered?)
    && (w.aborted ==> n in s.displaced || n in s.stopped)
    && (n in s.stopped ==> w.aborted)
    && (n in s.displaced ==>
          n + 1 < |s.watchers| && (w.aborted || s.watchers[n + 1].registrar == AbortOld(Some(n))))
  }

  ghost predicate ChainInv(s: Sys) {
    && (s.current.Some? ==> s.current.value + 1 == |s.watchers|)
    && (forall n: Id :: n < |s.watchers| ==> WatcherOk(s, n))
  }

  ghost predicate FateInv(s: Sys) {
    && Partition(s)
    && (forall n <- s.withdrawn ::
          n < |s.watchers| && (s.watchers[n].pc.Unwinding? || s.watchers[n].pc.Ended?))
    && (forall n <- s.requested :: At(s, n, Ended))
    && (forall n | 0 <= n < |s.watchers| && s.watchers[n].pc.Unwinding? :: s.current != Some(n))
  }

  ghost predicate Inv(s: Sys) {
    FateInv(s) && ChainInv(s)
  }

  lemma ChainAt(s: Sys, l: Label, n: Id)
    requires Enabled(s, l) && n < |Apply(s, l).watchers|
    requires s.current.Some? ==> s.current.value + 1 == |s.watchers|
    requires n < |s.watchers| ==> WatcherOk(s, n)
    requires n == |s.watchers| ==> n !in s.displaced && n !in s.stopped
    requires l.AbortDisplaced? ==> WatcherOk(s, l.n)
    ensures WatcherOk(Apply(s, l), n)
  {
  }

  lemma ChainStep(s: Sys, l: Label)
    requires Inv(s) && Enabled(s, l)
    ensures ChainInv(Apply(s, l))
  {
    var t := Apply(s, l);
    assert |t.watchers| == |s.watchers| + One(l.Register?);
    assert t.current.Some? ==> t.current.value + 1 == |t.watchers|;
    forall n: Id | n < |t.watchers| ensures WatcherOk(t, n) {
      assert Fates(s, n) == One(n < |s.watchers|);
      hide Apply, WatcherOk, Partition, FateInv;
      ChainAt(s, l, n);
    }
  }

  lemma StepInv(s: Sys, l: Label)
    requires Inv(s) && Enabled(s, l)
    ensures Inv(Apply(s, l))
  {
    FateStep(s, l);
    ChainStep(s, l);
  }

  lemma FateStep(s: Sys, l: Label)
    requires FateInv(s) && Enabled(s, l)
    ensures FateInv(Apply(s, l))
  {
    var t := Apply(s, l);
    forall n: Id ensures Fates(t, n) == One(n < |t.watchers|) {
      assert Fates(s, n) == One(n < |s.watchers|);
    }
  }

  /** The sets only grow, and only a completed current watcher enters `requested`. */
  ghost predicate Forward(s: Sys, t: Sys) {
    && |s.watchers| <= |t.watchers|
    && s.displaced <= t.displaced && s.stopped <= t.stopped
    && s.requested <= t.requested && s.withdrawn <= t.withdrawn
  }

  lemma {:induction false} RunForward(s: Sys, ls: seq<Label>, t: Sys)
    requires Inv(s) && Run(s, ls, t)
    ensures Inv(t) && Forward(s, t)
    ensures s.panicSlot.Some? && (forall l <- ls :: !l.TakePanic?) ==> t.panicSlot == s.panicSlot
    decreases |ls|
  {
    if ls != [] {
      StepInv(s, ls[0]);
      RunForward(Apply(s, ls[0]), ls[1..], t);
    }
  }

  lemma ReachableInv(s: Sys)
    requires Reachable(s)
    ensures Inv(s)
  {
    var ls :| Run(Init(), ls, s);
    RunForward(Init(), ls, s);
  }

  /** A shutdown request comes from the watcher current at that very step. */
  lemma OnlyCurrentRequests(s: Sys, l: Label, n: Id)
    requires Reachable(s) && Enabled(s, l)
    ensures n in Apply(s, l).requested && n !in s.requested <==>
      l == Finish(n) && s.watchers[n].pc == Completed(true) && s.current == Some(n)
  {
    ReachableInv(s);
  }

  /** Displaced, stopped or panicked: no continuation lets it shut down. */
  lemma SupersededNeverRequests(s: Sys, ls: seq<Label>, t: Sys, n: Id)
    requires Reachable(s) && Run(s, ls, t)
    requires n in s.displaced + s.stopped + s.withdrawn
    ensures n !in t.requested && t.current != Some(n)
  {
    ReachableInv(s);
    RunForward(s, ls, t);
    assert Fates(t, n) == One(n < |t.watchers|);
  }

  /** A watcher whose future panicked fills the panic slot and shuts nothing down. */
  lemma PanicOnlyRecords(s: Sys, ls: seq<Label>, t: Sys, n: Id)
    requires Reachable(s) && At(s, n, Unwinding) && Run(s, ls, t)
    ensures n !in t.requested
    ensures Apply(s, RecordPanic(n)).panicSlot == if s.panicSlot.Some? then s.panicSlot else Some(n)
    ensures Apply(s, RecordPanic(n)).requested == s.requested
  {
    ReachableInv(s);
    assert Fates(s, n) == 1;
    SupersededNeverRequests(s, ls, t, n);
  }

  /** Of any two registrations, the later one made the earlier one not current. */
  lemma AtMostOneCurrent(s: Sys, n: Id)
    requires Reachable(s) && n + 1 < |s.watchers|
    ensures n in s.displaced + s.stopped + s.requested + s.withdrawn
  {
    ReachableInv(s);
    hide ChainInv;
    LatestIsCurrent(s);
    assert Fates(s, n) == 1;
  }

  /**
   Only the latest registration is current, and only a later one displaces. So a
   watcher whose future completed is current exactly when none came after it and
   no stop took it.
   */
  lemma LatestIsCurrent(s: Sys)
    requires Reachable(s)
    ensures s.current.Some? ==> s.current.value + 1 == |s.watchers|
    ensures forall n <- s.displaced :: n + 1 < |s.watchers|
    ensures forall n: Id | n < |s.watchers| && s.watchers[n].pc.Completed? ::
      s.current == Some(n) <==> n + 1 == |s.watchers| && n !in s.stopped
  {
    ReachableInv(s);
    forall n <- s.displaced ensures n + 1 < |s.watchers| {
      assert Fates(s, n) == One(n < |s.watchers|);
      assert WatcherOk(s, n);
    }
    forall n: Id | n < |s.watchers| && s.watchers[n].pc.Completed?
      ensures s.current == Some(n) <==> n + 1 == |s.watchers| && n !in s.stopped
    {
      assert Fates(s, n) == 1 && WatcherOk(s, n);
    }
  }

  /** A displaced watcher is aborted, or its successor is about to; a stopped one is; nobody else is. */
  lemma AbortedExactly(s: Sys, n: Id)
    requires Reachable(s) && n < |s.watchers|
    ensures s.watchers[n].aborted ==> n in s.displaced || n in s.stopped
    ensures n in s.stopped ==> s.watchers[n].aborted
    ensures n in s.displaced ==>
      n + 1 < |s.watchers| && (s.watchers[n].aborted || s.watchers[n + 1].registrar == AbortOld(Some(n)))
  {
    ReachableInv(s);
    assert WatcherOk(s, n);
  }

  /** Watchers come from registrations, stops from `Stop`, requests from normal completions. */
  lemma {:induction false} ChangesHaveSteps(s: Sys, ls: seq<Label>, t: Sys)
    requires Run(s, ls, t)
    ensures Register !in ls ==> |t.watchers| == |s.watchers|
    ensures Stop !in ls ==> t.stopped == s.stopped
    ensures forall n <- t.requested :: n in s.requested || At(s, n, Completed(true)) || Complete(n, true) in ls
    decreases |ls|
  {
    if ls != [] {
      ChangesHaveSteps(Apply(s, ls[0]), ls[1..], t);
    }
  }

  /** What the slot holds after `ls`: the first panic since it was last taken. */
  function FirstPanic(slot: Option<Id>, ls: seq<Label>): Option<Id>
    decreases |ls|
  {
    if ls == [] then slot
    else
      match ls[0]
      case TakePanic => FirstPanic(None, ls[1..])
      case RecordPanic(n) => FirstPanic(if slot.Some? then slot else Some(n), ls[1..])
      case StopJoinsPanic(n) => FirstPanic(if slot.Some? then slot else Some(n), ls[1..])
      case _ => FirstPanic(slot, ls[1..])
  }

  lemma {:induction false} SlotIsFirstPanic(s: Sys, ls: seq<Label>, t: Sys)
    requires Run(s, ls, t)
    ensures t.panicSlot == FirstPanic(s.panicSlot, ls)
    decreases |ls|
  {
    if ls != [] {
      SlotIsFirstPanic(Apply(s, ls[0]), ls[1..], t);
    }
  }

  /** A watcher whose future panicked is over only once that panic has been recorded. */
  lemma {:induction false} PanicIsRecorded(s: Sys, ls: seq<Label>, t: Sys, n: Id)
    requires At(s, n, Completed(false)) || At(s, n, Unwinding)
    requires Run(s, ls, t) && At(t, n, Ended)
    ensures RecordPanic(n) in ls
    decreases |ls|
  {
    if ls[0] != RecordPanic(n) {
      PanicIsRecorded(Apply(s, ls[0]), ls[1..], t, n);
    }
  }

  lemma {:induction false} EndedForever(s: Sys, ls: seq<Label>, t: Sys, n: Id)
    requires At(s, n, Ended) && Run(s, ls, t)
    ensures At(t, n, Ended) && (n in t.requested <==> n in s.requested)
    decreases |ls|
  {
    if ls != [] {
      EndedForever(Apply(s, ls[0]), ls[1..], t, n);
    }
  }

  /** A watcher dropped before its future completed is over, and never requests. */
  lemma DroppedNeverRequests(s: Sys, n: Id, ls: seq<Label>, t: Sys)
    requires Reachable(s) && Enabled(s, DropTask(n)) && Run(Apply(s, DropTask(n)), ls, t)
    ensures At(t, n, Ended) && n !in t.requested
  {
    ReachableInv(s);
    hide ChainInv, Partition;
    EndedForever(Apply(s, DropTask(n)), ls, t, n);
  }

  /** After a stop, nothing registered before it requests any more. */
  lemma StopIsFinal(s: Sys, ls: seq<Label>, t: Sys, n: Id)
    requires Reachable(s) && Run(Apply(s, Stop), ls, t) && n < |s.watchers|
    ensures n in t.requested <==> n in s.requested
    ensures t.current != Some(n)
  {
    ReachableInv(s);
    var r := Apply(s, Stop);
    StepInv(s, Stop);
    RunForward(r, ls, t);
    assert Fates(s, n) == 1 && Fates(r, n) == 1 && Fates(t, n) == 1;
    hide Inv, Apply, Run;
  }

  /**
   A current watcher whose future completes normally requests shutdown, unless a
   later registration or a stop came first.
   */
  lemma CurrentRequests(s: Sys, ls: seq<Label>, t: Sys, n: Id)
    requires Reachable(s) && s.current == Some(n)
    requires Run(s, ls, t) && Register !in ls && Stop !in ls && At(t, n, Completed(true))
    ensures n in Apply(t, Finish(n)).requested && Apply(t, Finish(n)).current.None?
  {
    ReachableInv(s);
    RunForward(s, ls, t);
    ChangesHaveSteps(s, ls, t);
    assert Fates(s, n) == 1 && Fates(t, n) == 1 && WatcherOk(t, n);
  }

  /** From registration to request: a watcher left alone goes all the way. */
  function WholeLife(n: Id): seq<Label> {
    [Register, AbortDisplaced(n), NotifyGate(n), Start(n), Complete(n, true), Finish(n)]
  }

  /** `s` after its next watcher took over, with that watcher as it stands. */
  function Succeeded(s: Sys, w: Watcher): Sys {
    s.(current := Some(|s.watchers|), displaced := s.displaced + Opt(s.current),
       watchers := Aborted(s.watchers, s.current) + [w])
  }

  lemma RegisterTakesOver(s: Sys)
    requires s.current.Some? ==> s.current.value < |s.watchers|
    ensures
      var t := Apply(s, Register);
      Enabled(t, AbortDisplaced(|s.watchers|))
      && Apply(t, AbortDisplaced(|s.watchers|)) == Succeeded(s, Watcher(Parked, OpenGate, false))
  {
    var t := Apply(s, Register);
    assert Apply(t, AbortDisplaced(|s.watchers|)).watchers ==
      Aborted(s.watchers, s.current) + [Watcher(Parked, OpenGate, false)];
  }

  lemma LivesOn(s: Sys)
    ensures
      var n := |s.watchers|;
      var s2 := Succeeded(s, Watcher(Parked, OpenGate, false));
      var s3 := Succeeded(s, Watcher(Parked, Registered, false));
      var s4 := Succeeded(s, Watcher(Watching, Registered, false));
      && Enabled(s2, NotifyGate(n)) && Apply(s2, NotifyGate(n)) == s3
      && Enabled(s3, Start(n)) && Apply(s3, Start(n)) == s4
      && Enabled(s4, Complete(n, true))
      && Apply(s4, Complete(n, true)) == Succeeded(s, Watcher(Completed(true), Registered, false))
  {
    var ws := Aborted(s.watchers, s.current);
    assert |ws| == |s.watchers|;
    assert forall w, v: Watcher :: (ws + [w])[|ws| := v] == ws + [v];
  }

  lemma FinishRequests(s: Sys)
    ensures
      var n := |s.watchers|;
      var s5 := Succeeded(s, Watcher(Completed(true), Registered, false));
      && Enabled(s5, Finish(n))
      && Apply(s5, Finish(n)) == s.(current := None, requested := s.requested + {n},
           displaced := s.displaced + Opt(s.current),
           watchers := Aborted(s.watchers, s.current) + [Watcher(Ended, Registered, false)])
  {
    var ws := Aborted(s.watchers, s.current);
    assert |ws| == |s.watchers|;
    assert forall w, v: Watcher :: (ws + [w])[|ws| := v] == ws + [v];
  }

  lemma LeftAloneRequests(s: Sys) returns (t: Sys)
    requires Reachable(s)
    ensures
      var n := |s.watchers|;
      && Run(s, WholeLife(n), t)
      && t == s.(current := None, requested := s.requested + {n}, displaced := s.displaced + Opt(s.current),
                 watchers := Aborted(s.watchers, s.current) + [Watcher(Ended, Registered, false)])
  {
    ReachableInv(s);
    var n := |s.watchers|;
    RegisterTakesOver(s);
    LivesOn(s);
    FinishRequests(s);
    assert Enabled(s, Register);
    hide Enabled, Apply, Succeeded, Inv, Reachable, Aborted, Opt;
    var s1 := Apply(s, Register);
    var s2 := Apply(s1, AbortDisplaced(n));
    var s3 := Apply(s2, NotifyGate(n));
    var s4 := Apply(s3, Start(n));
    var s5 := Apply(s4, Complete(n, true));
    t := Apply(s5, Finish(n));
    var ls := WholeLife(n);
    assert ls[1..][1..] == ls[2..] && ls[2..][1..] == ls[3..] && ls[3..][1..] == ls[4..] && ls[4..][1..] == ls[5..];
    assert ls[5..][1..] == [];
    assert Run(s5, ls[5..], t);
    assert Run(s4, ls[4..], t);
    assert Run(s3, ls[3..], t);
    assert Run(s2, ls[2..], t);
    assert Run(s1, ls[1..], t);
  }
}
