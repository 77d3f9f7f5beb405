/**
 A latch that stays fired: its flag and its waiters, stepped at the
 grain at which `fire` and `wait_observed` can interleave.

 Tokio's `Notify` appears through its documented effect: `notify_waiters` wakes
 exactly the waiters enabled at that moment, and a registration made later is
 not woken by it.
 */
module Latch {

  /**
   One call of `wait_observed`. `Enabled` has registered and not yet read the
   flag; `Asleep` has read it false. Both carry whether a wake is pending.
   */
  datatype Waiter = Outside | Enabled(woken: bool) | Asleep(woken: bool) | Returned

  /** One call of `fire`: the store, then the notification. */
  datatype Firer = Storing | Notifying | Fired

  datatype Signal = Signal(fired: bool, waiters: seq<Waiter>, firers: seq<Firer>)

  datatype Label =
    | NewWaiter | NewFirer
    | Enable(w: nat) | Read(w: nat) | Wake(w: nat)
    | Store(f: nat) | Notify(f: nat)

  predicate Enabled?(s: Signal, l: Label) {
    match l
    case NewWaiter => true
    case NewFirer => true
    case Enable(w) => w < |s.waiters| && s.waiters[w].Outside?
    case Read(w) => w < |s.waiters| && s.waiters[w].Enabled?
    case Wake(w) => w < |s.waiters| && s.waiters[w] == Asleep(true)
    case Store(f) => f < |s.firers| && s.firers[f].Storing?
    case Notify(f) => f < |s.firers| && s.firers[f].Notifying?
  }

  function Woken(w: Waiter): Waiter {
    match w
    case Enabled(_) => Enabled(true)
    case Asleep(_) => Asleep(true)
    case _ => w
  }

  function Apply(s: Signal, l: Label): Signal
    requires Enabled?(s, l)
  {
    match l
    case NewWaiter => s.(waiters := s.waiters + [Outside])
    case NewFirer => s.(firers := s.firers + [Storing])
    case Enable(w) => s.(waiters := s.waiters[w := Enabled(false)])
    // A wake that came before the read is consumed by the sleep it precedes.
    case Read(w) =>
      s.(waiters := s.waiters[w := if s.fired then Returned else Asleep(s.waiters[w].woken)])
    case Wake(w) => s.(waiters := s.waiters[w := Outside])
    case Store(f) => s.(fired := true, firers := s.firers[f := Notifying])
    case Notify(f) =>
      s.(waiters := seq(|s.waiters|, i requires 0 <= i < |s.waiters| => Woken(s.waiters[i])),
         firers := s.firers[f := Fired])
  }

  ghost predicate Run(s: Signal, ls: seq<Label>, t: Signal)
    decreases |ls|
  {
    if ls == [] then s == t
    else Enabled?(s, ls[0]) && Run(Apply(s, ls[0]), ls[1..], t)
  }

  function Init(): Signal {
    Signal(false, [], [])
  }

  ghost predicate Reachable(s: Signal) {
    exists ls :: Run(Init(), ls, s)
  }

  predicate FireCompleted(s: Signal) {
    exists f :: 0 <= f < |s.firers| && s.firers[f].Fired?
  }

  ghost predicate Inv(s: Signal) {
    && (forall f :: 0 <= f < |s.firers| && !s.firers[f].Storing? ==> s.fired)
    && (s.fired ==> exists f :: 0 <= f < |s.firers| && !s.firers[f].Storing?)
    && (forall w :: 0 <= w < |s.waiters| && s.waiters[w].Returned? ==> s.fired)
    && (forall w :: 0 <= w < |s.waiters| && (s.waiters[w] == Asleep(true) || s.waiters[w] == Enabled(true)) ==> s.fired)
    && (FireCompleted(s) ==>
          forall w :: 0 <= w < |s.waiters| ==> s.waiters[w] != Asleep(false))
  }

  lemma StepInv(s: Signal, l: Label)
    requires Inv(s) && Enabled?(s, l)
    ensures Inv(Apply(s, l))
  {
    var t := Apply(s, l);
    if s.fired {
      var f :| 0 <= f < |s.firers| && !s.firers[f].Storing?;
      assert !t.firers[f].Storing?;
    }
    if l.Store? { assert !t.firers[l.f].Storing?; }
    if FireCompleted(t) && !l.Notify? {
      var f :| 0 <= f < |t.firers| && t.firers[f].Fired?;
      assert s.firers[f].Fired?;
    }
  }

  lemma {:induction false} RunInv(s: Signal, ls: seq<Label>, t: Signal)
    requires Inv(s) && Run(s, ls, t)
    ensures Inv(t)
    decreases |ls|
  {
    if ls != [] {
      StepInv(s, ls[0]);
      RunInv(Apply(s, ls[0]), ls[1..], t);
    }
  }

  /** No lost wakeup, and no return before the latch fired. */
  lemma NoLostWakeup(s: Signal, w: nat)
    requires Reachable(s) && w < |s.waiters|
    ensures FireCompleted(s) && s.waiters[w].Asleep? ==> Enabled?(s, Wake(w))
    ensures s.waiters[w].Returned? || s.waiters[w] == Asleep(true) ==> s.fired
    ensures s.fired ==> exists f :: 0 <= f < |s.firers| && !s.firers[f].Storing?
  {
    var ls :| Run(Init(), ls, s);
    RunInv(Init(), ls, s);
  }

  // ---------- progress: a waiter is never stuck once a fire completed ----------

  /** How many of its own steps a waiter still needs. */
  function Owed(w: Waiter): nat {
    match w
    case Asleep(_) => 3
    case Outside => 2
    case Enabled(_) => 1
    case Returned => 0
  }

  /** The one step this waiter takes next. */
  function Own(s: Signal, w: nat): Label
    requires w < |s.waiters|
  {
    match s.waiters[w]
    case Outside => Enable(w)
    case Enabled(_) => Read(w)
    case _ => Wake(w)
  }

  /**
   After a completed fire a waiter that has not returned can always take its own
   next step, that step brings it closer, and no other process sets it back.
   */
  lemma WaiterProgress(s: Signal, w: nat, l: Label)
    requires Reachable(s) && FireCompleted(s) && w < |s.waiters|
    requires !s.waiters[w].Returned? && Enabled?(s, l)
    ensures Enabled?(s, Own(s, w))
    ensures Owed(Apply(s, Own(s, w)).waiters[w]) < Owed(s.waiters[w])
    ensures Owed(Apply(s, l).waiters[w]) <= Owed(s.waiters[w])
    ensures FireCompleted(Apply(s, l))
  {
    var ls :| Run(Init(), ls, s);
    RunInv(Init(), ls, s);
    var f :| 0 <= f < |s.firers| && s.firers[f].Fired?;
    assert Apply(s, l).firers[f].Fired?;
  }

  function OwnSteps(ls: seq<Label>, w: nat): nat {
    if ls == [] then 0
    else
      (if (ls[0].Enable? || ls[0].Read? || ls[0].Wake?) && ls[0].w == w then 1 else 0)
      + OwnSteps(ls[1..], w)
  }

  /** So at most three own steps after a completed fire, every waiter returns. */
  lemma {:induction false} WaiterReturns(s: Signal, ls: seq<Label>, t: Signal, w: nat)
    requires Inv(s) && FireCompleted(s) && w < |s.waiters| && Run(s, ls, t)
    ensures w < |t.waiters| && Owed(t.waiters[w]) + OwnSteps(ls, w) <= Owed(s.waiters[w])
    decreases |ls|
  {
    if ls != [] {
      var u := Apply(s, ls[0]);
      StepInv(s, ls[0]);
      var f :| 0 <= f < |s.firers| && s.firers[f].Fired?;
      assert u.firers[f].Fired?;
      WaiterReturns(u, ls[1..], t, w);
    }
  }
}
