/**
 The root task scope: who may enter, how many are inside, and whose handles can
 still be joined, all under one lock.

 `ScopeState` is the guarded value. Each lock-protected section is one function
 on it, so the same definition specifies the class below and drives the
 interleavings of `ScopeRuns`.
 */
module TaskScope {
  import opened Base

  type TaskId = nat

  // Identities are u64 and wrap.
  const ID_SPACE: nat := 0x1_0000_0000_0000_0000

  function NextId(id: TaskId): TaskId {
    if id + 1 < ID_SPACE then id + 1 else 0
  }

  datatype Admission = Open | Closing | Closed {
    function OnClose(count: nat): Admission {
      match this
      case Open => if count == 0 then Closed else Closing
      case _ => this
    }

    function OnDrained(): Admission {
      match this
      case Open => Open
      case _ => Closed
    }

    /** How far the one-way move Open, Closing, Closed has gone. */
    function Rank(): nat {
      match this case Open => 0 case Closing => 1 case Closed => 2
    }
  }

  datatype ChildKind = Async | Blocking

  function Other(kind: ChildKind): ChildKind {
    if kind.Async? then Blocking else Async
  }

  /** The joinable handle of one spawned task. */
  datatype JoinHandle = JoinHandle(task: TaskId)

  datatype ScopeState = ScopeState(
    admission: Admission,
    count: nat,
    nextId: TaskId,
    asyncChildren: map<TaskId, Option<JoinHandle>>,
    blockingChildren: set<TaskId>,
    stopped: bool)
  {
    function CountChild(kind: ChildKind): (ScopeState, TaskId) {
      var counted := this.(nextId := NextId(nextId), count := count + 1);
      match kind
      case Async => (counted.(asyncChildren := asyncChildren[nextId := None]), nextId)
      case Blocking => (counted.(blockingChildren := blockingChildren + {nextId}), nextId)
    }

    function Admit(kind: ChildKind): (ScopeState, Option<TaskId>) {
      match admission
      case Open => var (counted, id) := CountChild(kind); (counted, Some(id))
      case _ => (this, None)
    }

    /** Fill the seeded entry, or hand the handle back to be aborted. */
    function Register(id: TaskId, handle: JoinHandle): (ScopeState, Option<JoinHandle>) {
      if stopped || id !in asyncChildren then (this, Some(handle))
      else (this.(asyncChildren := asyncChildren[id := Some(handle)]), None)
    }

    /** The forced sweep: every filled entry, with the child it joins. */
    function Swept(): map<TaskId, JoinHandle> {
      map id | id in asyncChildren && asyncChildren[id].Some? :: asyncChildren[id].value
    }

    function Take(): ScopeState {
      this.(stopped := true, asyncChildren := map[])
    }

    function RemoveChild(id: TaskId, kind: ChildKind): ScopeState {
      match kind
      case Async => this.(asyncChildren := asyncChildren - {id})
      case Blocking => this.(blockingChildren := blockingChildren - {id})
    }

    /** Release one slot; a zero count is the "unadmitted child" fault. */
    function Finish(id: TaskId, kind: ChildKind): (ScopeState, bool) {
      var removed := RemoveChild(id, kind);
      if count == 0 then (removed, false)
      else if count == 1 then
        (removed.(count := 0, admission := admission.OnDrained()), true)
      else (removed.(count := count - 1), false)
    }

    function Close(): (ScopeState, bool) {
      var closed := this.(admission := admission.OnClose(count));
      (closed, closed.admission.Closed?)
    }
  }

  function NewState(): ScopeState {
    ScopeState(Open, 0, 0, map[], {}, false)
  }

  function OfKind(live: map<TaskId, ChildKind>, kind: ChildKind): set<TaskId> {
    set id | id in live && live[id] == kind
  }

  /**
   The guarded value against the slots really held: the count is their number,
   the blocking tally is exactly the blocking ones, and the async registry is
   exactly the async ones until the sweep and empty after it.
   */
  ghost predicate ScopeInv(st: ScopeState, live: map<TaskId, ChildKind>) {
    && st.count == |live|
    && st.blockingChildren == OfKind(live, Blocking)
    && (!st.stopped ==> st.asyncChildren.Keys == OfKind(live, Async))
    && (st.stopped ==> st.asyncChildren == map[] && !st.admission.Open?)
    && (st.admission.Closing? ==> st.count > 0)
    && (st.admission.Closed? ==> st.count == 0)
    && st.nextId < ID_SPACE
    && (forall id <- live :: id < st.nextId)
  }

  lemma NewKeeps()
    ensures ScopeInv(NewState(), map[])
  {
  }

  lemma LiveGains(live: map<TaskId, ChildKind>, id: TaskId, kind: ChildKind)
    requires id !in live
    ensures |live[id := kind]| == |live| + 1
    ensures OfKind(live[id := kind], kind) == OfKind(live, kind) + {id}
    ensures OfKind(live[id := kind], Other(kind)) == OfKind(live, Other(kind))
  {
    var live' := live[id := kind];
    assert |live'| == |live| + 1 by {
      hide OfKind;
      assert live'.Keys == live.Keys + {id};
    }
    assert OfKind(live', kind) == OfKind(live, kind) + {id};
    assert OfKind(live', Other(kind)) == OfKind(live, Other(kind));
  }

  lemma LiveLoses(live: map<TaskId, ChildKind>, id: TaskId, kind: ChildKind)
    requires id in live && live[id] == kind
    ensures |live - {id}| + 1 == |live|
    ensures OfKind(live - {id}, kind) == OfKind(live, kind) - {id}
    ensures OfKind(live - {id}, Other(kind)) == OfKind(live, Other(kind))
  {
    var rest := live - {id};
    assert live.Keys == rest.Keys + {id};
  }

  lemma AdmitKeeps(st: ScopeState, live: map<TaskId, ChildKind>, kind: ChildKind)
    requires ScopeInv(st, live)
    requires st.nextId + 1 < ID_SPACE
    ensures var (st', id) := st.Admit(kind);
      match id
      case None => st' == st && !st.admission.Open?
      case Some(minted) => minted !in live && ScopeInv(st', live[minted := kind])
  {
    if st.admission.Open? {
      LiveGains(live, st.nextId, kind);
    }
  }

  lemma FinishKeeps(st: ScopeState, live: map<TaskId, ChildKind>, id: TaskId, kind: ChildKind)
    requires ScopeInv(st, live)
    requires id in live && live[id] == kind
    ensures st.count > 0
    ensures ScopeInv(st.Finish(id, kind).0, live - {id})
    ensures st.Finish(id, kind).1 <==> live - {id} == map[]
  {
    LiveLoses(live, id, kind);
  }

  lemma CloseKeeps(st: ScopeState, live: map<TaskId, ChildKind>)
    requires ScopeInv(st, live)
    ensures ScopeInv(st.Close().0, live) && !st.Close().0.admission.Open?
    ensures st.Close().1 <==> live == map[]
  {
  }

  lemma RegisterKeeps(st: ScopeState, live: map<TaskId, ChildKind>, id: TaskId, handle: JoinHandle)
    requires ScopeInv(st, live)
    ensures ScopeInv(st.Register(id, handle).0, live)
    ensures st.Register(id, handle).1.None? <==>
      !st.stopped && id in live && live[id].Async?
  {
    var st' := st.Register(id, handle).0;
    assert st'.asyncChildren.Keys == st.asyncChildren.Keys;
    assert !st.stopped ==> (id in st.asyncChildren <==> id in OfKind(live, Async));
  }

  lemma TakeKeeps(st: ScopeState, live: map<TaskId, ChildKind>)
    requires ScopeInv(st, live) && !st.admission.Open?
    ensures ScopeInv(st.Take(), live)
  {
  }

  /** The scope object. `live` is the set of slots handed out and not dropped. */
  class Scope {
    var admission: Admission
    var count: nat
    var nextId: TaskId
    var asyncChildren: map<TaskId, Option<JoinHandle>>
    var blockingChildren: set<TaskId>
    var stopped: bool
    var closing: bool
    ghost var live: map<TaskId, ChildKind>

    ghost function State(): ScopeState
      reads this
    {
      ScopeState(admission, count, nextId, asyncChildren, blockingChildren, stopped)
    }

    ghost predicate Valid()
      reads this
    {
      ScopeInv(State(), live) && (closing ==> !admission.Open?)
    }

    constructor ()
      ensures Valid() && State() == NewState() && live == map[] && !closing
    {
      admission, count, nextId := Open, 0, 0;
      asyncChildren, blockingChildren, stopped, closing := map[], {}, false, false;
      live := map[];
    }

    /** Counts a child while admission is open; `None` once it has closed. */
    method Admit(kind: ChildKind) returns (id: Option<TaskId>)
      requires Valid() && nextId + 1 < ID_SPACE
      modifies this
      ensures Valid() && closing == old(closing)
      ensures (State(), id) == old(State()).Admit(kind)
      ensures id.None? <==> !old(admission).Open?
      ensures id.Some? ==> id.value !in old(live) && live == old(live)[id.value := kind]
      ensures id.None? ==> live == old(live)
    {
      AdmitKeeps(State(), live, kind);
      match admission {
        case Open =>
          var minted := nextId;
          nextId := NextId(minted);
          count := count + 1;
          match kind {
            case Async => asyncChildren := asyncChildren[minted := None];
            case Blocking => blockingChildren := blockingChildren + {minted};
          }
          live := live[minted := kind];
          id := Some(minted);
        case _ =>
          id := None;
      }
    }

    /** Retains a handle, or gives back one nobody will look at again. */
    method RegisterAsync(id: TaskId, handle: JoinHandle) returns (refused: Option<JoinHandle>)
      requires Valid()
      modifies this`asyncChildren
      ensures Valid() && (State(), refused) == old(State()).Register(id, handle)
      ensures refused.None? <==> !stopped && id in live && live[id].Async?
      ensures refused.Some? ==> refused.value == handle && State() == old(State())
    {
      RegisterKeeps(State(), live, id, handle);
      if stopped || id !in asyncChildren {
        refused := Some(handle);
      } else {
        asyncChildren := asyncChildren[id := Some(handle)];
        refused := None;
      }
    }

    /** The forced sweep, which the owner runs only after closing admission. */
    method TakeAsyncChildren() returns (swept: map<TaskId, JoinHandle>)
      requires Valid() && !admission.Open?
      modifies this`stopped, this`asyncChildren
      ensures Valid() && stopped && State() == old(State()).Take()
      ensures swept == old(State()).Swept()
      ensures swept.Keys <= OfKind(live, Async)
    {
      TakeKeeps(State(), live);
      stopped := true;
      swept := map id | id in asyncChildren && asyncChildren[id].Some? :: asyncChildren[id].value;
      asyncChildren := map[];
    }

    /**
     Sweeps, aborts every swept handle, joins the ones that resolve within the
     grace, and names the rest: one settlement for each swept child.
     */
    method ForceStop(resolving: set<TaskId>)
      returns (aborted: set<TaskId>, joined: nat, named: nat)
      requires Valid() && !admission.Open?
      modifies this`stopped, this`asyncChildren
      ensures Valid() && State() == old(State()).Take()
      ensures aborted == old(State()).Swept().Keys
      ensures joined == |aborted * resolving| && joined + named == |aborted|
    {
      var handles := TakeAsyncChildren();
      aborted := {};
      var waiting := handles.Keys;
      while waiting != {}
        invariant aborted + waiting == handles.Keys
        decreases |waiting|
      {
        var id :| id in waiting;
        aborted, waiting := aborted + {id}, waiting - {id};
      }
      joined := 0;
      var joins := aborted * resolving;
      while joins != {}
        invariant joined + |joins| == |aborted * resolving|
        decreases |joins|
      {
        var id :| id in joins;
        joins := joins - {id};
        joined := joined + 1;
      }
      assert aborted == aborted * resolving + (aborted - resolving);
      named := 0;
      for settled := joined to |aborted|
        invariant named == settled - joined
      {
        named := named + 1;
      }
    }

    /** One slot's drop; holding the slot shows its child is counted. */
    method Finish(id: TaskId, kind: ChildKind) returns (drained: bool)
      requires Valid() && id in live && live[id] == kind
      modifies this
      ensures Valid() && closing == old(closing)
      ensures (State(), drained) == old(State()).Finish(id, kind)
      ensures old(count) > 0 && live == old(live) - {id}
      ensures drained <==> live == map[]
    {
      ghost var st := State();
      FinishKeeps(st, live, id, kind);
      hide ScopeInv;
      match kind {
        case Async => asyncChildren := asyncChildren - {id};
        case Blocking => blockingChildren := blockingChildren - {id};
      }
      if count == 0 {
        drained := false;
      } else if count == 1 {
        count := 0;
        admission := admission.OnDrained();
        drained := true;
      } else {
        count := count - 1;
        drained := false;
      }
      live := live - {id};
      assert State() == st.Finish(id, kind).0;
    }

    /** Closes admission and fires the closing latch. */
    method Close() returns (drained: bool)
      requires Valid()
      modifies this`admission, this`closing
      ensures Valid() && closing && !admission.Open?
      ensures (State(), drained) == old(State()).Close()
      ensures drained <==> live == map[]
    {
      CloseKeeps(State(), live);
      admission := admission.OnClose(count);
      drained := admission.Closed?;
      closing := true;
    }
  }
}
