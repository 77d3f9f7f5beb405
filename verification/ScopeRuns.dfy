/**
 Every interleaving of the root scope: admissions and their registrars, the
 spawned children, shutdown requests, and the one drain with its forced sweep.

 One label is one lock-protected section or one atomic action. Tokio appears
 only through what it may do: a spawned task may be dropped at any moment, and
 its body may start once its gate is open. Nothing relies on an abort taking
 effect.
 */
module ScopeRuns {
  import opened Base
  import opened TaskScope

  /** Where the spawned future is; `Gone` means its slot has been dropped. */
  datatype Task = Unspawned | AtGate | InBody | Gone

  /** Where the `admit_async` call of this child is, or what it answered. */
  datatype Registrar =
    | Counted | Spawned | Registered | MustAbort
    | AnsweredOk | AnsweredClosed | Unwound

  datatype Child = Child(
    kind: ChildKind,
    task: Task,
    registrar: Registrar,
    gateOpen: bool,
    aborted: bool,
    started: bool)

  datatype RequestPc = Minted | AdmissionClosed | ClosingFired | ShutdownFired {
    function Rank(): nat {
      match this case Minted => 0 case AdmissionClosed => 1 case ClosingFired => 2 case ShutdownFired => 3
    }
  }

  datatype DrainPc =
    | Idle | Begun | Shut | Waiting | Drained
    | Escalating | Aborting | Joining | Settled
  {
    function Rank(): nat {
      match this
      case Idle => 0 case Begun => 1 case Shut => 2 case Waiting => 3 case Drained => 4
      case Escalating => 4 case Aborting => 5 case Joining => 6 case Settled => 7
    }
  }

  datatype Drain = Drain(
    pc: DrainPc,
    swept: map<TaskId, JoinHandle>,
    aborted: set<TaskId>,
    joined: set<TaskId>,
    named: nat)

  datatype Sys = Sys(
    scope: ScopeState,
    children: map<TaskId, Child>,
    requests: seq<RequestPc>,
    drain: Drain,
    closing: bool,
    shutdown: bool,
    deadline: Option<int>)

  datatype Label =
    | Admit(kind: ChildKind)
    | Spawn(id: TaskId)
    | Unwind(id: TaskId)
    | Register(id: TaskId)
    | RegistrarAborts(id: TaskId)
    | OpenGate(id: TaskId)
    | StartBody(id: TaskId)
    | Drop(id: TaskId)
    | Request(now: int)
    | RequestCloses(k: nat)
    | RequestFiresClosing(k: nat)
    | RequestFiresShutdown(k: nat)
    | DrainMints(now: int)
    | DrainCloses
    | DrainFiresClosing
    | DrainSeesZero
    | DrainTimesOut
    | Sweep
    | DrainAborts(id: TaskId)
    | BeginJoins
    | DrainJoins(id: TaskId)
    | DrainSettles

  function Init(): Sys {
    Sys(NewState(), map[], [], Drain(Idle, map[], {}, {}, 0), false, false, None)
  }

  function Live(children: map<TaskId, Child>): map<TaskId, ChildKind> {
    map id | id in children && !children[id].task.Gone? :: children[id].kind
  }

  /** The first graceful transition fixes the expiry; later ones read it back. */
  function Mint(deadline: Option<int>, now: int): Option<int> {
    if deadline.Some? then deadline else Some(now)
  }

  predicate At(s: Sys, id: TaskId, registrar: Registrar) {
    id in s.children && s.children[id].kind.Async? && s.children[id].registrar == registrar
  }

  predicate RequestAt(s: Sys, k: nat, pc: RequestPc) {
    k < |s.requests| && s.requests[k] == pc
  }

  predicate Enabled(s: Sys, l: Label) {
    match l
    case Admit(_) => s.scope.admission.Open? && s.scope.nextId + 1 < ID_SPACE
    case Spawn(id) => At(s, id, Counted)
    case Unwind(id) => At(s, id, Counted)
    case Register(id) => At(s, id, Spawned)
    case RegistrarAborts(id) => At(s, id, MustAbort)
    case OpenGate(id) => At(s, id, Registered)
    case StartBody(id) => id in s.children && s.children[id].task.AtGate? && s.children[id].gateOpen
    case Drop(id) => id in s.children && (s.children[id].task.AtGate? || s.children[id].task.InBody?)
    case Request(_) => true
    case RequestCloses(k) => RequestAt(s, k, Minted)
    case RequestFiresClosing(k) => RequestAt(s, k, AdmissionClosed)
    case RequestFiresShutdown(k) => RequestAt(s, k, ClosingFired)
    case DrainMints(_) => s.drain.pc.Idle?
    case DrainCloses => s.drain.pc.Begun?
    case DrainFiresClosing => s.drain.pc.Shut?
    case DrainSeesZero => s.drain.pc.Waiting? && s.scope.count == 0
    case DrainTimesOut => s.drain.pc.Waiting? && s.scope.count > 0
    case Sweep => s.drain.pc.Escalating?
    case DrainAborts(id) => s.drain.pc.Aborting? && id in s.drain.swept && id in s.children
    case BeginJoins => s.drain.pc.Aborting? && s.drain.aborted == s.drain.swept.Keys
    case DrainJoins(id) =>
      s.drain.pc.Joining? && id in s.drain.swept && id !in s.drain.joined
      && id in s.children && s.children[id].task.Gone?
    case DrainSettles => s.drain.pc.Joining?
  }

  function WithChild(s: Sys, id: TaskId, child: Child): Sys {
    s.(children := s.children[id := child])
  }

  /** Drop the slot of a live child: the release every exit runs through. */
  function Release(s: Sys, id: TaskId, child: Child): Sys
    requires id in s.children
  {
    WithChild(s.(scope := s.scope.Finish(id, s.children[id].kind).0), id, child.(task := Gone))
  }

  /** How many steps a range from `settled` to `aborted` has. */
  function Left(settled: nat, aborted: nat): nat {
    if settled <= aborted then aborted - settled else 0
  }

  function CloseScope(s: Sys): Sys {
    s.(scope := s.scope.Close().0)
  }

  function Seed(kind: ChildKind): Child {
    match kind
    case Async => Child(Async, Unspawned, Counted, false, false, false)
    case Blocking => Child(Blocking, InBody, AnsweredOk, true, false, true)
  }

  function Apply(s: Sys, l: Label): Sys
    requires Enabled(s, l)
  {
    match l
    case Admit(kind) =>
      var (scope, id) := s.scope.CountChild(kind);
      WithChild(s.(scope := scope), id, Seed(kind))
    case Spawn(id) =>
      WithChild(s, id, s.children[id].(task := AtGate, registrar := Spawned))
    case Unwind(id) =>
      Release(s, id, s.children[id].(registrar := Unwound))
    case Register(id) =>
      var (scope, refused) := s.scope.Register(id, JoinHandle(id));
      WithChild(s.(scope := scope), id,
                s.children[id].(registrar := if refused.None? then Registered else MustAbort))
    case RegistrarAborts(id) =>
      WithChild(s, id, s.children[id].(registrar := AnsweredClosed, aborted := true))
    case OpenGate(id) =>
      WithChild(s, id, s.children[id].(registrar := AnsweredOk, gateOpen := true))
    case StartBody(id) =>
      WithChild(s, id, s.children[id].(task := InBody, started := true))
    case Drop(id) =>
      Release(s, id, s.children[id])
    case Request(now) =>
      s.(deadline := Mint(s.deadline, now), requests := s.requests + [Minted])
    case RequestCloses(k) =>
      CloseScope(s).(requests := s.requests[k := AdmissionClosed])
    case RequestFiresClosing(k) =>
      s.(closing := true, requests := s.requests[k := ClosingFired])
    case RequestFiresShutdown(k) =>
      s.(shutdown := true, requests := s.requests[k := ShutdownFired])
    case DrainMints(now) =>
      s.(deadline := Mint(s.deadline, now), drain := s.drain.(pc := Begun))
    case DrainCloses =>
      CloseScope(s).(drain := s.drain.(pc := Shut))
    case DrainFiresClosing =>
      s.(closing := true, drain := s.drain.(pc := Waiting))
    case DrainSeesZero =>
      s.(drain := s.drain.(pc := Drained))
    case DrainTimesOut =>
      s.(drain := s.drain.(pc := Escalating))
    case Sweep =>
      s.(scope := s.scope.Take(), drain := s.drain.(pc := Aborting, swept := s.scope.Swept()))
    case DrainAborts(id) =>
      WithChild(s.(drain := s.drain.(aborted := s.drain.aborted + {id})), id,
                s.children[id].(aborted := true))
    case BeginJoins =>
      s.(drain := s.drain.(pc := Joining))
    case DrainJoins(id) =>
      s.(drain := s.drain.(joined := s.drain.joined + {id}))
    case DrainSettles =>
      s.(drain := s.drain.(pc := Settled, named := Left(|s.drain.joined|, |s.drain.swept|)))
  }

  /** `ls` can be taken from `s`, and ends in `t`. */
  ghost predicate Run(s: Sys, ls: seq<Label>, t: Sys)
    decreases |ls|
  {
    if ls == [] then s == t
    else Enabled(s, ls[0]) && Run(Apply(s, ls[0]), ls[1..], t)
  }

  ghost predicate Reachable(s: Sys) {
    exists ls :: Run(Init(), ls, s)
  }

  // ---------- the inductive invariant ----------

  predicate Retained(r: Registrar) {
    r.Registered? || r.AnsweredOk?
  }

  /** The registrar was handed its own handle back. */
  predicate Refused(r: Registrar) {
    r.MustAbort? || r.AnsweredClosed?
  }

  /** All that the registry and the sweep hold about one child. */
  datatype View = View(
    entry: Option<Option<JoinHandle>>,
    stopped: bool,
    swept: Option<JoinHandle>,
    drainAborted: bool,
    joined: bool)

  function Get<V>(m: map<TaskId, V>, id: TaskId): Option<V> {
    if id in m then Some(m[id]) else None
  }

  function ViewOf(scope: ScopeState, d: Drain, id: TaskId): View {
    View(Get(scope.asyncChildren, id), scope.stopped, Get(d.swept, id), id in d.aborted, id in d.joined)
  }

  /** One child against the registry and the sweep. */
  ghost predicate ChildOk(c: Child, id: TaskId, v: View) {
    && (c.kind.Async? ==>
          && (c.registrar.Counted? <==> c.task.Unspawned?)
          && (c.registrar.Unwound? ==> c.task.Gone?)
          && (c.gateOpen <==> c.registrar.AnsweredOk?)
          && (c.started ==> c.gateOpen)
          && (c.task.InBody? ==> c.started)
          && (c.registrar.AnsweredClosed? ==> c.aborted)
          && (Refused(c.registrar) ==> v.stopped || c.task.Gone?)
          && (c.started ==> c.task.InBody? || c.task.Gone?)
          && (v.entry.Some? ==>
                v.entry.value == if Retained(c.registrar) then Some(JoinHandle(id)) else None)
          && (v.stopped && !c.task.Gone? && Retained(c.registrar) ==> v.swept.Some?))
    && (v.swept.Some? ==> c.kind.Async? && Retained(c.registrar) && v.swept.value == JoinHandle(id))
    && (c.kind.Blocking? ==> c.registrar.AnsweredOk? && c.started && (c.task.InBody? || c.task.Gone?))
    && (v.drainAborted ==> c.aborted)
    && (c.aborted ==> v.drainAborted || c.registrar.AnsweredClosed?)
    && (v.joined ==> c.task.Gone?)
  }

  ghost predicate ChildrenInv(children: map<TaskId, Child>, scope: ScopeState, d: Drain) {
    forall id <- children ::
      id < scope.nextId && ChildOk(children[id], id, ViewOf(scope, d, id))
  }

  ghost predicate DrainInv(d: Drain, ids: set<TaskId>, scope: ScopeState, minted: bool, closing: bool) {
    && (scope.stopped <==> d.pc.Rank() >= 5)
    && (d.pc.Rank() < 5 ==> d.swept == map[])
    && d.joined <= d.swept.Keys <= ids
    && d.aborted <= d.swept.Keys
    && (d.pc.Rank() >= 6 ==> d.aborted == d.swept.Keys)
    && (d.pc.Settled? ==> |d.joined| + d.named == |d.swept|)
    && (d.pc.Rank() >= 1 ==> minted)
    && (d.pc.Rank() >= 2 ==> !scope.admission.Open?)
    && (d.pc.Rank() >= 3 ==> closing)
    && (d.pc.Drained? ==> scope.admission.Closed?)
  }

  ghost predicate RequestOk(pc: RequestPc, admission: Admission, closing: bool, shutdown: bool) {
    && (pc.Rank() >= 1 ==> !admission.Open?)
    && (pc.Rank() >= 2 ==> closing)
    && (pc.Rank() >= 3 ==> shutdown)
  }

  ghost predicate LatchInv(requests: seq<RequestPc>, admission: Admission, minted: bool, closing: bool, shutdown: bool) {
    && (shutdown ==> closing)
    && (closing ==> !admission.Open? && minted)
    && (requests != [] ==> minted)
    && (forall pc <- requests :: RequestOk(pc, admission, closing, shutdown))
  }

  ghost predicate Inv(s: Sys) {
    && ScopeInv(s.scope, Live(s.children))
    && ChildrenInv(s.children, s.scope, s.drain)
    && DrainInv(s.drain, s.children.Keys, s.scope, s.deadline.Some?, s.closing)
    && LatchInv(s.requests, s.scope.admission, s.deadline.Some?, s.closing, s.shutdown)
  }

  lemma InitInv()
    ensures Inv(Init())
  {
    assert Live(map[]) == map[];
  }

  lemma LiveUnchanged(children: map<TaskId, Child>, id: TaskId, child: Child)
    requires id in children && child.kind == children[id].kind
    requires child.task.Gone? == children[id].task.Gone?
    ensures Live(children[id := child]) == Live(children)
  {
  }

  /** A step that touches one child keeps what the others know. */
  lemma Framed(
    children: map<TaskId, Child>, scope: ScopeState, d: Drain,
    id: TaskId, child: Child, scope': ScopeState, d': Drain)
    requires ChildrenInv(children, scope, d)
    requires scope.nextId <= scope'.nextId && id < scope'.nextId
    requires ChildOk(child, id, ViewOf(scope', d', id))
    requires forall i <- children | i != id :: ViewOf(scope', d', i) == ViewOf(scope, d, i)
    ensures ChildrenInv(children[id := child], scope', d')
  {
  }

  /** Later facts keep what the drain has already established. */
  lemma DrainGrows(
    d: Drain, ids: set<TaskId>, scope: ScopeState, minted: bool, closing: bool,
    scope': ScopeState, minted': bool, closing': bool)
    requires DrainInv(d, ids, scope, minted, closing)
    requires scope'.stopped == scope.stopped && scope.admission.Rank() <= scope'.admission.Rank()
    requires (minted ==> minted') && (closing ==> closing')
    ensures DrainInv(d, ids, scope', minted', closing')
  {
  }

  lemma LatchGrows(
    requests: seq<RequestPc>, admission: Admission, minted: bool, closing: bool, shutdown: bool,
    admission': Admission, minted': bool, closing': bool, shutdown': bool)
    requires LatchInv(requests, admission, minted, closing, shutdown)
    requires admission.Rank() <= admission'.Rank() && (minted ==> minted')
    requires (closing ==> closing') && (shutdown ==> shutdown') && (shutdown' ==> closing')
    requires closing' ==> !admission'.Open? && minted'
    ensures LatchInv(requests, admission', minted', closing', shutdown')
  {
  }

  lemma RequestMoves(
    requests: seq<RequestPc>, admission: Admission, closing: bool, shutdown: bool, k: nat, pc: RequestPc)
    requires LatchInv(requests, admission, true, closing, shutdown)
    requires k < |requests| && RequestOk(pc, admission, closing, shutdown)
    ensures LatchInv(requests[k := pc], admission, true, closing, shutdown)
  {
  }

  /** Closing and draining only move admission forward, which no fact minds. */
  lemma AdmissionMoves(s: Sys, scope: ScopeState)
    requires Inv(s)
    requires scope.stopped == s.scope.stopped
    requires s.scope.admission.Rank() <= scope.admission.Rank()
    ensures DrainInv(s.drain, s.children.Keys, scope, s.deadline.Some?, s.closing)
    ensures LatchInv(s.requests, scope.admission, s.deadline.Some?, s.closing, s.shutdown)
  {
    var minted := s.deadline.Some?;
    DrainGrows(s.drain, s.children.Keys, s.scope, minted, s.closing, scope, minted, s.closing);
    LatchGrows(s.requests, s.scope.admission, minted, s.closing, s.shutdown,
               scope.admission, minted, s.closing, s.shutdown);
    hide ScopeInv, ChildrenInv, DrainInv;
  }

  lemma AdmitScope(s: Sys, kind: ChildKind)
    requires ScopeInv(s.scope, Live(s.children)) && Enabled(s, Admit(kind))
    ensures var t := Apply(s, Admit(kind)); ScopeInv(t.scope, Live(t.children))
  {
    var id := s.scope.nextId;
    AdmitKeeps(s.scope, Live(s.children), kind);
    assert Live(s.children[id := Seed(kind)]) == Live(s.children)[id := kind] by {
      hide ScopeInv;
    }
  }

  lemma AdmitInv(s: Sys, kind: ChildKind)
    requires Inv(s) && Enabled(s, Admit(kind))
    ensures Inv(Apply(s, Admit(kind)))
  {
    AdmitScope(s, kind);
    var t := Apply(s, Admit(kind));
    Framed(s.children, s.scope, s.drain, s.scope.nextId, Seed(kind), t.scope, s.drain);
    AdmissionMoves(s, t.scope);
    hide ScopeInv, ChildrenInv, LatchInv;
  }

  /** Replacing one child by one that is as live keeps the invariant. */
  lemma PutChild(s: Sys, id: TaskId, c: Child)
    requires Inv(s) && id in s.children
    requires c.kind == s.children[id].kind && c.task.Gone? == s.children[id].task.Gone?
    requires ChildOk(c, id, ViewOf(s.scope, s.drain, id))
    ensures Inv(WithChild(s, id, c))
  {
    hide ScopeInv, ChildOk, DrainInv, LatchInv;
    LiveUnchanged(s.children, id, c);
    Framed(s.children, s.scope, s.drain, id, c, s.scope, s.drain);
    assert s.children[id := c].Keys == s.children.Keys;
  }

  lemma RegisterChildren(s: Sys, id: TaskId)
    requires ChildrenInv(s.children, s.scope, s.drain) && Enabled(s, Register(id))
    requires id in s.scope.asyncChildren || s.scope.stopped || s.children[id].task.Gone?
    ensures var t := Apply(s, Register(id)); ChildrenInv(t.children, t.scope, t.drain)
  {
    hide ChildOk;
    var t := Apply(s, Register(id));
    RegisteredChild(s.scope, s.drain, id, s.children[id], t.children[id]);
    RegisteredViews(s.scope, s.drain, id);
    hide ViewOf;
    Framed(s.children, s.scope, s.drain, id, t.children[id], t.scope, s.drain);
  }

  lemma RegisteredViews(scope: ScopeState, d: Drain, id: TaskId)
    ensures forall i: TaskId | i != id ::
      ViewOf(scope.Register(id, JoinHandle(id)).0, d, i) == ViewOf(scope, d, i)
  {
  }

  /** A live async child keeps its entry until the sweep. */
  lemma LiveIsListed(s: Sys, id: TaskId)
    requires ScopeInv(s.scope, Live(s.children)) && id in s.children && s.children[id].kind.Async?
    ensures !s.scope.stopped ==> (id in s.scope.asyncChildren <==> !s.children[id].task.Gone?)
  {
    assert id in Live(s.children) <==> !s.children[id].task.Gone?;
    assert id in OfKind(Live(s.children), Async) <==> id in Live(s.children);
  }

  lemma RegisterInv(s: Sys, id: TaskId)
    requires Inv(s) && Enabled(s, Register(id))
    ensures Inv(Apply(s, Register(id)))
  {
    LiveIsListed(s, id);
    hide ScopeInv, ChildrenInv, DrainInv, LatchInv;
    var t := Apply(s, Register(id));
    RegisterKeeps(s.scope, Live(s.children), id, JoinHandle(id));
    LiveUnchanged(s.children, id, t.children[id]);
    AdmissionMoves(s, t.scope);
    RegisterChildren(s, id);
    assert t.children.Keys == s.children.Keys;
  }

  lemma RegisteredChild(scope: ScopeState, d: Drain, id: TaskId, c: Child, c': Child)
    requires ChildOk(c, id, ViewOf(scope, d, id)) && c.kind.Async? && c.registrar.Spawned?
    requires id in scope.asyncChildren || scope.stopped || c.task.Gone?
    requires var (_, refused) := scope.Register(id, JoinHandle(id));
      c' == c.(registrar := if refused.None? then Registered else MustAbort)
    ensures ChildOk(c', id, ViewOf(scope.Register(id, JoinHandle(id)).0, d, id))
  {
  }

  lemma ChildFacts(s: Sys, id: TaskId)
    requires Inv(s) && id in s.children
    ensures id < s.scope.nextId && ChildOk(s.children[id], id, ViewOf(s.scope, s.drain, id))
  {
    hide ChildOk, ViewOf, ScopeInv, DrainInv, LatchInv;
  }

  predicate ChildStep(l: Label) {
    l.Spawn? || l.RegistrarAborts? || l.OpenGate? || l.StartBody?
  }

  lemma ChildStepInv(s: Sys, l: Label)
    requires Inv(s) && Enabled(s, l) && ChildStep(l)
    ensures Inv(Apply(s, l))
  {
    hide Inv, ViewOf;
    ChildFacts(s, l.id);
    PutChild(s, l.id, Apply(s, l).children[l.id]);
  }

  lemma ReleaseScope(s: Sys, id: TaskId, c: Child)
    requires ScopeInv(s.scope, Live(s.children))
    requires id in s.children && !s.children[id].task.Gone? && c.kind == s.children[id].kind
    ensures s.scope.count > 0
    ensures var t := Release(s, id, c);
      && ScopeInv(t.scope, Live(t.children))
      && t.children.Keys == s.children.Keys
      && t.scope.stopped == s.scope.stopped && t.scope.nextId == s.scope.nextId
      && s.scope.admission.Rank() <= t.scope.admission.Rank()
  {
    FinishKeeps(s.scope, Live(s.children), id, c.kind);
    hide ScopeInv;
    assert Live(s.children[id := c.(task := Gone)]) == Live(s.children) - {id};
  }

  lemma ReleasedChild(scope: ScopeState, d: Drain, id: TaskId, c: Child)
    requires ChildOk(c.(task := Gone), id, ViewOf(scope, d, id))
    ensures ChildOk(c.(task := Gone), id, ViewOf(scope.Finish(id, c.kind).0, d, id))
  {
  }

  lemma ReleasedViews(scope: ScopeState, d: Drain, id: TaskId, kind: ChildKind)
    ensures forall i: TaskId | i != id :: ViewOf(scope.Finish(id, kind).0, d, i) == ViewOf(scope, d, i)
  {
  }

  lemma ReleaseInv(s: Sys, l: Label)
    requires Inv(s) && Enabled(s, l) && (l.Unwind? || l.Drop?)
    ensures s.scope.count > 0
    ensures Inv(Apply(s, l))
  {
    hide ScopeInv, DrainInv, LatchInv;
    var t := Apply(s, l);
    assert ChildOk(s.children[l.id], l.id, ViewOf(s.scope, s.drain, l.id));
    var c := if l.Unwind? then s.children[l.id].(registrar := Unwound) else s.children[l.id];
    assert t == Release(s, l.id, c);
    ReleaseScope(s, l.id, c);
    ReleasedChild(s.scope, s.drain, l.id, c);
    ReleasedViews(s.scope, s.drain, l.id, c.kind);
    hide ChildOk, ChildrenInv, ViewOf;
    Framed(s.children, s.scope, s.drain, l.id, c.(task := Gone), t.scope, s.drain);
    AdmissionMoves(s, t.scope);
  }

  /** Steps that leave the registry and the swept set alone keep every child. */
  lemma SameViews(children: map<TaskId, Child>, scope: ScopeState, d: Drain, scope': ScopeState, d': Drain)
    requires ChildrenInv(children, scope, d)
    requires scope'.nextId == scope.nextId && scope'.asyncChildren == scope.asyncChildren
    requires scope'.stopped == scope.stopped
    requires d'.swept == d.swept && d'.aborted == d.aborted && d'.joined == d.joined
    ensures ChildrenInv(children, scope', d')
  {
    assert forall id :: ViewOf(scope', d', id) == ViewOf(scope, d, id);
    hide ChildOk;
  }

  predicate RequestStep(l: Label) {
    l.Request? || l.RequestCloses? || l.RequestFiresClosing? || l.RequestFiresShutdown?
  }

  lemma RequestLatch(s: Sys, l: Label)
    requires Inv(s) && Enabled(s, l) && RequestStep(l)
    ensures var t := Apply(s, l);
      LatchInv(t.requests, t.scope.admission, t.deadline.Some?, t.closing, t.shutdown)
  {
    hide ScopeInv, ChildrenInv, DrainInv;
    var t := Apply(s, l);
    assert !l.Request? ==> s.requests[l.k] in s.requests;
    LatchGrows(s.requests, s.scope.admission, s.deadline.Some?, s.closing, s.shutdown,
               t.scope.admission, t.deadline.Some?, t.closing, t.shutdown);
    if !l.Request? {
      RequestMoves(s.requests, t.scope.admission, t.closing, t.shutdown, l.k, t.requests[l.k]);
    }
  }

  lemma RequestStepInv(s: Sys, l: Label)
    requires Inv(s) && Enabled(s, l) && RequestStep(l)
    ensures Inv(Apply(s, l))
  {
    hide ScopeInv, ChildrenInv, DrainInv, LatchInv;
    CloseKeeps(s.scope, Live(s.children));
    var t := Apply(s, l);
    SameViews(s.children, s.scope, s.drain, t.scope, s.drain);
    DrainGrows(s.drain, s.children.Keys, s.scope, s.deadline.Some?, s.closing,
               t.scope, t.deadline.Some?, t.closing);
    RequestLatch(s, l);
  }

  predicate DrainStep(l: Label) {
    || l.DrainMints? || l.DrainCloses? || l.DrainFiresClosing? || l.DrainSeesZero?
    || l.DrainTimesOut? || l.BeginJoins? || l.DrainSettles?
  }

  /** Joined children are swept ones, so counting the rest is counting what is left. */
  lemma SettledCounts(swept: set<TaskId>, joined: set<TaskId>)
    requires joined <= swept
    ensures |joined| + Left(|joined|, |swept|) == |swept|
    ensures Left(|joined|, |swept|) == |swept - joined|
  {
    assert swept == joined + (swept - joined);
  }

  lemma DrainAdvances(s: Sys, l: Label)
    requires Inv(s) && Enabled(s, l) && DrainStep(l)
    ensures var t := Apply(s, l);
      DrainInv(t.drain, t.children.Keys, t.scope, t.deadline.Some?, t.closing)
  {
    hide ChildrenInv, LatchInv;
    assert l.DrainSeesZero? ==> s.scope.admission.Closed?;
    hide ScopeInv;
    SettledCounts(s.drain.swept.Keys, s.drain.joined);
    hide Left;
  }

  lemma DrainLatch(s: Sys, l: Label)
    requires Inv(s) && Enabled(s, l) && DrainStep(l)
    ensures var t := Apply(s, l);
      LatchInv(t.requests, t.scope.admission, t.deadline.Some?, t.closing, t.shutdown)
  {
    hide ScopeInv, ChildrenInv;
    var t := Apply(s, l);
    assert l.DrainFiresClosing? ==> !s.scope.admission.Open? && s.deadline.Some?;
    hide DrainInv;
    LatchGrows(s.requests, s.scope.admission, s.deadline.Some?, s.closing, s.shutdown,
               t.scope.admission, t.deadline.Some?, t.closing, t.shutdown);
  }

  lemma DrainStepInv(s: Sys, l: Label)
    requires Inv(s) && Enabled(s, l) && DrainStep(l)
    ensures Inv(Apply(s, l))
  {
    hide ScopeInv, ChildrenInv, DrainInv, LatchInv;
    CloseKeeps(s.scope, Live(s.children));
    var t := Apply(s, l);
    SameViews(s.children, s.scope, s.drain, t.scope, t.drain);
    DrainAdvances(s, l);
    DrainLatch(s, l);
  }

  lemma SweptChild(c: Child, id: TaskId, v: View, w: View)
    requires ChildOk(c, id, v) && v == View(v.entry, false, None, false, false)
    requires c.kind.Async? && !c.task.Gone? ==> v.entry.Some?
    requires c.kind.Blocking? ==> v.entry.None?
    requires w == View(None, true, if v.entry.Some? then v.entry.value else None, false, false)
    ensures ChildOk(c, id, w)
  {
  }

  lemma SweptViews(scope: ScopeState, d: Drain, id: TaskId)
    requires !scope.stopped && d.swept == map[] && d.aborted == {} && d.joined == {}
    ensures ViewOf(scope, d, id) == View(Get(scope.asyncChildren, id), false, None, false, false)
    ensures ViewOf(scope.Take(), d.(pc := Aborting, swept := scope.Swept()), id) ==
      View(None, true, if id in scope.asyncChildren then scope.asyncChildren[id] else None, false, false)
  {
  }

  lemma SweepEach(children: map<TaskId, Child>, scope: ScopeState, d: Drain)
    requires ChildrenInv(children, scope, d)
    requires !scope.stopped && d.swept == map[] && d.aborted == {} && d.joined == {}
    requires forall id <- children ::
      id in scope.asyncChildren <==> children[id].kind.Async? && !children[id].task.Gone?
    ensures ChildrenInv(children, scope.Take(), d.(pc := Aborting, swept := scope.Swept()))
  {
    hide ChildOk, ViewOf;
    forall id <- children
      ensures ChildOk(children[id], id, ViewOf(scope.Take(), d.(pc := Aborting, swept := scope.Swept()), id))
    {
      SweptViews(scope, d, id);
      SweptChild(children[id], id, ViewOf(scope, d, id),
                 ViewOf(scope.Take(), d.(pc := Aborting, swept := scope.Swept()), id));
    }
  }

  lemma SweepChildren(s: Sys)
    requires Inv(s) && Enabled(s, Sweep)
    ensures var t := Apply(s, Sweep); ChildrenInv(s.children, t.scope, t.drain)
  {
    hide LatchInv, ChildrenInv;
    assert s.scope.asyncChildren.Keys == OfKind(Live(s.children), Async);
    SweepEach(s.children, s.scope, s.drain);
  }

  lemma SweepInv(s: Sys)
    requires Inv(s) && Enabled(s, Sweep)
    ensures Inv(Apply(s, Sweep))
  {
    TakeKeeps(s.scope, Live(s.children));
    SweepChildren(s);
    hide ChildrenInv, LatchInv;
    assert s.scope.Swept().Keys <= s.children.Keys;
    hide ScopeInv;
  }

  lemma DrainAbortsInv(s: Sys, id: TaskId)
    requires Inv(s) && Enabled(s, DrainAborts(id))
    ensures Inv(Apply(s, DrainAborts(id)))
  {
    hide ScopeInv, LatchInv, DrainInv;
    var t := Apply(s, DrainAborts(id));
    var c := s.children[id].(aborted := true);
    LiveUnchanged(s.children, id, c);
    Framed(s.children, s.scope, s.drain, id, c, s.scope, t.drain);
    hide ChildrenInv, ChildOk;
    assert t.children.Keys == s.children.Keys;
    AbortedDrain(s.drain, s.children.Keys, s.scope, s.deadline.Some?, s.closing, id);
  }

  lemma DrainJoinsInv(s: Sys, id: TaskId)
    requires Inv(s) && Enabled(s, DrainJoins(id))
    ensures Inv(Apply(s, DrainJoins(id)))
  {
    hide ScopeInv, LatchInv, DrainInv;
    var t := Apply(s, DrainJoins(id));
    Framed(s.children, s.scope, s.drain, id, s.children[id], s.scope, t.drain);
    hide ChildrenInv, ChildOk;
    assert s.children[id := s.children[id]] == s.children;
    JoinedDrain(s.drain, s.children.Keys, s.scope, s.deadline.Some?, s.closing, id);
  }

  lemma JoinedDrain(d: Drain, ids: set<TaskId>, scope: ScopeState, minted: bool, closing: bool, id: TaskId)
    requires DrainInv(d, ids, scope, minted, closing) && d.pc.Joining? && id in d.swept
    ensures DrainInv(d.(joined := d.joined + {id}), ids, scope, minted, closing)
  {
  }

  lemma AbortedDrain(d: Drain, ids: set<TaskId>, scope: ScopeState, minted: bool, closing: bool, id: TaskId)
    requires DrainInv(d, ids, scope, minted, closing) && d.pc.Aborting? && id in d.swept
    ensures DrainInv(d.(aborted := d.aborted + {id}), ids, scope, minted, closing)
  {
  }

  /** Every step of every process keeps the invariant. */
  lemma StepInv(s: Sys, l: Label)
    requires Inv(s) && Enabled(s, l)
    ensures Inv(Apply(s, l))
  {
    hide Inv, Enabled, Apply;
    match l
    case Admit(kind) => AdmitInv(s, kind);
    case Register(id) => RegisterInv(s, id);
    case Unwind(_) => ReleaseInv(s, l);
    case Drop(_) => ReleaseInv(s, l);
    case Sweep => SweepInv(s);
    case DrainAborts(id) => DrainAbortsInv(s, id);
    case DrainJoins(id) => DrainJoinsInv(s, id);
    case _ =>
      if ChildStep(l) {
        ChildStepInv(s, l);
      } else if RequestStep(l) {
        RequestStepInv(s, l);
      } else {
        DrainStepInv(s, l);
      }
  }

  lemma {:induction false} RunInv(s: Sys, ls: seq<Label>, t: Sys)
    requires Inv(s) && Run(s, ls, t)
    ensures Inv(t)
    decreases |ls|
  {
    if ls != [] {
      StepInv(s, ls[0]);
      RunInv(Apply(s, ls[0]), ls[1..], t);
    }
  }

  lemma ReachableInv(s: Sys)
    requires Reachable(s)
    ensures Inv(s)
  {
    var ls :| Run(Init(), ls, s);
    InitInv();
    RunInv(Init(), ls, s);
  }

  // ---------- what holds in every reachable state ----------

  /** The books: count, tally and registry against the slots really held. */
  lemma BooksBalance(s: Sys)
    requires Reachable(s)
    ensures s.scope.count == |Live(s.children)|
    ensures s.scope.blockingChildren == OfKind(Live(s.children), Blocking)
    ensures !s.scope.stopped ==> s.scope.asyncChildren.Keys == OfKind(Live(s.children), Async)
    ensures s.scope.stopped ==> s.scope.asyncChildren == map[]
    ensures s.scope.admission.Closing? ==> s.scope.count > 0
    ensures s.scope.admission.Closed? ==> Live(s.children) == map[]
  {
    hide Reachable;
    ReachableInv(s);
  }

  /** A release always finds its child counted, and registered until the sweep. */
  lemma NoUnadmittedChild(s: Sys, l: Label)
    requires Reachable(s) && Enabled(s, l) && (l.Drop? || l.Unwind?)
    ensures s.scope.count > 0
    ensures s.children[l.id].kind.Async? && !s.scope.stopped ==> l.id in s.scope.asyncChildren
    ensures s.children[l.id].kind.Blocking? ==> l.id in s.scope.blockingChildren
  {
    hide Reachable;
    ReachableInv(s);
    hide LatchInv, DrainInv;
    ReleaseInv(s, l);
    assert ChildOk(s.children[l.id], l.id, ViewOf(s.scope, s.drain, l.id));
    assert l.id in Live(s.children);
    assert l.id in OfKind(Live(s.children), s.children[l.id].kind);
  }

  /**
   Once the sweep has run, every async child still alive had its own handle
   swept, or its gate is shut and its registrar has not, and will not, answer Ok.
   */
  lemma SweptOrShut(s: Sys, id: TaskId)
    requires Reachable(s) && s.scope.stopped
    requires id in s.children && s.children[id].kind.Async? && !s.children[id].task.Gone?
    ensures id in s.drain.swept <==> Retained(s.children[id].registrar)
    ensures id in s.drain.swept ==> s.drain.swept[id] == JoinHandle(id)
    ensures id !in s.drain.swept ==> !s.children[id].gateOpen && !s.children[id].started
  {
    hide Reachable;
    ReachableInv(s);
    hide ScopeInv, LatchInv, DrainInv;
    assert ChildOk(s.children[id], id, ViewOf(s.scope, s.drain, id));
  }

  /**
   A body runs only behind an admission that answered Ok. An admission answers
   that the scope has closed only once the sweep has run, or once its own task is
   gone; then its body has not run, and never will.
   */
  lemma RefusedNeverRuns(s: Sys, id: TaskId)
    requires Reachable(s) && id in s.children && s.children[id].kind.Async?
    ensures s.children[id].started ==> s.children[id].registrar.AnsweredOk?
    ensures Refused(s.children[id].registrar) ==> s.scope.stopped || s.children[id].task.Gone?
    ensures s.children[id].registrar.AnsweredClosed? ==>
      s.children[id].aborted && !s.children[id].gateOpen && !s.children[id].started
  {
    hide Reachable;
    ReachableInv(s);
    hide ScopeInv, LatchInv, DrainInv;
    assert ChildOk(s.children[id], id, ViewOf(s.scope, s.drain, id));
  }

  /** Registering retains the handle exactly for a task still there and not yet swept past. */
  lemma RegisterRetains(s: Sys, id: TaskId)
    requires Reachable(s) && Enabled(s, Register(id))
    ensures
      var t := Apply(s, Register(id));
      var kept := !s.scope.stopped && !s.children[id].task.Gone?;
      && t.children[id].registrar == (if kept then Registered else MustAbort)
      && (kept ==> id in t.scope.asyncChildren && t.scope.asyncChildren[id] == Some(JoinHandle(id)))
      && (!kept ==> t.scope == s.scope)
  {
    hide Reachable;
    ReachableInv(s);
    LiveIsListed(s, id);
  }

  /** Nothing aborts a child but the registrar that was refused and the sweep that holds its handle. */
  lemma AbortedForCause(s: Sys, id: TaskId)
    requires Reachable(s) && id in s.children && s.children[id].aborted
    ensures s.scope.stopped || s.children[id].task.Gone?
    ensures id in s.drain.aborted || s.children[id].registrar.AnsweredClosed?
  {
    hide Reachable;
    ReachableInv(s);
    hide ScopeInv, LatchInv;
    assert ChildOk(s.children[id], id, ViewOf(s.scope, s.drain, id));
    hide ChildrenInv;
  }

  // ---------- no admission is left hanging ----------

  /** How many steps an admission still has to take. */
  function Pending(r: Registrar): nat {
    match r
    case Counted => 3
    case Spawned => 2
    case Registered => 1
    case MustAbort => 1
    case _ => 0
  }

  function NextOf(r: Registrar, id: TaskId): Label
    requires Pending(r) > 0
  {
    match r
    case Counted => Spawn(id)
    case Spawned => Register(id)
    case Registered => OpenGate(id)
    case MustAbort => RegistrarAborts(id)
  }

  /** An unfinished admission can always take its next step, and every step it takes brings it nearer its answer. */
  lemma AdmissionAdvances(s: Sys, id: TaskId)
    requires id in s.children && s.children[id].kind.Async? && Pending(s.children[id].registrar) > 0
    ensures
      var l := NextOf(s.children[id].registrar, id);
      Enabled(s, l) && Pending(Apply(s, l).children[id].registrar) == Pending(s.children[id].registrar) - 1
  {
  }

  /** No step of anyone else sets an admission back, and an answer stands. */
  lemma AnswersStand(s: Sys, l: Label, id: TaskId)
    requires Inv(s) && Enabled(s, l) && id in s.children && s.children[id].kind.Async?
    ensures
      var r, r' := s.children[id].registrar, Apply(s, l).children[id].registrar;
      Pending(r') <= Pending(r) && (Pending(r) == 0 ==> r' == r)
  {
    hide Inv;
    ChildFacts(s, id);
    hide ChildOk, ViewOf;
  }

  /** `s` with the next child inside, so far, and its entry as it stands. */
  function Hosting(s: Sys, c: Child, entry: Option<JoinHandle>): Sys {
    var id := s.scope.nextId;
    s.(scope := s.scope.(nextId := id + 1, count := s.scope.count + 1,
         asyncChildren := s.scope.asyncChildren[id := entry]),
       children := s.children[id := c])
  }

  lemma FreshId(s: Sys)
    requires Inv(s) && s.scope.admission.Open?
    ensures s.scope.nextId !in s.scope.asyncChildren && !s.scope.stopped
  {
    assert s.scope.asyncChildren.Keys == OfKind(Live(s.children), Async);
  }

  lemma AdmitHosts(s: Sys)
    requires Enabled(s, Admit(Async))
    ensures Apply(s, Admit(Async)) == Hosting(s, Child(Async, Unspawned, Counted, false, false, false), None)
  {
  }

  lemma SpawnHosts(s: Sys)
    ensures
      var t := Hosting(s, Child(Async, Unspawned, Counted, false, false, false), None);
      Enabled(t, Spawn(s.scope.nextId))
      && Apply(t, Spawn(s.scope.nextId)) == Hosting(s, Child(Async, AtGate, Spawned, false, false, false), None)
  {
    var t := Hosting(s, Child(Async, Unspawned, Counted, false, false, false), None);
    assert Apply(t, Spawn(s.scope.nextId)).children ==
      s.children[s.scope.nextId := Child(Async, AtGate, Spawned, false, false, false)];
  }

  lemma RegisterHosts(s: Sys)
    requires !s.scope.stopped
    ensures
      var id := s.scope.nextId;
      var t := Hosting(s, Child(Async, AtGate, Spawned, false, false, false), None);
      Enabled(t, Register(id))
      && Apply(t, Register(id)) == Hosting(s, Child(Async, AtGate, Registered, false, false, false), Some(JoinHandle(id)))
  {
    var id := s.scope.nextId;
    var t := Hosting(s, Child(Async, AtGate, Spawned, false, false, false), None);
    assert t.scope.Register(id, JoinHandle(id)).0.asyncChildren == s.scope.asyncChildren[id := Some(JoinHandle(id))];
    assert Apply(t, Register(id)).children == s.children[id := Child(Async, AtGate, Registered, false, false, false)];
  }

  lemma OpenGateHosts(s: Sys, entry: Option<JoinHandle>)
    ensures
      var t := Hosting(s, Child(Async, AtGate, Registered, false, false, false), entry);
      Enabled(t, OpenGate(s.scope.nextId))
      && Apply(t, OpenGate(s.scope.nextId)) == Hosting(s, Child(Async, AtGate, AnsweredOk, true, false, false), entry)
  {
    var t := Hosting(s, Child(Async, AtGate, Registered, false, false, false), entry);
    assert Apply(t, OpenGate(s.scope.nextId)).children ==
      s.children[s.scope.nextId := Child(Async, AtGate, AnsweredOk, true, false, false)];
  }

  lemma StartHosts(s: Sys, entry: Option<JoinHandle>)
    ensures
      var t := Hosting(s, Child(Async, AtGate, AnsweredOk, true, false, false), entry);
      Enabled(t, StartBody(s.scope.nextId))
      && Apply(t, StartBody(s.scope.nextId)) == Hosting(s, Child(Async, InBody, AnsweredOk, true, false, true), entry)
  {
    var t := Hosting(s, Child(Async, AtGate, AnsweredOk, true, false, false), entry);
    assert Apply(t, StartBody(s.scope.nextId)).children ==
      s.children[s.scope.nextId := Child(Async, InBody, AnsweredOk, true, false, true)];
  }

  /** The drop of a body gives its slot back. */
  lemma DropGivesBack(s: Sys, entry: Option<JoinHandle>)
    requires s.scope.nextId !in s.scope.asyncChildren && s.scope.admission.Open?
    ensures
      var t := Hosting(s, Child(Async, InBody, AnsweredOk, true, false, true), entry);
      Enabled(t, Drop(s.scope.nextId))
      && var u := Apply(t, Drop(s.scope.nextId));
         u.scope == s.scope.(nextId := s.scope.nextId + 1) && Live(u.children) == Live(s.children) - {s.scope.nextId}
  {
    var id := s.scope.nextId;
    var t := Hosting(s, Child(Async, InBody, AnsweredOk, true, false, true), entry);
    var u := Apply(t, Drop(id));
    assert u.scope.asyncChildren == s.scope.asyncChildren;
    assert u.children == s.children[id := Child(Async, Gone, AnsweredOk, true, false, true)];
  }

  lemma Prepend(s: Sys, l: Label, ls: seq<Label>, t: Sys)
    requires Enabled(s, l) && Run(Apply(s, l), ls, t)
    ensures Run(s, [l] + ls, t)
  {
    hide Enabled, Apply;
    assert ([l] + ls)[1..] == ls;
  }

  /** While the scope is open an admission can go all the way: it answers Ok and its body runs. */
  lemma AdmittedRuns(s: Sys)
    requires Reachable(s) && Enabled(s, Admit(Async))
    ensures
      var id := s.scope.nextId;
      Run(s, [Admit(Async)] + ([Spawn(id)] + ([Register(id)] + ([OpenGate(id)] + ([StartBody(id)] + [])))),
          Hosting(s, Child(Async, InBody, AnsweredOk, true, false, true), Some(JoinHandle(id))))
  {
    assert !s.scope.stopped by { ReachableInv(s); FreshId(s); }
    AdmitHosts(s);
    hide Enabled, Apply, Hosting, Reachable, Inv;
    var id := s.scope.nextId;
    var t := Hosting(s, Child(Async, InBody, AnsweredOk, true, false, true), Some(JoinHandle(id)));
    StartHosts(s, Some(JoinHandle(id)));
    Prepend(Hosting(s, Child(Async, AtGate, AnsweredOk, true, false, false), Some(JoinHandle(id))), StartBody(id), [], t);
    OpenGateHosts(s, Some(JoinHandle(id)));
    Prepend(Hosting(s, Child(Async, AtGate, Registered, false, false, false), Some(JoinHandle(id))),
            OpenGate(id), [StartBody(id)] + [], t);
    RegisterHosts(s);
    Prepend(Hosting(s, Child(Async, AtGate, Spawned, false, false, false), None),
            Register(id), [OpenGate(id)] + ([StartBody(id)] + []), t);
    SpawnHosts(s);
    Prepend(Hosting(s, Child(Async, Unspawned, Counted, false, false, false), None),
            Spawn(id), [Register(id)] + ([OpenGate(id)] + ([StartBody(id)] + [])), t);
    Prepend(s, Admit(Async), [Spawn(id)] + ([Register(id)] + ([OpenGate(id)] + ([StartBody(id)] + []))), t);
  }

  // ---------- no request and no drain is left hanging ----------

  function NextRequest(pc: RequestPc, k: nat): Label
    requires pc.Rank() < 3
  {
    match pc
    case Minted => RequestCloses(k)
    case AdmissionClosed => RequestFiresClosing(k)
    case ClosingFired => RequestFiresShutdown(k)
  }

  /** A shutdown request can always go on; it closes, fires `closing`, then fires shutdown. */
  lemma RequestAdvances(s: Sys, k: nat)
    requires k < |s.requests| && s.requests[k].Rank() < 3
    ensures
      var l := NextRequest(s.requests[k], k);
      && Enabled(s, l)
      && var t := Apply(s, l);
         t.requests[k].Rank() == s.requests[k].Rank() + 1 && t.requests == s.requests[k := t.requests[k]]
  {
  }

  predicate DrainEnded(d: Drain) {
    d.pc.Drained? || d.pc.Settled?
  }

  /** What a drain does next: it waits for the count, and sweeps only what has not left by the deadline. */
  ghost function NextDrain(s: Sys, now: int): Label
    requires !DrainEnded(s.drain)
  {
    match s.drain.pc
    case Idle => DrainMints(now)
    case Begun => DrainCloses
    case Shut => DrainFiresClosing
    case Waiting => if s.scope.count == 0 then DrainSeesZero else DrainTimesOut
    case Escalating => Sweep
    case Aborting =>
      if exists id :: id in s.drain.swept && id !in s.drain.aborted
      then var id :| id in s.drain.swept && id !in s.drain.aborted; DrainAborts(id)
      else BeginJoins
    case Joining => DrainSettles
  }

  /** The drain has one step fewer to take. */
  ghost predicate Advanced(d: Drain, d': Drain) {
    || d'.pc.Rank() == d.pc.Rank() + 1
    || (d'.pc == d.pc && d'.swept == d.swept && d.aborted < d'.aborted)
  }

  lemma AbortGoesOn(s: Sys, now: int)
    requires DrainInv(s.drain, s.children.Keys, s.scope, s.deadline.Some?, s.closing) && s.drain.pc.Aborting?
    ensures
      var l := NextDrain(s, now);
      Enabled(s, l) && (l.BeginJoins? || (l.DrainAborts? && l.id !in s.drain.aborted))
  {
    if !exists id :: id in s.drain.swept && id !in s.drain.aborted {
      assert s.drain.swept.Keys == s.drain.aborted;
    }
  }

  lemma DrainMoves(s: Sys, l: Label)
    requires Enabled(s, l)
    requires DrainStep(l) || l.Sweep? || (l.DrainAborts? && l.id !in s.drain.aborted)
    ensures Advanced(s.drain, Apply(s, l).drain)
    ensures l.DrainSeesZero? ==> Apply(s, l).drain.pc.Drained?
    ensures l.DrainTimesOut? ==> Apply(s, l).drain.pc.Escalating?
  {
  }

  /** A drain can always go on, and each of its steps is one of finitely many it has left. */
  lemma DrainGoesOn(s: Sys, now: int)
    requires Reachable(s) && !DrainEnded(s.drain)
    ensures
      var l := NextDrain(s, now);
      && Enabled(s, l)
      && var t := Apply(s, l);
      && Advanced(s.drain, t.drain)
      && (s.drain.pc.Waiting? ==> t.drain.pc == if Live(s.children) == map[] then Drained else Escalating)
  {
    hide Reachable, Apply, Advanced;
    ReachableInv(s);
    assert s.scope.count == 0 <==> Live(s.children) == map[];
    assert DrainInv(s.drain, s.children.Keys, s.scope, s.deadline.Some?, s.closing);
    hide Inv, DrainInv, Live;
    if s.drain.pc.Aborting? {
      hide NextDrain;
      AbortGoesOn(s, now);
    }
    DrainMoves(s, NextDrain(s, now));
  }

  lemma JoinStep(s: Sys, l: Label, id: TaskId)
    requires Enabled(s, l)
    ensures id in Apply(s, l).drain.joined <==> id in s.drain.joined || l == DrainJoins(id)
  {
  }

  /** What the drain has joined is what the run joined, each one by its own step. */
  lemma {:induction false} JoinedByStep(s: Sys, ls: seq<Label>, t: Sys, id: TaskId)
    requires Run(s, ls, t)
    ensures id in t.drain.joined <==> id in s.drain.joined || DrainJoins(id) in ls
    decreases |ls|
  {
    hide Enabled, Apply;
    if ls != [] {
      JoinStep(s, ls[0], id);
      JoinedByStep(Apply(s, ls[0]), ls[1..], t, id);
    }
  }

  /** A swept child that has gone can always be joined before the drain settles. */
  lemma GoneCanBeJoined(s: Sys, id: TaskId)
    requires Reachable(s) && s.drain.pc.Joining? && id in s.drain.swept && id !in s.drain.joined
    ensures id in s.children && (Enabled(s, DrainJoins(id)) <==> s.children[id].task.Gone?)
  {
    hide Reachable;
    ReachableInv(s);
    hide ScopeInv, ChildrenInv, LatchInv;
  }

  // ---------- what was asked for ----------

  /** The clock reading of the first transition in `ls`. */
  function FirstMint(ls: seq<Label>): Option<int> {
    if ls == [] then None
    else if ls[0].Request? || ls[0].DrainMints? then Some(ls[0].now)
    else FirstMint(ls[1..])
  }

  /** The deadline is the first transition's, whatever came after it. */
  lemma {:induction false} DeadlineIsFirst(s: Sys, ls: seq<Label>, t: Sys)
    requires Run(s, ls, t)
    ensures t.deadline == if s.deadline.Some? then s.deadline else FirstMint(ls)
    decreases |ls|
  {
    if ls != [] {
      DeadlineIsFirst(Apply(s, ls[0]), ls[1..], t);
    }
  }

  ghost predicate HasRank(requests: seq<RequestPc>, n: nat) {
    exists pc <- requests :: pc.Rank() >= n
  }

  /** Admission closes, `closing` fires and shutdown fires only because a request or the drain did so. */
  ghost predicate AskedFor(s: Sys) {
    && (!s.scope.admission.Open? ==> HasRank(s.requests, 1) || s.drain.pc.Rank() >= 2)
    && (s.closing ==> HasRank(s.requests, 2) || s.drain.pc.Rank() >= 3)
    && (s.shutdown ==> HasRank(s.requests, 3))
    && (s.deadline.Some? ==> s.requests != [] || s.drain.pc.Rank() >= 1)
  }

  lemma RankKept(requests: seq<RequestPc>, k: nat, pc: RequestPc, n: nat)
    requires k < |requests| && requests[k].Rank() <= pc.Rank()
    ensures HasRank(requests, n) ==> HasRank(requests[k := pc], n)
    ensures pc.Rank() >= n ==> HasRank(requests[k := pc], n)
  {
    var now := requests[k := pc];
    assert now[k] == pc;
    if HasRank(requests, n) {
      var i :| 0 <= i < |requests| && requests[i].Rank() >= n;
      assert now[i].Rank() >= n && now[i] in now;
    }
  }

  lemma RankKeptBy(s: Sys, l: Label, n: nat)
    requires Enabled(s, l)
    ensures HasRank(s.requests, n) ==> HasRank(Apply(s, l).requests, n)
    ensures l.RequestCloses? && n <= 1 ==> HasRank(Apply(s, l).requests, n)
    ensures l.RequestFiresClosing? && n <= 2 ==> HasRank(Apply(s, l).requests, n)
    ensures l.RequestFiresShutdown? && n <= 3 ==> HasRank(Apply(s, l).requests, n)
  {
    var t := Apply(s, l);
    match l
    case Request(_) =>
      if HasRank(s.requests, n) {
        var pc :| pc in s.requests && pc.Rank() >= n;
        assert pc in t.requests;
      }
    case RequestCloses(k) => RankKept(s.requests, k, AdmissionClosed, n);
    case RequestFiresClosing(k) => RankKept(s.requests, k, ClosingFired, n);
    case RequestFiresShutdown(k) => RankKept(s.requests, k, ShutdownFired, n);
    case _ =>
  }

  lemma AskedForStep(s: Sys, l: Label)
    requires AskedFor(s) && Enabled(s, l)
    ensures AskedFor(Apply(s, l))
  {
    hide HasRank;
    RankKeptBy(s, l, 1);
    RankKeptBy(s, l, 2);
    RankKeptBy(s, l, 3);
  }

  lemma {:induction false} AskedForRun(s: Sys, ls: seq<Label>, t: Sys)
    requires AskedFor(s) && Run(s, ls, t)
    ensures AskedFor(t)
    decreases |ls|
  {
    if ls != [] {
      AskedForStep(s, ls[0]);
      AskedForRun(Apply(s, ls[0]), ls[1..], t);
    }
  }

  /** A scope closes only when asked, and refuses nobody before. */
  lemma OpenUntilAsked(s: Sys)
    requires Reachable(s)
    ensures AskedFor(s)
    ensures s.requests == [] && s.drain.pc.Idle? ==>
      s.scope.admission.Open? && !s.closing && !s.shutdown && s.deadline.None?
  {
    var ls :| Run(Init(), ls, s);
    AskedForRun(Init(), ls, s);
  }

  /** Past the sweep, with nothing registered: this child cannot start. */
  predicate Doomed(s: Sys, id: TaskId) {
    && s.scope.stopped && id in s.children && s.children[id].kind.Async?
    && !Retained(s.children[id].registrar)
    && !s.children[id].gateOpen && !s.children[id].started
  }

  lemma StoppedIsClosed(s: Sys)
    requires Inv(s) && s.scope.stopped
    ensures !s.scope.admission.Open?
  {
  }

  lemma DoomedStep(s: Sys, l: Label, id: TaskId)
    requires Inv(s) && Enabled(s, l) && Doomed(s, id)
    ensures Doomed(Apply(s, l), id)
  {
    hide Inv;
    StoppedIsClosed(s);
  }

  lemma {:induction false} DoomedRun(s: Sys, ls: seq<Label>, t: Sys, id: TaskId)
    requires Inv(s) && Doomed(s, id) && Run(s, ls, t)
    ensures Doomed(t, id)
    decreases |ls|
  {
    if ls != [] {
      StepInv(s, ls[0]);
      DoomedStep(s, ls[0], id);
      DoomedRun(Apply(s, ls[0]), ls[1..], t, id);
    }
  }

  /** A child the sweep missed never starts, however the run continues. */
  lemma MissedNeverStarts(s: Sys, ls: seq<Label>, t: Sys, id: TaskId)
    requires Reachable(s) && s.scope.stopped && Run(s, ls, t)
    requires id in s.children && s.children[id].kind.Async? && !s.children[id].task.Gone?
    requires id !in s.drain.swept
    ensures id in t.children && !t.children[id].started && !t.children[id].registrar.AnsweredOk?
  {
    hide Reachable;
    ReachableInv(s);
    SweptOrShut(s, id);
    DoomedRun(s, ls, t, id);
  }

  /** Joined plus named is swept, and the named ones are the swept not joined. */
  lemma SettledExactlyOnce(s: Sys)
    requires Reachable(s) && s.drain.pc.Settled?
    ensures |s.drain.joined| + s.drain.named == |s.drain.swept|
    ensures s.drain.named == |s.drain.swept.Keys - s.drain.joined|
  {
    hide Reachable;
    ReachableInv(s);
    hide ScopeInv, LatchInv, ChildrenInv;
    SettledCounts(s.drain.swept.Keys, s.drain.joined);
  }

  /** Once settled, a child is gone, aborted, or about to be by its registrar. */
  lemma SettledMeansStopped(s: Sys, id: TaskId)
    requires Reachable(s) && s.drain.pc.Settled?
    requires id in s.children && s.children[id].kind.Async?
    ensures id in s.drain.joined ==> s.children[id].task.Gone?
    ensures
      || s.children[id].task.Gone? || s.children[id].aborted
      || s.children[id].registrar.Counted? || s.children[id].registrar.Spawned? || s.children[id].registrar.MustAbort?
  {
    hide Reachable;
    ReachableInv(s);
    hide ScopeInv, LatchInv, ChildOk;
    assert ChildOk(s.children[id], id, ViewOf(s.scope, s.drain, id));
    hide ChildrenInv;
    assert s.scope.stopped && s.drain.aborted == s.drain.swept.Keys;
    hide DrainInv;
    SettledChild(s.children[id], id, ViewOf(s.scope, s.drain, id));
  }

  lemma SettledChild(c: Child, id: TaskId, v: View)
    requires ChildOk(c, id, v) && c.kind.Async? && v.stopped && (v.swept.Some? ==> v.drainAborted)
    ensures v.joined ==> c.task.Gone?
    ensures c.task.Gone? || c.aborted || c.registrar.Counted? || c.registrar.Spawned? || c.registrar.MustAbort?
  {
  }

  // ---------- what holds along every continuation ----------

  /** Nothing that a step publishes is ever taken back. */
  ghost predicate OneWay(s: Sys, t: Sys) {
    && s.scope.admission.Rank() <= t.scope.admission.Rank()
    && (s.deadline.Some? ==> t.deadline == s.deadline)
    && (s.closing ==> t.closing) && (s.shutdown ==> t.shutdown)
    && (s.scope.stopped ==> t.scope.stopped)
    && s.children.Keys <= t.children.Keys
    && (!s.scope.admission.Open? ==> t.children.Keys == s.children.Keys)
    && (s.drain.pc.Drained? ==> t.drain.pc.Drained?)
  }

  lemma OneWayStep(s: Sys, l: Label)
    requires Inv(s) && Enabled(s, l)
    ensures OneWay(s, Apply(s, l))
  {
    hide Inv;
  }

  lemma {:induction false} OneWayRun(s: Sys, ls: seq<Label>, t: Sys)
    requires Inv(s) && Run(s, ls, t)
    ensures Inv(t) && OneWay(s, t)
    decreases |ls|
  {
    if ls != [] {
      StepInv(s, ls[0]);
      OneWayStep(s, ls[0]);
      OneWayRun(Apply(s, ls[0]), ls[1..], t);
      hide Inv;
    }
  }

  /**
   Whoever sees `closing` or shutdown fired finds the deadline fixed for good,
   and no admission succeeds from there on.
   */
  lemma ClosingIsFinal(s: Sys, ls: seq<Label>, t: Sys)
    requires Reachable(s) && (s.closing || s.shutdown) && Run(s, ls, t)
    ensures s.deadline.Some? && t.deadline == s.deadline
    ensures t.children.Keys == s.children.Keys
    ensures forall kind :: t.scope.Admit(kind) == (t.scope, None)
  {
    hide Reachable;
    ReachableInv(s);
    OneWayRun(s, ls, t);
    hide ScopeInv, ChildrenInv, DrainInv;
  }

  /** A drain that found the scope empty leaves it empty forever. */
  lemma DrainedForever(s: Sys, ls: seq<Label>, t: Sys)
    requires Reachable(s) && s.drain.pc.Drained? && Run(s, ls, t)
    ensures t.scope.admission.Closed? && t.scope.count == 0 && Live(t.children) == map[]
  {
    hide Reachable;
    ReachableInv(s);
    OneWayRun(s, ls, t);
    hide ChildrenInv, LatchInv;
  }
}
