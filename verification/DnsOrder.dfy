/**
 One DNS-01 order against an adversarial provider: it may answer, refuse,
 unwind, or be cut off at any await, and the whole order may be dropped at any
 await by a forced stop.

 The zone is ghost: for each create this order submitted, the record that
 create really left there, which the order itself may never learn.
 */
module DnsOrder {
  import opened Base
  import opened Text
  import DnsName
  import opened Integration
  import opened CleanupRegister
  import opened Certificate
  import opened Publication
  import opened CertificateCache

  /** How one awaited provider call came back, if it did. */
  datatype Call<+T> = Replied(r: Result<T, RuntimeError>) | Unwound | CutOff | FrameDropped

  /** How one step of the order ended; `Dropped` is a forced stop of the whole. */
  datatype Flow<+T> = Finished(r: Result<T, IntegrationError>) | Cut | Dropped

  /** A typed failure of known outcome: the create left no record. */
  predicate CreatedNothing(error: RuntimeError) {
    error.Typed? && !error.error.retryability.Unknown? && !error.error.failure.OutcomeUnknown?
  }

  /** The trait's promise about a create that returned: the id it wrote, or nothing written. */
  ghost predicate TellsTruth(r: Result<Text, RuntimeError>, wrote: Option<Text>) {
    match r
    case Ok(id) => wrote == Some(id)
    case Err(error) => CreatedNothing(error) ==> wrote.None?
  }

  /** And about a delete that returned: only success says the record is gone. */
  ghost predicate DeletesTruly(r: Result<(), RuntimeError>, gone: bool) {
    r.Ok? ==> gone
  }

  function CallbackAnswer<T>(operation: Operation, call: Call<T>): Result<T, IntegrationError>
    requires call.Replied? || call.Unwound?
  {
    match call
    case Replied(Ok(value)) => Ok(value)
    case Replied(Err(error)) => Err(ProviderFailure(operation, error))
    case Unwound => Err(OutcomeUnknownOf(operation).(source := Foreign))
  }

  /** The records left once `id` is deleted. */
  function Without(zone: map<nat, Text>, id: Text): map<nat, Text> {
    map i | i in zone && zone[i] != id :: zone[i]
  }

  /** Any provider that keeps the contract its trait documents. */
  class Provider {
    ghost var zone: map<nat, Text>
    ghost var acknowledged: set<Text>
    ghost var submitted: seq<(Text, Text)>
    ghost var prepares: seq<Call<()>>
    ghost var creates: seq<Call<Text>>
    ghost var deletes: seq<(nat, Call<()>)>

    constructor ()
      ensures zone == map[] && acknowledged == {} && submitted == []
      ensures prepares == [] && creates == [] && deletes == []
    {
      zone, acknowledged, submitted := map[], {}, [];
      prepares, creates, deletes := [], [], [];
    }

    /** Preparation may query metadata and must not create records. */
    method Prepare() returns (call: Call<()>)
      modifies this`prepares
      ensures prepares == old(prepares) + [call]
    {
      call := *;
      prepares := prepares + [call];
    }

    /**
     A typed error of known outcome says nothing was created; an answered id
     names the record; anything else leaves the zone either way.
     */
    method CreateTxt(fqdn: Text, value: Text, ghost slot: nat)
      returns (call: Call<Text>, ghost wrote: Option<Text>)
      modifies this`zone, this`acknowledged, this`submitted, this`creates
      ensures submitted == old(submitted) + [(fqdn, value)] && creates == old(creates) + [call]
      ensures zone == if wrote.Some? then old(zone)[slot := wrote.value] else old(zone)
      ensures call.Replied? ==> TellsTruth(call.r, wrote)
      ensures acknowledged ==
        old(acknowledged) + if call.Replied? && call.r.Ok? then {call.r.value} else {}
    {
      call, wrote := *, *;
      submitted, creates := submitted + [(fqdn, value)], creates + [call];
      if call.Replied? && call.r.Ok? {
        wrote, acknowledged := Some(call.r.value), acknowledged + {call.r.value};
      } else if call.Replied? && CreatedNothing(call.r.error) {
        wrote := None;
      }
      if wrote.Some? {
        zone := zone[slot := wrote.value];
      }
    }

    /** Called only with an acknowledged id; nothing else may leave the zone. */
    method DeleteTxt(id: Text, ghost slot: nat) returns (call: Call<()>, ghost gone: bool)
      requires id in acknowledged
      modifies this`zone, this`deletes
      ensures deletes == old(deletes) + [(slot, call)]
      ensures zone == if gone then Without(old(zone), id) else old(zone)
      ensures call.Replied? ==> DeletesTruly(call.r, gone)
    {
      call, gone := *, *;
      deletes := deletes + [(slot, call)];
      if call.Replied? && call.r.Ok? {
        gone := true;
      }
      if gone {
        zone := Without(zone, id);
      }
    }
  }

  // ---------- what a call comes to ----------

  /** Whether a call went as one would wish. */
  predicate Fine<T>(call: Call<T>) {
    call.Replied? && call.r.Ok?
  }

  ghost predicate FineSince<T>(calls: seq<Call<T>>, since: nat) {
    forall k :: since <= k < |calls| ==> Fine(calls[k])
  }

  ghost predicate DeletesFineSince(deletes: seq<(nat, Call<()>)>, since: nat) {
    forall k :: since <= k < |deletes| ==> Fine(deletes[k].1)
  }

  predicate Succeeded<T>(flow: Flow<T>) {
    flow.Finished? && flow.r.Ok?
  }

  /** The slot after a create that came back this way. */
  function AfterCreate(call: Call<Text>): State {
    match call
    case Replied(Ok(id)) => Created(id)
    case Replied(Err(error)) => if CreatedNothing(error) then Resolved else Intended
    case _ => Intended
  }

  function FlowOf<T>(operation: Operation, call: Call<T>): Flow<()> {
    match call
    case CutOff => Cut
    case FrameDropped => Dropped
    case Unwound => Finished(Err(OutcomeUnknownOf(operation).(source := Foreign)))
    case Replied(Err(error)) => Finished(Err(ProviderFailure(operation, error)))
    case Replied(Ok(_)) => Finished(Ok(()))
  }

  /** The slot of record `id` after a delete that came back this way. */
  function AfterDelete(id: Text, call: Call<()>): State {
    match FlowOf(DeleteTxt, call)
    case Finished(Ok(_)) => Resolved
    case Finished(Err(error)) => Stuck(id, error.failure)
    case _ => Deleting(id)
  }

  // ---------- what the register always owns ----------

  /** This record accounts for a leftover with this id. */
  predicate Names(record: Record, id: Text) {
    match record.state
    case Intended => true
    case Created(x) => x == id
    case Deleting(x) => x == id
    case Stuck(x, _) => x == id
    case Resolved => false
  }

  /** Every record that may be in the zone has its own unresolved slot naming it. */
  ghost predicate Owned(rs: seq<Record>, zone: map<nat, Text>, acknowledged: set<Text>) {
    && (forall i <- zone :: i < |rs| && Names(rs[i], zone[i]))
    && (forall r <- rs | r.state.Created? || r.state.Deleting? :: r.state.id in acknowledged)
  }

  /** No delete has been sent yet. */
  predicate Undeleted(rs: seq<Record>) {
    forall r <- rs :: !r.state.Deleting? && !r.state.Stuck?
  }

  /**
   A create that was cut off may still land in the zone later: its slot stays
   intended, so the record it leaves is owned all the same.
   */
  lemma LateWriteIsOwned(rs: seq<Record>, zone: map<nat, Text>, acknowledged: set<Text>, slot: nat, id: Text)
    requires Owned(rs, zone, acknowledged) && slot < |rs| && rs[slot].state.Intended?
    ensures Owned(rs, zone[slot := id], acknowledged)
  {
  }

  /** Create one challenge record under an intention written first. */
  method CreateRecord(provider: Provider, records: Register, domain: Text, fqdn: Text, value: Text)
    returns (flow: Flow<()>)
    requires records.Valid() && Owned(records.records, provider.zone, provider.acknowledged)
    modifies provider, records
    ensures provider.deletes == old(provider.deletes) && provider.prepares == old(provider.prepares)
    ensures records.Valid() && Owned(records.records, provider.zone, provider.acknowledged)
    ensures Undeleted(old(records.records)) ==> Undeleted(records.records)
    ensures |old(records.records)| == MAX_CLEANUP_ITEMS ==>
      && flow == Finished(Err(Failed(CreateTxt, LimitExceeded, Never)))
      && records.records == old(records.records) && provider.zone == old(provider.zone)
      && provider.submitted == old(provider.submitted) && provider.creates == old(provider.creates)
    ensures |old(records.records)| < MAX_CLEANUP_ITEMS ==>
      && provider.submitted == old(provider.submitted) + [(fqdn, value)]
      && |provider.creates| == |old(provider.creates)| + 1
      && var call := provider.creates[|old(provider.creates)|];
      && provider.creates == old(provider.creates) + [call]
      && records.records == old(records.records) + [Record(domain, AfterCreate(call))]
      && flow == FlowOf(CreateTxt, call)
    ensures flow.Finished? && flow.r.Ok? ==>
      && |records.records| > 0
      && records.records[|records.records| - 1].state.Created?
      && provider.zone == old(provider.zone)[|records.records| - 1 := records.records[|records.records| - 1].state.id]
  {
    var intended := records.Intend(domain);
    if intended.None? {
      return Finished(Err(Failed(CreateTxt, LimitExceeded, Never)));
    }
    var slot := intended.value;
    var call, _ := provider.CreateTxt(fqdn, value, slot);
    match call {
      case CutOff => return Cut;
      case FrameDropped => return Dropped;
      case _ =>
    }
    var refused := call.Replied? && call.r.Err? && CreatedNothing(call.r.error);
    match CallbackAnswer(CreateTxt, call) {
      case Ok(id) =>
        records.Acknowledge(slot, id);
        return Finished(Ok(()));
      case Err(error) =>
        if refused {
          records.Resolve(slot);
        }
        return Finished(Err(error));
    }
  }

  /** What the ACME client yields for the next authorization. */
  datatype Authorization =
    | NextCut | NextDropped
    | NextFails(error: IntegrationError)
    | AlreadyValid
    | NoLongerUsable
    | Pending(dns01: bool, name: Option<Text>, value: Text, ready: Flow<()>)

  predicate Submits(a: Authorization) {
    a.Pending? && a.dns01 && a.name.Some?
  }

  function PendingNames(auths: seq<Authorization>): seq<Text> {
    if auths == [] then []
    else
      var n := |auths| - 1;
      PendingNames(auths[..n]) + (if Submits(auths[n]) then [auths[n].name.value] else [])
  }

  /** The challenge name and value each of them must publish (section 8.4 of RFC 8555). */
  function Challenges(auths: seq<Authorization>): seq<(Text, Text)> {
    if auths == [] then []
    else
      var n := |auths| - 1;
      Challenges(auths[..n])
      + (if Submits(auths[n]) then [(DnsName.ChallengeName(auths[n].name.value), auths[n].value)] else [])
  }

  function DomainsOf(rs: seq<Record>): seq<Text> {
    seq(|rs|, i requires 0 <= i < |rs| => rs[i].domain)
  }

  lemma NextAuthorization(auths: seq<Authorization>, k: nat)
    requires k < |auths|
    ensures PendingNames(auths[..k + 1]) ==
      PendingNames(auths[..k]) + (if Submits(auths[k]) then [auths[k].name.value] else [])
    ensures Challenges(auths[..k + 1]) ==
      Challenges(auths[..k])
      + (if Submits(auths[k]) then [(DnsName.ChallengeName(auths[k].name.value), auths[k].value)] else [])
  {
    assert auths[..k + 1][..k] == auths[..k];
  }

  lemma DomainsGrow(was: seq<Record>, now: seq<Record>, domain: Text)
    requires |now| == |was| + 1 && was <= now && now[|was|].domain == domain
    ensures DomainsOf(now) == DomainsOf(was) + [domain]
  {
  }

  /** The loop passes this authorization without stopping there. */
  predicate Passes(a: Authorization) {
    a.AlreadyValid? || Submits(a)
  }

  /** What an authorization the loop does not pass turns it back with. */
  function Turned(a: Authorization): Flow<()> {
    match a
    case NextCut => Cut
    case NextDropped => Dropped
    case NextFails(error) => Finished(Err(error))
    case _ => Finished(Err(RejectedBy(Provision)))
  }

  /** What a pending authorization comes to once its create was answered. */
  function Raised(a: Authorization, call: Call<Text>): Flow<()>
    requires Submits(a)
  {
    if Fine(call) then a.ready else FlowOf(CreateTxt, call)
  }

  /**
   Why the loop ended without success: the register was full, the authorization it
   reached turned it back, or the last one raised came to nothing.
   */
  ghost predicate EndedBy(auths: seq<Authorization>, reached: nat, full: bool, calls: seq<Call<Text>>, since: nat,
                          flow: Flow<()>)
  {
    if full then
      && reached < |auths| && Submits(auths[reached])
      && flow == Finished(Err(Failed(CreateTxt, LimitExceeded, Never)))
    else
      || (reached < |auths| && !Passes(auths[reached]) && flow == Turned(auths[reached]) && FineSince(calls, since))
      || (0 < reached <= |auths| && since < |calls| && Submits(auths[reached - 1])
          && flow == Raised(auths[reached - 1], calls[|calls| - 1]))
  }

  /** Each record raised stands as its own create left it. */
  ghost predicate RaisedBy(rs: seq<Record>, base: nat, calls: seq<Call<Text>>, since: nat) {
    && base <= |rs| && since <= |calls| && |rs| - base == |calls| - since
    && forall k :: base <= k < |rs| ==> rs[k].state == AfterCreate(calls[since + (k - base)])
  }

  lemma RaisedMore(rs: seq<Record>, base: nat, calls: seq<Call<Text>>, since: nat, record: Record, call: Call<Text>)
    requires RaisedBy(rs, base, calls, since) && record.state == AfterCreate(call)
    ensures RaisedBy(rs + [record], base, calls + [call], since)
  {
    hide AfterCreate;
  }

  lemma RaisedNothing(rs: seq<Record>, calls: seq<Call<Text>>)
    ensures RaisedBy(rs, |rs|, calls, |calls|)
  {
  }

  lemma EndedFull(auths: seq<Authorization>, k: nat, calls: seq<Call<Text>>, since: nat)
    requires k < |auths| && Submits(auths[k])
    ensures EndedBy(auths, k, true, calls, since, Finished(Err(Failed(CreateTxt, LimitExceeded, Never))))
  {
  }

  lemma EndedTurned(auths: seq<Authorization>, k: nat, calls: seq<Call<Text>>, since: nat)
    requires k < |auths| && !Passes(auths[k]) && FineSince(calls, since)
    ensures EndedBy(auths, k, false, calls, since, Turned(auths[k]))
  {
    hide FineSince, Turned;
  }

  lemma EndedRaised(auths: seq<Authorization>, k: nat, calls: seq<Call<Text>>, since: nat, call: Call<Text>)
    requires k < |auths| && Submits(auths[k]) && since <= |calls|
    ensures EndedBy(auths, k + 1, false, calls + [call], since, Raised(auths[k], call))
  {
    hide Raised, FineSince;
  }

  predicate AuthorizationFine(a: Authorization) {
    a.AlreadyValid? || (Submits(a) && Succeeded(a.ready))
  }

  /**
   Raise one record for each pending authorization, stopping at any failure. The
   first `reached` are dealt with: their pending ones, and no others, are recorded
   and submitted. `full` is the register refusing one, which takes more
   authorizations than it has room for.
   */
  method CreateDnsChallenges(provider: Provider, records: Register, auths: seq<Authorization>)
    returns (flow: Flow<()>, ghost reached: nat, ghost full: bool)
    requires records.Valid() && Owned(records.records, provider.zone, provider.acknowledged)
    requires Undeleted(records.records)
    modifies provider, records
    ensures records.Valid() && Owned(records.records, provider.zone, provider.acknowledged)
    ensures Undeleted(records.records) && old(records.records) <= records.records
    ensures |records.records| <= |old(records.records)| + |auths|
    ensures reached <= |auths| && forall a <- auths[..reached] :: Passes(a)
    ensures DomainsOf(records.records) == DomainsOf(old(records.records)) + PendingNames(auths[..reached])
    ensures provider.submitted == old(provider.submitted) + Challenges(auths[..reached])
    ensures old(provider.creates) <= provider.creates && provider.deletes == old(provider.deletes)
    ensures provider.prepares == old(provider.prepares)
    ensures RaisedBy(records.records, |old(records.records)|, provider.creates, |old(provider.creates)|)
    ensures if Succeeded(flow)
      then reached == |auths| && !full && FineSince(provider.creates, |old(provider.creates)|)
      else EndedBy(auths, reached, full, provider.creates, |old(provider.creates)|, flow)
    ensures full ==> |records.records| == MAX_CLEANUP_ITEMS
    ensures |old(records.records)| + |auths| <= MAX_CLEANUP_ITEMS ==> !full
  {
    hide Owned, Undeleted, PendingNames, Challenges, DomainsOf, AfterCreate, RaisedBy, EndedBy;
    RaisedNothing(records.records, provider.creates);
    assert PendingNames([]) == [] && Challenges([]) == [] by { NoAuthorizations(); }
    full := false;
    for k := 0 to |auths|
      invariant records.Valid() && Owned(records.records, provider.zone, provider.acknowledged)
      invariant Undeleted(records.records) && old(records.records) <= records.records
      invariant |records.records| <= |old(records.records)| + k && !full
      invariant forall a <- auths[..k] :: Passes(a)
      invariant DomainsOf(records.records) == DomainsOf(old(records.records)) + PendingNames(auths[..k])
      invariant provider.submitted == old(provider.submitted) + Challenges(auths[..k])
      invariant old(provider.creates) <= provider.creates && provider.deletes == old(provider.deletes)
      invariant provider.prepares == old(provider.prepares)
      invariant RaisedBy(records.records, |old(records.records)|, provider.creates, |old(provider.creates)|)
      invariant FineSince(provider.creates, |old(provider.creates)|)
    {
      reached := k;
      assert auths[..k + 1] == auths[..k] + [auths[k]];
      NextAuthorization(auths, k);
      if !Passes(auths[k]) { EndedTurned(auths, k, provider.creates, |old(provider.creates)|); }
      match auths[k] {
        case NextCut => return Cut, reached, full;
        case NextDropped => return Dropped, reached, full;
        case NextFails(error) => return Finished(Err(error)), reached, full;
        case AlreadyValid =>
        case NoLongerUsable => return Finished(Err(RejectedBy(Provision))), reached, full;
        case Pending(dns01, name, value, ready) =>
          if !dns01 || name.None? { return Finished(Err(RejectedBy(Provision))), reached, full; }
          ghost var before, calls := records.records, provider.creates;
          var created := CreateRecord(provider, records, name.value, DnsName.ChallengeName(name.value), value);
          if created.Finished? && created.r.Err? && |before| == MAX_CLEANUP_ITEMS {
            full := true;
            EndedFull(auths, k, provider.creates, |old(provider.creates)|);
          } else {
            DomainsGrow(before, records.records, name.value);
            ghost var call := provider.creates[|calls|];
            RaisedMore(before, |old(records.records)|, calls, |old(provider.creates)|,
                       Record(name.value, AfterCreate(call)), call);
            EndedRaised(auths, k, calls, |old(provider.creates)|, call);
            reached := k + 1;
          }
          match created {
            case Finished(Ok(_)) =>
            case other => return other, reached, full;
          }
          match ready {
            case Finished(Ok(_)) =>
            case other => return other, reached, full;
          }
      }
    }
    reached := |auths|;
    assert auths[..|auths|] == auths;
    return Finished(Ok(())), reached, full;
  }

  lemma NoAuthorizations()
    ensures PendingNames([]) == [] && Challenges([]) == []
  {
  }

  // ---------- cleanup ----------

  /** No delete is still owed an answer. */
  predicate Swept(rs: seq<Record>) {
    forall r <- rs :: r.state.Intended? || r.state.Stuck? || r.state.Resolved?
  }

  lemma ResolvedAfterDelete(rs: seq<Record>, zone: map<nat, Text>, acknowledged: set<Text>, slot: nat)
    requires Owned(rs, zone, acknowledged) && slot < |rs| && rs[slot].state.Deleting?
    ensures var zone' := Without(zone, rs[slot].state.id);
      && Owned(rs, zone', acknowledged)
      && Owned(rs[slot := rs[slot].(state := Resolved)], zone', acknowledged)
  {
  }

  lemma RenamedStateOwns(rs: seq<Record>, zone: map<nat, Text>, acknowledged: set<Text>, slot: nat, state: State)
    requires Owned(rs, zone, acknowledged) && slot < |rs|
    requires forall id :: Names(rs[slot], id) ==> Names(rs[slot].(state := state), id)
    requires state.Created? || state.Deleting? ==> state.id in acknowledged
    ensures Owned(rs[slot := rs[slot].(state := state)], zone, acknowledged)
  {
  }

  /** One delete call, with its slot marked before and after. */
  method DeleteOne(provider: Provider, records: Register, slot: nat, id: Text) returns (flow: Flow<()>)
    requires records.Valid() && Owned(records.records, provider.zone, provider.acknowledged)
    requires slot < |records.records| && records.records[slot].state == Created(id)
    modifies provider, records
    ensures records.Valid() && Owned(records.records, provider.zone, provider.acknowledged)
    ensures |records.records| == |old(records.records)|
    ensures records.records[slot].domain == old(records.records)[slot].domain
    ensures forall i :: 0 <= i < |records.records| && i != slot ==> records.records[i] == old(records.records)[i]
    ensures flow.Finished? ==> flow.r.Ok?
    ensures flow.Finished? ==> records.records[slot].state.Resolved? || records.records[slot].state.Stuck?
    ensures !flow.Finished? ==> records.records[slot].state == Deleting(id)
    ensures provider.creates == old(provider.creates) && provider.prepares == old(provider.prepares)
    ensures |provider.deletes| == |old(provider.deletes)| + 1
    ensures
      var call := provider.deletes[|old(provider.deletes)|].1;
      && provider.deletes == old(provider.deletes) + [(slot, call)]
      && records.records[slot].state == AfterDelete(id, call)
      && flow == (if FlowOf(DeleteTxt, call).Finished? then Finished(Ok(())) else FlowOf(DeleteTxt, call))
  {
    assert records.records[slot] in records.records;
    RenamedStateOwns(records.records, provider.zone, provider.acknowledged, slot, Deleting(id));
    records.MarkDeleting(slot);
    ghost var rs := records.records;
    ghost var zone := provider.zone;
    var call, _ := provider.DeleteTxt(id, slot);
    ResolvedAfterDelete(rs, zone, provider.acknowledged, slot);
    match call {
      case CutOff => return Cut;
      case FrameDropped => return Dropped;
      case _ =>
    }
    match CallbackAnswer(DeleteTxt, call) {
      case Ok(_) =>
        records.Resolve(slot);
      case Err(error) =>
        RenamedStateOwns(rs, provider.zone, provider.acknowledged, slot, Stuck(id, error.failure));
        records.MarkFailed(slot, error.failure);
    }
    return Finished(Ok(()));
  }

  /**
   The deletes in `log` went to the first created slots, in order, and left each as
   its own call said; nothing else has moved.
   */
  ghost predicate DeletedBy(start: seq<Record>, rs: seq<Record>, log: seq<(nat, Call<()>)>) {
    var created := CreatedSlots(start);
    && |rs| == |start| && |log| <= |created|
    && (forall j :: 0 <= j < |log| ==>
          && log[j].0 == created[j].0
          && rs[created[j].0] == Record(start[created[j].0].domain, AfterDelete(created[j].1, log[j].1)))
    && (forall j :: |log| <= j < |created| ==> rs[created[j].0] == start[created[j].0])
    && (forall i :: 0 <= i < |rs| && !start[i].state.Created? ==> rs[i] == start[i])
  }

  /** How a delete loop with this log came out: only its last call can cut it short. */
  ghost predicate LoopEnded(created: nat, log: seq<(nat, Call<()>)>, flow: Flow<()>) {
    && (forall j :: 0 <= j < |log| - 1 ==> FlowOf(DeleteTxt, log[j].1).Finished?)
    && (if |log| > 0 && !FlowOf(DeleteTxt, log[|log| - 1].1).Finished?
        then flow == FlowOf(DeleteTxt, log[|log| - 1].1)
        else |log| == created && flow == Finished(Ok(())))
  }

  lemma DeletedOneMore(start: seq<Record>, rs: seq<Record>, now: seq<Record>, log: seq<(nat, Call<()>)>, call: Call<()>)
    requires DeletedBy(start, rs, log) && |log| < |CreatedSlots(start)| && |now| == |rs|
    requires
      var (slot, id) := CreatedSlots(start)[|log|];
      && now[slot] == Record(start[slot].domain, AfterDelete(id, call))
      && forall i :: 0 <= i < |rs| && i != slot ==> now[i] == rs[i]
    ensures DeletedBy(start, now, log + [(CreatedSlots(start)[|log|].0, call)])
  {
    hide AfterDelete, CreatedSlots;
    var created := CreatedSlots(start);
    var slot := created[|log|].0;
    assert created[|log|] in created && start[slot].state.Created?;
    forall j | 0 <= j < |created| && j != |log| ensures now[created[j].0] == rs[created[j].0] {
      assert created[j] in created && created[j].0 != slot;
    }
    forall i | 0 <= i < |now| && !start[i].state.Created? ensures now[i] == start[i] {
      assert i != slot;
    }
  }

  method DeleteCreated(provider: Provider, records: Register)
    returns (flow: Flow<()>, ghost log: seq<(nat, Call<()>)>)
    requires records.Valid() && Owned(records.records, provider.zone, provider.acknowledged)
    modifies provider, records
    ensures records.Valid() && Owned(records.records, provider.zone, provider.acknowledged)
    ensures provider.creates == old(provider.creates) && provider.prepares == old(provider.prepares)
    ensures provider.deletes == old(provider.deletes) + log
    ensures DeletedBy(old(records.records), records.records, log)
    ensures LoopEnded(|CreatedSlots(old(records.records))|, log, flow)
  {
    hide Owned, DeletedBy, AfterDelete;
    var created := CreatedSlots(records.records);
    ghost var start := records.records;
    log := [];
    assert DeletedBy(start, start, []) by { DeletedNothing(start); }
    for k := 0 to |created|
      invariant records.Valid() && Owned(records.records, provider.zone, provider.acknowledged)
      invariant provider.creates == old(provider.creates) && provider.prepares == old(provider.prepares)
      invariant provider.deletes == old(provider.deletes) + log && |log| == k
      invariant DeletedBy(start, records.records, log)
      invariant forall j :: 0 <= j < k ==> FlowOf(DeleteTxt, log[j].1).Finished?
    {
      var (slot, id) := created[k];
      assert created[k] in created;
      ghost var was, calls := records.records, provider.deletes;
      assert was[slot] == start[slot] by { NotYetDeleted(start, was, log); }
      var deleted := DeleteOne(provider, records, slot, id);
      ghost var call := provider.deletes[|calls|].1;
      DeletedOneMore(start, was, records.records, log, call);
      log := log + [(slot, call)];
      if !deleted.Finished? { return deleted, log; }
    }
    return Finished(Ok(())), log;
  }

  lemma DeletedNothing(start: seq<Record>)
    ensures DeletedBy(start, start, [])
  {
  }

  lemma NotYetDeleted(start: seq<Record>, rs: seq<Record>, log: seq<(nat, Call<()>)>)
    requires DeletedBy(start, rs, log) && |log| < |CreatedSlots(start)|
    ensures |rs| == |start|
    ensures var slot := CreatedSlots(start)[|log|].0; slot < |rs| && rs[slot] == start[slot]
  {
  }

  /** Where cleanup leaves a slot: a delete left unanswered when the bound passed is a timeout. */
  function Cleaned(state: State, call: Option<Call<()>>, dropped: bool): State {
    if !state.Created? then state
    else if call.Some? && FlowOf(DeleteTxt, call.value).Finished? then AfterDelete(state.id, call.value)
    else if !dropped then Stuck(state.id, Timeout)
    else if call.Some? then Deleting(state.id)
    else state
  }

  /** The call that deleted slot `i`, if it came to that. */
  ghost function CallOf(log: seq<(nat, Call<()>)>, i: nat): Option<Call<()>> {
    if exists j :: 0 <= j < |log| && log[j].0 == i
    then var j :| 0 <= j < |log| && log[j].0 == i; Some(log[j].1)
    else None
  }

  lemma DeletedSlot(start: seq<Record>, rs: seq<Record>, log: seq<(nat, Call<()>)>, i: nat)
    requires DeletedBy(start, rs, log) && i < |start| && start[i].state.Created?
    ensures i < |rs|
    ensures rs[i] == Record(start[i].domain,
      if CallOf(log, i).None? then start[i].state else AfterDelete(start[i].state.id, CallOf(log, i).value))
  {
    hide AfterDelete;
    CreatedSlotsComplete(start, i);
    var created := CreatedSlots(start);
    var j :| 0 <= j < |created| && created[j] == (i, start[i].state.id);
    if j < |log| {
      assert log[j].0 == i;
      forall m | 0 <= m < |log| && log[m].0 == i ensures m == j {
        assert created[m].0 == created[j].0;
      }
    } else {
      forall m | 0 <= m < |log| ensures log[m].0 != i {
        assert created[m].0 < created[j].0;
      }
    }
  }

  /** A cleanup that ran its course asked for every created slot, and was answered. */
  lemma RunThrough(start: seq<Record>, log: seq<(nat, Call<()>)>, i: nat)
    requires |log| == |CreatedSlots(start)| && i < |start| && start[i].state.Created?
    requires forall j :: 0 <= j < |log| ==> log[j].0 == CreatedSlots(start)[j].0 && FlowOf(DeleteTxt, log[j].1).Finished?
    ensures CallOf(log, i).Some? && FlowOf(DeleteTxt, CallOf(log, i).value).Finished?
  {
    CreatedSlotsComplete(start, i);
    var j :| 0 <= j < |log| && CreatedSlots(start)[j] == (i, start[i].state.id);
    assert log[j].0 == i;
  }

  /** What cleanup made of the slots: each one by its own delete, and every one of them tried unless one was cut. */
  ghost predicate CleanedBy(start: seq<Record>, rs: seq<Record>, log: seq<(nat, Call<()>)>, dropped: bool) {
    && |rs| == |start|
    && (forall i: nat :: i < |rs| ==>
          rs[i] == Record(start[i].domain, Cleaned(start[i].state, CallOf(log, i), dropped)))
    && (forall d <- log :: d.0 < |start| && start[d.0].state.Created?)
    && (dropped <==> exists d <- log :: d.1.FrameDropped?)
    && (DeletesFineSince(log, 0) ==> forall i: nat :: i < |rs| && start[i].state.Created? ==> rs[i].state.Resolved?)
    && (forall d <- log :: Fine(d.1) ==> rs[d.0].state.Resolved?)
  }

  lemma CleanedSlots(start: seq<Record>, rs: seq<Record>, now: seq<Record>, log: seq<(nat, Call<()>)>, flow: Flow<()>)
    requires DeletedBy(start, rs, log) && LoopEnded(|CreatedSlots(start)|, log, flow) && Undeleted(start)
    requires |now| == |rs|
    requires flow.Cut? ==> forall i :: 0 <= i < |rs| ==> now[i] == Record(rs[i].domain, OnExpire(rs[i].state))
    requires !flow.Cut? ==> now == rs
    ensures forall i: nat :: i < |now| ==>
      now[i] == Record(start[i].domain, Cleaned(start[i].state, CallOf(log, i), flow.Dropped?))
  {
    hide CallOf, CreatedSlots;
    forall i: nat | i < |now|
      ensures now[i] == Record(start[i].domain, Cleaned(start[i].state, CallOf(log, i), flow.Dropped?))
    {
      assert start[i] in start;
      if start[i].state.Created? {
        DeletedSlot(start, rs, log, i);
        if flow.Finished? { RunThrough(start, log, i); }
      }
    }
  }

  lemma CleanedExactly(start: seq<Record>, now: seq<Record>, log: seq<(nat, Call<()>)>, rs: seq<Record>, flow: Flow<()>)
    requires DeletedBy(start, rs, log) && LoopEnded(|CreatedSlots(start)|, log, flow) && |now| == |rs|
    requires forall i: nat :: i < |now| ==>
      now[i] == Record(start[i].domain, Cleaned(start[i].state, CallOf(log, i), flow.Dropped?))
    ensures CleanedBy(start, now, log, flow.Dropped?)
  {
    hide CallOf, LoopEnded, DeletedBy, CreatedSlots, Cleaned;
    DeletedLength(start, rs, log);
    forall d <- log ensures d.0 < |start| && start[d.0].state.Created? && (Fine(d.1) ==> now[d.0].state.Resolved?) {
      var j :| 0 <= j < |log| && log[j] == d;
      OneCall(start, rs, log, j);
      if Fine(d.1) { FineIsResolved(start[d.0].state, d.1, flow.Dropped?); }
    }
    DroppedByLast(|CreatedSlots(start)|, log, flow);
    if DeletesFineSince(log, 0) {
      forall i: nat | i < |now| && start[i].state.Created? ensures now[i].state.Resolved? {
        FineRunsThrough(start, rs, log, flow, i);
        FineIsResolved(start[i].state, CallOf(log, i).value, flow.Dropped?);
      }
    }
  }

  lemma FineIsResolved(state: State, call: Call<()>, dropped: bool)
    requires state.Created? && Fine(call)
    ensures Cleaned(state, Some(call), dropped) == Resolved
  {
  }

  lemma DroppedByLast(created: nat, log: seq<(nat, Call<()>)>, flow: Flow<()>)
    requires LoopEnded(created, log, flow)
    ensures flow.Dropped? <==> exists d <- log :: d.1.FrameDropped?
  {
    if flow.Dropped? { assert log[|log| - 1] in log; }
  }

  lemma FineRunsThrough(start: seq<Record>, rs: seq<Record>, log: seq<(nat, Call<()>)>, flow: Flow<()>, i: nat)
    requires DeletedBy(start, rs, log) && LoopEnded(|CreatedSlots(start)|, log, flow) && DeletesFineSince(log, 0)
    requires i < |start| && start[i].state.Created?
    ensures CallOf(log, i).Some? && Fine(CallOf(log, i).value)
  {
    hide CallOf;
    RunThrough(start, log, i);
    CallIsLogged(log, i);
  }

  lemma OneCall(start: seq<Record>, rs: seq<Record>, log: seq<(nat, Call<()>)>, j: nat)
    requires DeletedBy(start, rs, log) && j < |log|
    ensures log[j].0 < |start| && start[log[j].0].state.Created? && CallOf(log, log[j].0) == Some(log[j].1)
  {
    var created := CreatedSlots(start);
    assert created[j] in created;
    forall m | 0 <= m < |log| && log[m].0 == log[j].0 ensures m == j {
      assert created[m].0 == created[j].0;
    }
  }

  lemma CallIsLogged(log: seq<(nat, Call<()>)>, i: nat)
    requires CallOf(log, i).Some?
    ensures exists j :: 0 <= j < |log| && log[j] == (i, CallOf(log, i).value)
  {
    var j :| 0 <= j < |log| && log[j].0 == i && log[j].1 == CallOf(log, i).value;
    assert log[j] == (i, CallOf(log, i).value);
  }

  lemma CleanedIsSwept(start: seq<Record>, rs: seq<Record>, log: seq<(nat, Call<()>)>)
    requires CleanedBy(start, rs, log, false) && Undeleted(start)
    ensures Swept(rs)
  {
    hide CallOf;
    forall i | 0 <= i < |rs| ensures rs[i].state.Intended? || rs[i].state.Stuck? || rs[i].state.Resolved? {
      assert start[i] in start;
    }
  }

  /** Delete every acknowledged record; whatever the bound cuts short is named. */
  method CleanUp(provider: Provider, records: Register) returns (dropped: bool, ghost log: seq<(nat, Call<()>)>)
    requires records.Valid() && Owned(records.records, provider.zone, provider.acknowledged)
    requires Undeleted(records.records)
    modifies provider, records
    ensures records.Valid() && Owned(records.records, provider.zone, provider.acknowledged)
    ensures |records.records| == |old(records.records)|
    ensures !dropped ==> Swept(records.records)
    ensures provider.creates == old(provider.creates) && provider.prepares == old(provider.prepares)
    ensures provider.deletes == old(provider.deletes) + log
    ensures CleanedBy(old(records.records), records.records, log, dropped)
  {
    hide CleanedBy, Swept, Undeleted, DeletedBy, LoopEnded;
    var flow;
    flow, log := DeleteCreated(provider, records);
    assert |records.records| == |old(records.records)| by { DeletedLength(old(records.records), records.records, log); }
    ghost var rs := records.records;
    if flow.Cut? {
      records.Expire();
      assert Owned(records.records, provider.zone, provider.acknowledged);
    }
    CleanedSlots(old(records.records), rs, records.records, log, flow);
    CleanedExactly(old(records.records), records.records, log, rs, flow);
    if !flow.Dropped? { CleanedIsSwept(old(records.records), records.records, log); }
    return flow.Dropped?, log;
  }

  lemma DeletedLength(start: seq<Record>, rs: seq<Record>, log: seq<(nat, Call<()>)>)
    requires DeletedBy(start, rs, log)
    ensures |rs| == |start|
  {
  }

  /** What is left to clean up outranks how issuing went. */
  function Settle<T>(issued: Result<T, IntegrationError>, incomplete: Option<IntegrationError>)
    : Result<T, IntegrationError>
  {
    match (incomplete, issued)
    case (None, _) => issued
    case (Some(error), Ok(_)) => Err(error)
    case (Some(error), Err(failed)) => Err(error.WithSource(failed))
  }

  // ---------- the whole order ----------

  const ACCOUNT: Text := "account.json"

  /** What a stored account file turns out to hold. */
  datatype Stored = NotCredentials | OtherDirectory | ThisDirectory

  /**
   Everything the order cannot choose: stops, deadlines and the ACME side. A new
   account comes with its credentials in bytes, unless they do not serialize.
   */
  datatype Script = Script(
    stopped: nat -> bool,
    cutError: IntegrationError,
    transport: Result<(), IntegrationError>,
    stored: Bytes -> Stored,
    reused: Flow<()>,
    registered: Flow<Option<Bytes>>,
    orderOpened: Flow<()>,
    authorizations: seq<Authorization>,
    finalized: Flow<(Bytes, Bytes)>,
    now: int)

  /** A step refused because a stop had been asked for, or cut by one. */
  function Stepped<T>(flow: Flow<T>, cutError: IntegrationError): Flow<T> {
    if flow.Cut? then Finished(Err(cutError)) else flow
  }

  /** An order step that came to nothing, as the answer of a longer one. */
  function Lost<T>(flow: Flow<()>): Flow<T>
    requires !Succeeded(flow)
  {
    match flow
    case Finished(Err(error)) => Finished(Err(error))
    case Cut => Cut
    case Dropped => Dropped
  }

  /** Whether an order must register, given what its account file holds. */
  predicate Registers(script: Script, stored: Option<Bytes>) {
    stored.None? || script.stored(stored.value).OtherDirectory?
  }

  /** The account an order that can read its file comes to. */
  function AccountAnswer(script: Script, stored: Option<Bytes>): Flow<()> {
    if Registers(script, stored) then
      match Stepped(script.registered, script.cutError)
      case Finished(Err(error)) => Finished(Err(error))
      case Dropped => Dropped
      case _ => Finished(Ok(()))
    else if script.stored(stored.value).NotCredentials? then Finished(Err(RejectedBy(CacheRead)))
    else Stepped(script.reused, script.cutError)
  }

  predicate IsIoFailure<T>(operation: Operation, flow: Flow<T>) {
    || (flow.Finished? && flow.r == Err(IoFailure(operation, false)))
    || (flow.Finished? && flow.r == Err(IoFailure(operation, true)))
  }

  /**
   Reuses the stored account, or registers one and stores its credentials. Storing
   them may fail without failing the order; no other file is touched.
   */
  method LoadOrCreateAccount(fs: FileSystem, script: Script, random: nat -> Text, attempts: nat -> Text)
    returns (flow: Flow<()>)
    requires fs.Valid()
    modifies fs
    ensures fs.Valid() && !flow.Cut? && OthersKept(old(fs.disk), fs.disk, ACCOUNT)
    ensures fs.disk != old(fs.disk) ==>
      && Registers(script, old(fs.disk).Read(ACCOUNT))
      && script.registered.Finished? && script.registered.r.Ok? && script.registered.r.value.Some?
      && var credentials := script.registered.r.value.value;
         Sound(fs.disk, ACCOUNT, {old(fs.disk).Read(ACCOUNT), Some(credentials)},
               CrashFinds(old(fs.disk), ACCOUNT) + {Whole(Some(credentials))})
    ensures old(fs.troubles) <= fs.troubles
    ensures flow == AccountAnswer(script, old(fs.disk).Read(ACCOUNT)) ||
            (IsIoFailure(CacheRead, flow) && fs.troubles == old(fs.troubles) + [Reading] && fs.disk == old(fs.disk))
    ensures fs.troubles == old(fs.troubles) ==> flow == AccountAnswer(script, old(fs.disk).Read(ACCOUNT))
    ensures
      && fs.troubles == old(fs.troubles) && !Crowded(old(fs.disk), ACCOUNT, random, attempts)
      && Registers(script, old(fs.disk).Read(ACCOUNT))
      && script.registered.Finished? && script.registered.r.Ok? && script.registered.r.value.Some? ==>
      Durable(fs.disk, ACCOUNT, script.registered.r.value.value)
  {
    hide OthersKept, Sound, CrashFinds, Crowded, Durable;
    KeepsItself(fs.disk, ACCOUNT);
    var data := ReadOptional(fs, ACCOUNT);
    var denied: bool := *;
    match data {
      case Err(_) => return Finished(Err(IoFailure(CacheRead, denied)));
      case Ok(None) =>
      case Ok(Some(bytes)) =>
        match script.stored(bytes) {
          case NotCredentials => return Finished(Err(RejectedBy(CacheRead)));
          case ThisDirectory => return Stepped(script.reused, script.cutError);
          case OtherDirectory =>
        }
    }
    match Stepped(script.registered, script.cutError) {
      case Dropped => return Dropped;
      case Finished(Err(error)) => return Finished(Err(error));
      case Finished(Ok(credentials)) =>
        if credentials.Some? {
          var _ := WriteCacheFile(fs, ACCOUNT, credentials.value, None, random, attempts);
        }
        return Finished(Ok(()));
    }
  }

  /** An order writes its account and then its bundle; every other file is kept. */
  lemma AccountThenBundle(was: Disk, mid: Disk, now: Disk)
    requires was.Wf() && OthersKept(was, mid, ACCOUNT) && OthersKept(mid, now, BUNDLE)
    ensures forall n <- was.dir | n != ACCOUNT && n != BUNDLE :: Unseen(was, now, n)
  {
    hide Unseen;
    forall n <- was.dir | n != ACCOUNT && n != BUNDLE ensures Unseen(was, now, n) {
      assert n in mid.dir by { KeptIsPresent(was, mid, n); }
      UnseenTwice(was, mid, now, n);
    }
  }

  lemma AccountLeavesBundle(was: Disk, now: Disk)
    requires OthersKept(was, now, ACCOUNT)
    ensures Unseen(was, now, BUNDLE)
  {
    BundleIsNotTemporary(ACCOUNT);
    assert ACCOUNT[0] == 'a' && BUNDLE[0] == 'c';
  }

  lemma KeptIsPresent(was: Disk, now: Disk, name: Text)
    requires was.Wf() && name in was.dir && Unseen(was, now, name)
    ensures name in now.dir
  {
  }

  /** The names a bundle would be staged under are not the account's to take. */
  lemma AccountCrowdsNothing(was: Disk, now: Disk, random: nat -> Text, attempts: nat -> Text)
    requires was.Wf() && now.Wf() && OthersKept(was, now, ACCOUNT)
    ensures Crowded(now, BUNDLE, random, attempts) <==> Crowded(was, BUNDLE, random, attempts)
  {
    hide CrashFinds;
    forall k: nat | k < 16
      ensures
        var tmp := TempName(BUNDLE, random(k), attempts(k));
        tmp in now.dir <==> tmp in was.dir
    {
      var tmp := TempName(BUNDLE, random(k), attempts(k));
      assert tmp[1] == 'c' && ("." + ACCOUNT + ".")[1] == 'a' && tmp[0] == '.' && ACCOUNT[0] == 'a';
      assert tmp != ACCOUNT && !Temporary(ACCOUNT, tmp);
      assert Unseen(was, now, tmp);
    }
  }

  // ---------- opening and issuing ----------

  /** How an order opens, from its preparation and its account. */
  function Opening(script: Script, prepared: Call<()>, account: Flow<()>): Flow<()> {
    if script.stopped(0) then Finished(Err(script.cutError))
    else if prepared.FrameDropped? || prepared.Unwound? then Dropped
    else if prepared.CutOff? then Finished(Err(script.cutError))
    else if prepared.r.Err? then Finished(Err(ProviderFailure(ZoneLookup, prepared.r.error)))
    else if script.stopped(1) then Finished(Err(script.cutError))
    else if script.transport.Err? then Finished(Err(script.transport.error))
    else if !Succeeded(account) then account
    else if script.stopped(2) then Finished(Err(script.cutError))
    else Stepped(script.orderOpened, script.cutError)
  }

  /** Prepares the provider, finds the account and opens the order. */
  method Open(provider: Provider, fs: FileSystem, script: Script, random: nat -> Text, attempts: nat -> Text)
    returns (flow: Flow<()>, ghost prepared: Call<()>, ghost account: Flow<()>)
    requires fs.Valid()
    modifies provider`prepares, fs
    ensures fs.Valid() && OthersKept(old(fs.disk), fs.disk, ACCOUNT) && !flow.Cut?
    ensures provider.prepares == old(provider.prepares) + if script.stopped(0) then [] else [prepared]
    ensures old(fs.troubles) <= fs.troubles
    ensures account == AccountAnswer(script, old(fs.disk).Read(ACCOUNT)) ||
            (IsIoFailure(CacheRead, account) && fs.troubles == old(fs.troubles) + [Reading])
    ensures flow == Opening(script, prepared, account)
  {
    hide OthersKept, Sound, Durable, CrashFinds, Crowded;
    KeepsItself(fs.disk, ACCOUNT);
    prepared, account := CutOff, AccountAnswer(script, fs.disk.Read(ACCOUNT));
    if script.stopped(0) { return Finished(Err(script.cutError)), prepared, account; }
    var reply := provider.Prepare();
    prepared := reply;
    match reply {
      case FrameDropped => return Dropped, prepared, account;
      case CutOff => return Finished(Err(script.cutError)), prepared, account;
      case Unwound => return Dropped, prepared, account;
      case Replied(Err(error)) => return Finished(Err(ProviderFailure(ZoneLookup, error))), prepared, account;
      case Replied(Ok(_)) =>
    }
    if script.stopped(1) { return Finished(Err(script.cutError)), prepared, account; }
    if script.transport.Err? { return Finished(Err(script.transport.error)), prepared, account; }
    var found := LoadOrCreateAccount(fs, script, random, attempts);
    account := found;
    if !Succeeded(found) { return found, prepared, account; }
    if script.stopped(2) { return Finished(Err(script.cutError)), prepared, account; }
    return Stepped(script.orderOpened, script.cutError), prepared, account;
  }

  /** Why issuing came out so: a stop, the challenges, or what the finished order gave. */
  ghost predicate IssuedBy(script: Script, creates: seq<Call<Text>>, since: nat, flow: Flow<(Bytes, Bytes)>) {
    if script.stopped(3) then |creates| == since && flow == Finished(Err(script.cutError))
    else
      || (FineSince(creates, since)
          && flow == if script.stopped(4) then Finished(Err(script.cutError))
                     else Stepped(script.finalized, script.cutError))
      || ChallengesFailed(script, creates, since, flow)
  }

  ghost predicate ChallengesFailed(script: Script, creates: seq<Call<Text>>, since: nat, flow: Flow<(Bytes, Bytes)>) {
    exists reached: nat, full, raised ::
      && EndedBy(script.authorizations, reached, full, creates, since, raised)
      && !Succeeded(raised) && flow == Lost(Stepped(raised, script.cutError))
      && (full ==> |script.authorizations| > MAX_CLEANUP_ITEMS - since)
  }

  /** Raises the challenges and finishes the order they unlock. */
  method Issue(provider: Provider, records: Register, script: Script) returns (flow: Flow<(Bytes, Bytes)>)
    requires records.Valid() && Owned(records.records, provider.zone, provider.acknowledged)
    requires Undeleted(records.records) && |records.records| == |provider.creates|
    modifies provider, records
    ensures records.Valid() && Owned(records.records, provider.zone, provider.acknowledged)
    ensures Undeleted(records.records) && !flow.Cut?
    ensures provider.deletes == old(provider.deletes) && provider.prepares == old(provider.prepares)
    ensures old(records.records) <= records.records && old(provider.creates) <= provider.creates
    ensures RaisedBy(records.records, |old(records.records)|, provider.creates, |old(provider.creates)|)
    ensures IssuedBy(script, provider.creates, |old(provider.creates)|, flow)
  {
    hide Owned, Undeleted, AfterCreate, EndedBy, FineSince;
    if script.stopped(3) { return Finished(Err(script.cutError)); }
    var raised, reached, full := CreateDnsChallenges(provider, records, script.authorizations);
    assert !Succeeded(raised) ==>
      EndedBy(script.authorizations, reached, full, provider.creates, |old(provider.creates)|, raised);
    match Stepped(raised, script.cutError) {
      case Dropped => return Dropped;
      case Finished(Err(error)) => return Finished(Err(error));
      case Finished(Ok(_)) =>
    }
    if script.stopped(4) { return Finished(Err(script.cutError)); }
    return Stepped(script.finalized, script.cutError);
  }

  lemma FineEnds(auths: seq<Authorization>, reached: nat, creates: seq<Call<Text>>, raised: Flow<()>)
    requires forall a <- auths :: AuthorizationFine(a)
    requires FineSince(creates, 0) && EndedBy(auths, reached, false, creates, 0, raised)
    ensures Succeeded(raised)
  {
    assert reached < |auths| ==> auths[reached] in auths;
    assert 0 < reached <= |auths| ==> auths[reached - 1] in auths;
  }

  /** With every authorization usable and every create answered, the challenges do not fail. */
  lemma FineChallenges(script: Script, creates: seq<Call<Text>>, flow: Flow<(Bytes, Bytes)>)
    requires forall a <- script.authorizations :: AuthorizationFine(a)
    requires |script.authorizations| <= MAX_CLEANUP_ITEMS && FineSince(creates, 0)
    ensures !ChallengesFailed(script, creates, 0, flow)
  {
    hide EndedBy, FineSince;
    if ChallengesFailed(script, creates, 0, flow) {
      var reached: nat, full, raised :|
        && EndedBy(script.authorizations, reached, full, creates, 0, raised)
        && !Succeeded(raised) && (full ==> |script.authorizations| > MAX_CLEANUP_ITEMS);
      FineEnds(script.authorizations, reached, creates, raised);
    }
  }

  /** The account names the leftover of slot `i`, and why it is left. */
  ghost predicate AccountNames(error: IntegrationError, rs: seq<Record>, i: nat, id: Text) {
    && error.failure.CleanupIncomplete? && i < |rs|
    && (exists item <- error.cleanup ::
          && item.domain == rs[i].domain
          && (if rs[i].state.Intended? then item.recordId == None else item.recordId == Some(id))
          && (if rs[i].state.Stuck? then item.failure == rs[i].state.why
              else item.failure == if rs[i].state.Created? then Cancelled else OutcomeUnknown))
  }

  lemma OwnedIsNamed(rs: seq<Record>, zone: map<nat, Text>, acknowledged: set<Text>, error: IntegrationError, i: nat)
    requires Owned(rs, zone, acknowledged) && i in zone && AccountComplete(error, rs)
    ensures AccountNames(error, rs, i, zone[i])
  {
    assert rs[i].Unresolved().value in error.cleanup;
  }

  /** Leftovers never share an item: the account is at least as long as they are many. */
  lemma OneItemEach(rs: seq<Record>, zone: map<nat, Text>, acknowledged: set<Text>)
    requires Owned(rs, zone, acknowledged)
    ensures |zone| <= |Items(rs)|
  {
    ItemsCountOwed(rs);
    assert zone.Keys <= OwedSlots(rs);
    SubsetSize(zone.Keys, OwedSlots(rs));
  }

  lemma SubsetSize(a: set<nat>, b: set<nat>)
    requires a <= b
    ensures |a| <= |b|
  {
    assert b == a + (b - a);
  }

  /** Every slot still owed is named in this account, whatever its create has left so far. */
  ghost predicate AccountComplete(error: IntegrationError, rs: seq<Record>) {
    forall i :: 0 <= i < |rs| && rs[i].IsOwed() ==>
      error.failure.CleanupIncomplete? && rs[i].Unresolved().value in error.cleanup
  }

  /** A create that lands only after the order answered was named by that answer. */
  lemma LateWriteIsNamed(rs: seq<Record>, zone: map<nat, Text>, acknowledged: set<Text>, error: IntegrationError,
                         slot: nat, id: Text)
    requires Owned(rs, zone, acknowledged) && AccountComplete(error, rs)
    requires slot < |rs| && rs[slot].state.Intended?
    ensures AccountNames(error, rs, slot, id)
  {
    LateWriteIsOwned(rs, zone, acknowledged, slot, id);
    OwnedIsNamed(rs, zone[slot := id], acknowledged, error, slot);
  }

  /** Validate the issued pair against the domains and publish it. */
  method PublishIssued(fs: FileSystem, parse: Parser, domains: seq<Text>, cert: Bytes, key: Bytes, now: int,
                       random: nat -> Text, attempts: nat -> Text)
    returns (flow: Flow<Generation>)
    requires fs.Valid()
    modifies fs
    ensures fs.Valid() && flow.Finished? && OthersKept(old(fs.disk), fs.disk, BUNDLE)
    ensures old(fs.troubles) <= fs.troubles
    ensures flow.r.Ok? ==> Durable(fs.disk, BUNDLE, flow.r.value.bundle)
    ensures flow.r.Ok? ==> flow.r.value.bundle == BundleOf(cert, key)
    ensures match Validate(parse, BundleOf(cert, key), domains, now)
      case Err(_) => fs.disk == old(fs.disk) && flow.r == Err(Failed(Provision, InvalidCertificate, Never))
      case Ok(generation) =>
        if fs.troubles == old(fs.troubles) && !Crowded(old(fs.disk), BUNDLE, random, attempts)
        then flow.r == Ok(generation) else IsIoFailure(CacheWrite, flow)
  {
    hide OthersKept, Sound, Durable, CrashFinds, Crowded;
    KeepsItself(fs.disk, BUNDLE);
    match Validate(parse, BundleOf(cert, key), domains, now) {
      case Err(_) => return Finished(Err(Failed(Provision, InvalidCertificate, Never)));
      case Ok(generation) =>
        var published := PublishGeneration(fs, generation, None, random, attempts);
        var denied: bool := *;
        match published {
          case Err(_) => return Finished(Err(IoFailure(CacheWrite, denied)));
          case Ok(_) => return Finished(Ok(generation));
        }
    }
  }

  // ---------- every order ----------

  /** Every record stands as its create left it, or as the delete that followed did. */
  ghost predicate Settled(rs: seq<Record>, creates: seq<Call<Text>>, log: seq<(nat, Call<()>)>, dropped: bool) {
    && |rs| == |creates|
    && (forall i: nat :: i < |rs| ==> rs[i].state == Cleaned(AfterCreate(creates[i]), CallOf(log, i), dropped))
    && (forall d <- log :: d.0 < |rs| && (Fine(d.1) ==> rs[d.0].state.Resolved?))
  }

  /** Nothing stops the issuing of a certificate short of what the provider answers. */
  ghost predicate IssuesSmoothly(script: Script) {
    && !script.stopped(3) && !script.stopped(4)
    && |script.authorizations| <= MAX_CLEANUP_ITEMS && (forall a <- script.authorizations :: AuthorizationFine(a))
  }

  /** An order that meets with nothing but success, as far as it cannot choose. */
  ghost predicate Smooth(script: Script, stored: Option<Bytes>) {
    && !script.stopped(0) && !script.stopped(1) && !script.stopped(2) && IssuesSmoothly(script)
    && script.transport.Ok? && Succeeded(AccountAnswer(script, stored)) && Succeeded(script.orderOpened)
    && Succeeded(script.finalized)
  }

  ghost predicate AllFine(provider: Provider)
    reads provider
  {
    && FineSince(provider.prepares, 0) && FineSince(provider.creates, 0) && DeletesFineSince(provider.deletes, 0)
  }

  lemma SettledBy(start: seq<Record>, rs: seq<Record>, creates: seq<Call<Text>>, log: seq<(nat, Call<()>)>, dropped: bool)
    requires RaisedBy(start, 0, creates, 0) && CleanedBy(start, rs, log, dropped)
    ensures Settled(rs, creates, log, dropped)
    ensures FineSince(creates, 0) && DeletesFineSince(log, 0) ==> forall r <- rs :: !r.IsOwed()
  {
    hide CallOf, Cleaned;
  }

  lemma NothingSettled()
    ensures Settled([], [], [], true) && Settled([], [], [], false)
  {
  }

  lemma RaisedIsSettled(rs: seq<Record>, creates: seq<Call<Text>>)
    requires RaisedBy(rs, 0, creates, 0)
    ensures Settled(rs, creates, [], true)
  {
    hide AfterCreate;
  }

  lemma NothingSwept()
    ensures Swept([]) && Undeleted([])
  {
  }

  /** How an order that opened answers, from what it issued and what is left owed. */
  ghost predicate AnsweredBy<T(!new)>(issued: Result<(Bytes, Bytes), IntegrationError>, rs: seq<Record>,
                                r: Result<T, IntegrationError>)
  {
    && (issued.Err? && (forall x <- rs :: !x.IsOwed()) ==> r == Err(issued.error))
    && ((exists x <- rs :: x.IsOwed()) ==>
          && r.Err? && r.error.failure.CleanupIncomplete? && r.error.cleanup == Items(rs)
          && (issued.Err? ==> r.error.source == Caused(issued.error)))
  }

  lemma AnswerCarries(issued: Result<(Bytes, Bytes), IntegrationError>, rs: seq<Record>,
                      r: Result<(Bytes, Bytes), IntegrationError>, answer: Result<Generation, IntegrationError>)
    requires AnsweredBy(issued, rs, r)
    requires r.Err? ==> answer == Err(r.error)
    requires r.Ok? ==> r == issued && forall x <- rs :: !x.IsOwed()
    ensures AnsweredBy(issued, rs, answer)
  {
  }

  /** Issue under a cleanup that runs however issuing went. */
  method IssueThenClean(provider: Provider, records: Register, script: Script)
    returns (flow: Flow<(Bytes, Bytes)>, ghost issued: Flow<(Bytes, Bytes)>)
    requires records.records == [] && provider.zone == map[] && provider.acknowledged == {}
    requires provider.creates == [] && provider.deletes == []
    modifies provider, records
    ensures records.Valid() && Owned(records.records, provider.zone, provider.acknowledged)
    ensures !flow.Cut? && provider.prepares == old(provider.prepares)
    ensures Settled(records.records, provider.creates, provider.deletes, flow.Dropped?)
    ensures IssuedBy(script, provider.creates, 0, issued)
    ensures flow.Finished? ==> Swept(records.records) && issued.Finished?
    ensures flow.Finished? ==> AnsweredBy(issued.r, records.records, flow.r)
    ensures flow.Finished? && flow.r.Err? ==> AccountComplete(flow.r.error, records.records)
    ensures flow.Finished? && flow.r.Ok? ==> flow == issued && forall r <- records.records :: !r.IsOwed()
    ensures IssuesSmoothly(script) && FineSince(provider.creates, 0) && DeletesFineSince(provider.deletes, 0) ==>
      flow == Stepped(script.finalized, script.cutError)
  {
    hide Owned, RaisedBy, CleanedBy, Settled, Swept, Undeleted, FineSince, AfterCreate, ChallengesFailed;
    assert Owned([], map[], {}) && Undeleted([]) by { NothingOwned(); }
    flow := Issue(provider, records, script);
    issued := flow;
    ghost var start := records.records;
    RaisedIsSettled(start, provider.creates);
    if IssuesSmoothly(script) && FineSince(provider.creates, 0) {
      FineChallenges(script, provider.creates, issued);
    }
    if flow.Dropped? { return; }
    var dropped, log := CleanUp(provider, records);
    assert provider.deletes == log;
    SettledBy(start, records.records, provider.creates, log, dropped);
    if dropped {
      assert !DeletesFineSince(log, 0) by { DroppedIsNotFine(start, records.records, log); }
      return Dropped, issued;
    }
    var incomplete := records.Incomplete();
    flow := Finished(Settle(flow.r, incomplete));
  }

  lemma NothingOwned()
    ensures Owned([], map[], {}) && Undeleted([])
  {
  }

  lemma DroppedIsNotFine(start: seq<Record>, rs: seq<Record>, log: seq<(nat, Call<()>)>)
    requires CleanedBy(start, rs, log, true)
    ensures !DeletesFineSince(log, 0)
  {
    var d :| d in log && d.1.FrameDropped?;
    var j :| 0 <= j < |log| && log[j] == d;
  }

  /**
   Whatever the provider does and wherever the order is cut, every record it may
   have left has its own unresolved slot. Once the order answers, every owed slot
   is named in that answer, and a certificate comes back only when nothing is
   owed and the cache durably holds it. A slot whose delete was answered is
   resolved, and an order that meets no failure publishes the pair it was given.
   */
  method RunOrder(provider: Provider, records: Register, fs: FileSystem, parse: Parser, domains: seq<Text>,
                  script: Script, random: nat -> Text, attempts: nat -> Text)
    returns (flow: Flow<Generation>, ghost opening: Flow<()>, ghost issued: Flow<(Bytes, Bytes)>)
    requires records.records == [] && provider.zone == map[] && provider.acknowledged == {}
    requires provider.prepares == [] && provider.creates == [] && provider.deletes == []
    requires fs.Valid()
    modifies provider, records, fs
    ensures records.Valid() && Owned(records.records, provider.zone, provider.acknowledged)
    ensures !flow.Cut?
    ensures flow.Finished? ==> Swept(records.records)
    ensures flow.Finished? && flow.r.Err? ==> AccountComplete(flow.r.error, records.records)
    ensures flow.Finished? && flow.r.Err? ==> forall i <- provider.zone ::
      AccountNames(flow.r.error, records.records, i, provider.zone[i])
    ensures flow.Finished? && flow.r.Ok? ==>
      && provider.zone == map[] && (forall r <- records.records :: !r.IsOwed())
      && Durable(fs.disk, BUNDLE, flow.r.value.bundle)
      && Validate(parse, flow.r.value.bundle, domains, script.now) == Ok(flow.r.value)
    ensures provider.zone != map[] ==> Unseen(old(fs.disk), fs.disk, BUNDLE)
    ensures forall n <- old(fs.disk).dir | n != ACCOUNT && n != BUNDLE :: Unseen(old(fs.disk), fs.disk, n)
    ensures Settled(records.records, provider.creates, provider.deletes, flow.Dropped?)
    ensures !Succeeded(opening) ==> flow == Lost(opening) && provider.creates == [] && records.records == []
    ensures Succeeded(opening) ==> IssuedBy(script, provider.creates, 0, issued)
    ensures Succeeded(opening) && flow.Finished? ==>
      issued.Finished? && AnsweredBy(issued.r, records.records, flow.r)
    ensures
      && Smooth(script, old(fs.disk).Read(ACCOUNT)) && AllFine(provider) && fs.troubles == old(fs.troubles)
      && !Crowded(old(fs.disk), BUNDLE, (k: nat) => random(k + 16), (k: nat) => attempts(k + 16)) ==>
      var pair := script.finalized.r.value;
      flow == Finished(match Validate(parse, BundleOf(pair.0, pair.1), domains, script.now)
                       case Ok(generation) => Ok(generation)
                       case Err(_) => Err(Failed(Provision, InvalidCertificate, Never)))
  {
    hide Durable, Unseen, OthersKept, Sound, Crowded, IssuedBy, Settled, Swept, FineSince, AccountAnswer, AnsweredBy, Owned;
    NothingSettled();
    assert Swept([]) && Owned([], map[], {}) by { NothingSwept(); NothingOwned(); }
    issued := Dropped;
    var start, prepared, account := Open(provider, fs, script, random, attempts);
    opening := start;
    ghost var mid := fs.disk;
    KeepsItself(mid, BUNDLE);
    AccountThenBundle(old(fs.disk), mid, mid);
    AccountLeavesBundle(old(fs.disk), mid);
    if AllFine(provider) && !script.stopped(0) { assert Fine(prepared) by { PreparedIsFine(provider, prepared); } }
    match start {
      case Dropped => return Dropped, opening, issued;
      case Finished(Err(error)) => return Finished(Err(error)), opening, issued;
      case Finished(Ok(_)) =>
    }
    var settled;
    settled, issued := IssueThenClean(provider, records, script);
    match settled {
      case Dropped => return Dropped, opening, issued;
      case Finished(Err(error)) =>
        forall i <- provider.zone ensures AccountNames(error, records.records, i, provider.zone[i]) {
          OwnedIsNamed(records.records, provider.zone, provider.acknowledged, error, i);
        }
        AnswerCarries(issued.r, records.records, settled.r, Err(error));
        return Finished(Err(error)), opening, issued;
      case Finished(Ok(pair)) =>
        assert forall i :: 0 <= i < |records.records| ==> records.records[i] in records.records;
        assert provider.zone == map[] by { NothingLeft(records.records, provider.zone, provider.acknowledged); }
        flow := PublishIssued(fs, parse, domains, pair.0, pair.1, script.now,
                              (k: nat) => random(k + 16), (k: nat) => attempts(k + 16));
        AnswerCarries(issued.r, records.records, settled.r, flow.r);
        AccountThenBundle(old(fs.disk), mid, fs.disk);
        AccountCrowdsNothing(old(fs.disk), mid, (k: nat) => random(k + 16), (k: nat) => attempts(k + 16));
    }
  }

  lemma NothingLeft(rs: seq<Record>, zone: map<nat, Text>, acknowledged: set<Text>)
    requires Owned(rs, zone, acknowledged) && forall i :: 0 <= i < |rs| ==> !rs[i].IsOwed()
    ensures zone == map[]
  {
    assert zone.Keys == {};
  }

  lemma PreparedIsFine(provider: Provider, prepared: Call<()>)
    requires provider.prepares == [prepared] && FineSince(provider.prepares, 0)
    ensures Fine(prepared)
  {
    assert Fine(provider.prepares[0]);
  }
}
