/** The slots of an order's TXT records, and the account an error carries of them. */
module CleanupRegister {
  import opened Base
  import opened Text
  import opened Integration

  datatype State =
    | Intended | Created(id: Text) | Deleting(id: Text) | Stuck(id: Text, why: Failure) | Resolved

  datatype Record = Record(domain: Text, state: State) {
    predicate IsOwed() {
      !state.Resolved?
    }

    function Unresolved(): Option<CleanupItem> {
      match state
      case Intended => Some(CleanupItem(domain, None, OutcomeUnknown))
      case Created(id) => Some(CleanupItem(domain, Some(id), Cancelled))
      case Deleting(id) => Some(CleanupItem(domain, Some(id), OutcomeUnknown))
      case Stuck(id, why) => Some(CleanupItem(domain, Some(id), why))
      case Resolved => None
    }
  }

  function OnDeleting(s: State): State {
    if s.Created? then Deleting(s.id) else s
  }

  function OnFailed(s: State, why: Failure): State {
    if s.Deleting? then Stuck(s.id, why) else s
  }

  function OnExpire(s: State): State {
    if s.Created? || s.Deleting? then Stuck(s.id, Timeout) else s
  }

  /** Every acknowledged record with no delete sent, with its slot. */
  function CreatedSlots(records: seq<Record>): (r: seq<(nat, Text)>)
    ensures |r| <= |records|
    ensures forall p <- r :: p.0 < |records| && records[p.0].state == Created(p.1)
    ensures forall k, j :: 0 <= k < j < |r| ==> r[k].0 < r[j].0
  {
    if records == [] then []
    else
      var n := |records| - 1;
      assert forall i :: 0 <= i < n ==> records[..n][i] == records[i];
      CreatedSlots(records[..n])
      + (if records[n].state.Created? then [(n, records[n].state.id)] else [])
  }

  lemma {:induction false} CreatedSlotsComplete(records: seq<Record>, i: nat)
    requires i < |records| && records[i].state.Created?
    ensures (i, records[i].state.id) in CreatedSlots(records)
  {
    var n := |records| - 1;
    if i < n {
      CreatedSlotsComplete(records[..n], i);
    }
  }

  function Items(records: seq<Record>): (r: seq<CleanupItem>)
    ensures |r| <= |records|
  {
    if records == [] then []
    else
      var n := |records| - 1;
      var last := records[n].Unresolved();
      Items(records[..n]) + (if last.Some? then [last.value] else [])
  }

  /** The account has an item for each owed record, and for nothing else. */
  lemma {:induction false} ItemsNameOwed(records: seq<Record>)
    ensures forall i :: 0 <= i < |records| && records[i].IsOwed() ==>
      records[i].Unresolved().value in Items(records)
    ensures forall item <- Items(records) :: exists i ::
      0 <= i < |records| && records[i].Unresolved() == Some(item)
  {
    if records != [] {
      var n := |records| - 1;
      ItemsNameOwed(records[..n]);
      forall i | 0 <= i < |records| && records[i].IsOwed()
        ensures records[i].Unresolved().value in Items(records)
      {
        if i < n { assert records[..n][i] == records[i]; }
      }
      forall item <- Items(records)
        ensures exists i :: 0 <= i < |records| && records[i].Unresolved() == Some(item)
      {
        if item in Items(records[..n]) {
          var i :| 0 <= i < n && records[..n][i].Unresolved() == Some(item);
          assert records[i].Unresolved() == Some(item);
        }
      }
    }
  }

  /** Distinct owed records have distinct places in the account. */
  lemma {:induction false} ItemsCountOwed(records: seq<Record>)
    ensures |Items(records)| == |OwedSlots(records)|
  {
    hide OwedSlots;
    if records == [] {
      assert OwedSlots([]) == {} by { NothingOwed(); }
    } else {
      ItemsCountOwed(records[..|records| - 1]);
      LastOwed(records);
    }
  }

  function OwedSlots(records: seq<Record>): set<nat> {
    set i: nat | i < |records| && records[i].IsOwed()
  }

  lemma NothingOwed()
    ensures OwedSlots([]) == {}
  {
  }

  lemma LastOwed(records: seq<Record>)
    requires records != []
    ensures
      var n := |records| - 1;
      && n !in OwedSlots(records[..n])
      && OwedSlots(records) == OwedSlots(records[..n]) + if records[n].IsOwed() then {n} else {}
  {
    var n := |records| - 1;
    assert forall i: nat | i < n :: records[..n][i] == records[i];
  }

  function IncompleteError(items: seq<CleanupItem>): IntegrationError {
    Failed(Provision, CleanupIncomplete, Never).WithCleanup(items)
  }

  class Register {
    var records: seq<Record>

    /** `intend` keeps every account within what an error can carry. */
    ghost predicate Valid()
      reads this
    {
      |records| <= MAX_CLEANUP_ITEMS
    }

    constructor ()
      ensures Valid() && records == []
    {
      records := [];
    }

    method Intend(domain: Text) returns (slot: Option<nat>)
      requires Valid()
      modifies this
      ensures Valid()
      ensures slot.None? <==> |old(records)| == MAX_CLEANUP_ITEMS
      ensures slot.None? ==> records == old(records)
      ensures slot.Some? ==>
        slot.value == |old(records)| && records == old(records) + [Record(domain, Intended)]
    {
      if |records| < MAX_CLEANUP_ITEMS {
        records := records + [Record(domain, Intended)];
        slot := Some(|records| - 1);
      } else {
        slot := None;
      }
    }

    method Update(slot: nat, state: State)
      requires Valid()
      modifies this
      ensures Valid()
      ensures records == if slot < |old(records)|
        then old(records)[slot := old(records)[slot].(state := state)] else old(records)
    {
      if slot < |records| {
        records := records[slot := records[slot].(state := state)];
      }
    }

    method Acknowledge(slot: nat, id: Text)
      requires Valid()
      modifies this
      ensures Valid()
      ensures records == if slot < |old(records)|
        then old(records)[slot := Record(old(records)[slot].domain, Created(id))] else old(records)
    {
      Update(slot, Created(id));
    }

    method Resolve(slot: nat)
      requires Valid()
      modifies this
      ensures Valid()
      ensures records == if slot < |old(records)|
        then old(records)[slot := Record(old(records)[slot].domain, Resolved)] else old(records)
    {
      Update(slot, Resolved);
    }

    method MarkDeleting(slot: nat)
      requires Valid()
      modifies this
      ensures Valid()
      ensures records == if slot < |old(records)|
        then old(records)[slot := Record(old(records)[slot].domain, OnDeleting(old(records)[slot].state))]
        else old(records)
    {
      if slot < |records| {
        Update(slot, OnDeleting(records[slot].state));
      }
    }

    method MarkFailed(slot: nat, why: Failure)
      requires Valid()
      modifies this
      ensures Valid()
      ensures records == if slot < |old(records)|
        then old(records)[slot := Record(old(records)[slot].domain, OnFailed(old(records)[slot].state, why))]
        else old(records)
    {
      if slot < |records| {
        Update(slot, OnFailed(records[slot].state, why));
      }
    }

    /** The cleanup bound passed: known records without an answer stay, as Timeout. */
    method Expire()
      requires Valid()
      modifies this
      ensures Valid() && |records| == |old(records)|
      ensures forall i :: 0 <= i < |records| ==>
        records[i] == Record(old(records)[i].domain, OnExpire(old(records)[i].state))
    {
      for i := 0 to |records|
        invariant |records| == |old(records)|
        invariant forall j :: 0 <= j < i ==>
          records[j] == Record(old(records)[j].domain, OnExpire(old(records)[j].state))
        invariant forall j :: i <= j < |records| ==> records[j] == old(records)[j]
      {
        records := records[i := Record(records[i].domain, OnExpire(records[i].state))];
      }
    }

    /** Nothing, or the error naming every unresolved record. */
    method Incomplete() returns (r: Option<IntegrationError>)
      requires Valid()
      ensures r.None? <==> forall i :: 0 <= i < |records| ==> !records[i].IsOwed()
      ensures r.Some? ==> r.value.failure.CleanupIncomplete? && r.value.cleanup == Items(records)
      ensures r.Some? ==> forall i :: 0 <= i < |records| && records[i].IsOwed() ==>
        records[i].Unresolved().value in r.value.cleanup
    {
      var items := Items(records);
      ItemsNameOwed(records);
      if items == [] {
        r := None;
      } else {
        assert items[0] in items;
        r := Some(IncompleteError(items));
      }
    }
  }
}
