/** Buffering a whole body under a ceiling, against exact arithmetic. */
module CheckedCollect {
  import opened Base
  import opened BodyAdmission

  type Bytes = string

  const MAX_DECLARED_RESERVE: nat := 64 * 1024

  datatype Read = Chunk(data: Bytes) | WentQuiet | ReadFailed

  datatype Failure = Crossed(ceiling: nat) | Quiet | Broken

  function Ceiling(limit: Option<nat>): nat {
    if limit.Some? then limit.value else USIZE_MAX
  }

  function DeclaredReserve(declared: Option<nat>, ceiling: nat): nat {
    if declared.None? then 0
    else Min(Min(Min(declared.value, USIZE_MAX), ceiling), MAX_DECLARED_RESERVE)
  }

  predicate AllChunks(rs: seq<Read>) {
    forall r <- rs :: r.Chunk?
  }

  /** The bytes of a run of chunks, in order. */
  function Concat(rs: seq<Read>): Bytes
    requires AllChunks(rs)
  {
    if rs == [] then [] else Concat(rs[..|rs| - 1]) + rs[|rs| - 1].data
  }

  class CheckedCollector {
    const limit: Option<nat>
    var retained: Bytes
    /** The most bytes ever held. */
    ghost var peak: nat

    ghost predicate Valid()
      reads this
    {
      |retained| <= peak <= Ceiling(limit) <= USIZE_MAX
    }

    constructor (limit: Option<nat>)
      requires Ceiling(limit) <= USIZE_MAX
      ensures Valid() && this.limit == limit && retained == [] && peak == 0
    {
      this.limit, retained, peak := limit, [], 0;
    }

    /** Counts before it keeps: a crossing chunk is never retained. */
    method Keep(chunk: Bytes) returns (kept: bool)
      requires Valid()
      modifies this
      ensures Valid()
      ensures kept <==> |old(retained)| + |chunk| <= Ceiling(limit)
      ensures retained == if kept then old(retained) + chunk else old(retained)
    {
      kept := CheckedTotal(|retained|, |chunk|, Ceiling(limit)).Some?;
      if kept {
        retained := retained + chunk;
      }
      if peak < |retained| {
        peak := |retained|;
      }
    }
  }

  /** The collection keeps every one of these reads. */
  ghost predicate Keeps(rs: seq<Read>, ceiling: nat) {
    AllChunks(rs) && |Concat(rs)| <= ceiling
  }

  /**
   Collects a whole body, or refuses at the declaration or at the first chunk
   that crosses. `polled` is how many reads were taken, `reserved` how many bytes
   the declaration bought before the first of them: none once refused.
   */
  method CollectChecked(declared: Option<nat>, limit: Option<nat>, rs: seq<Read>)
    returns (r: Result<Bytes, Failure>, polled: nat, reserved: nat)
    requires declared.Some? ==> declared.value <= U64_MAX
    requires Ceiling(limit) <= USIZE_MAX
    ensures polled <= |rs|
    ensures reserved <= Ceiling(limit) && reserved <= MAX_DECLARED_RESERVE
    ensures reserved ==
      if declared.Some? && declared.value <= Ceiling(limit) then Min(declared.value, 64 * 1024) else 0
    ensures r.Ok? <==> (declared.Some? ==> declared.value <= Ceiling(limit)) && Keeps(rs, Ceiling(limit))
    ensures r.Ok? ==> polled == |rs| && r.value == Concat(rs)
    ensures r.Err? && polled == 0 ==> r.error == Crossed(Ceiling(limit)) && declared.Some? && declared.value > Ceiling(limit)
    ensures r.Err? && polled > 0 ==>
      && Keeps(rs[..polled - 1], Ceiling(limit)) && !Keeps(rs[..polled], Ceiling(limit))
      && r.error == match rs[polled - 1] {
           case Chunk(_) => Crossed(Ceiling(limit))
           case WentQuiet => Quiet
           case ReadFailed => Broken
         }
  {
    var collector := new CheckedCollector(limit);
    if DeclaresOver(declared, Ceiling(limit)) {
      return Err(Crossed(Ceiling(limit))), 0, 0;
    }
    reserved := DeclaredReserve(declared, Ceiling(limit));
    for k := 0 to |rs|
      invariant collector.Valid() && collector.limit == limit
      invariant AllChunks(rs[..k]) && collector.retained == Concat(rs[..k])
    {
      assert rs[..k + 1][..k] == rs[..k];
      assert rs[..k + 1] == rs[..k] + [rs[k]];
      match rs[k] {
        case WentQuiet =>
          assert rs[k] in rs[..k + 1] && rs[k] in rs;
          return Err(Quiet), k + 1, reserved;
        case ReadFailed =>
          assert rs[k] in rs[..k + 1] && rs[k] in rs;
          return Err(Broken), k + 1, reserved;
        case Chunk(data) =>
          var kept := collector.Keep(data);
          if !kept {
            LongerIsLarger(rs, k + 1);
            return Err(Crossed(Ceiling(limit))), k + 1, reserved;
          }
      }
    }
    assert rs[..|rs|] == rs;
    return Ok(collector.retained), |rs|, reserved;
  }

  /** Bytes already counted stay counted. */
  lemma {:induction false} LongerIsLarger(rs: seq<Read>, k: nat)
    requires k <= |rs| && AllChunks(rs[..k])
    ensures AllChunks(rs) ==> |Concat(rs[..k])| <= |Concat(rs)|
  {
    if AllChunks(rs) {
      if k < |rs| {
        var init := rs[..|rs| - 1];
        assert init[..k] == rs[..k];
        LongerIsLarger(init, k);
      } else {
        assert rs[..k] == rs;
      }
    }
  }
}
