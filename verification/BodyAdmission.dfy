/**
 Route-aware body admission and the one checked byte count every body is read
 under. Machine words are 64-bit; every sum is written against that bound.
 */
module BodyAdmission {
  import opened Base

  const USIZE_MAX: nat := 0xFFFF_FFFF_FFFF_FFFF
  const U64_MAX: nat := 0xFFFF_FFFF_FFFF_FFFF

  /** A limit wider than the declaration's word is clamped to that word. */
  predicate DeclaredExceeds(declared: nat, limit: nat) {
    declared > if limit <= U64_MAX then limit else U64_MAX
  }

  function CheckedAdd(a: nat, b: nat): Option<nat> {
    if a + b <= USIZE_MAX then Some(a + b) else None
  }

  /** `observed` plus one frame, or nothing when that overflows or passes the limit. */
  function CheckedTotal(observed: nat, frame: nat, limit: nat): Option<nat> {
    match CheckedAdd(observed, frame)
    case Some(total) => if total <= limit then Some(total) else None
    case None => None
  }

  /** Word arithmetic agrees with exact arithmetic for every word-sized limit. */
  lemma CheckedTotalIsExact(observed: nat, frame: nat, limit: nat)
    requires limit <= USIZE_MAX
    ensures CheckedTotal(observed, frame, limit) ==
      if observed + frame <= limit then Some(observed + frame) else None
  {
  }

  /** What the route's policy callback answered, when the route has one. */
  datatype Policy = NoPolicy | Admits(maxBytes: nat, permit: bool) | Refuses | Panics

  datatype Grant = Grant(limit: nat, permit: bool)

  datatype Rejection = TooLarge(limit: nat) | PolicyRefused | PolicyPanicked

  function Min(a: nat, b: nat): nat {
    if a <= b then a else b
  }

  predicate DeclaresOver(declared: Option<nat>, limit: nat) {
    declared.Some? && DeclaredExceeds(declared.value, limit)
  }

  function AdmitUnderPolicy(ceiling: nat, policy: Policy, declared: Option<nat>): Result<Grant, Rejection> {
    match policy
    case NoPolicy => Ok(Grant(ceiling, false))
    case Refuses => Err(PolicyRefused)
    case Panics => Err(PolicyPanicked)
    case Admits(maxBytes, permit) =>
      var limit := Min(maxBytes, ceiling);
      if DeclaresOver(declared, limit) then Err(TooLarge(limit)) else Ok(Grant(limit, permit))
  }

  function AdmitDeclared(ceiling: nat, policy: Policy, declared: Option<nat>): Result<Grant, Rejection> {
    if DeclaresOver(declared, ceiling) then Err(TooLarge(ceiling))
    else AdmitUnderPolicy(ceiling, policy, declared)
  }

  /**
   A grant never exceeds the route's ceiling or the policy's maximum, and a
   declaration is refused exactly when it does not fit the bound in force.
   */
  lemma GrantIsNarrow(ceiling: nat, policy: Policy, declared: Option<nat>)
    requires ceiling <= USIZE_MAX && (policy.Admits? ==> policy.maxBytes <= USIZE_MAX)
    ensures AdmitDeclared(ceiling, policy, declared).Ok? <==>
      && (declared.Some? ==> declared.value <= ceiling)
      && (policy.NoPolicy? || (policy.Admits? && (declared.Some? ==> declared.value <= policy.maxBytes)))
    ensures AdmitDeclared(ceiling, policy, declared).Ok? ==>
      var grant := AdmitDeclared(ceiling, policy, declared).value;
      && grant.limit <= ceiling && (policy.Admits? ==> grant.limit <= policy.maxBytes)
      && (grant.limit == ceiling || (policy.Admits? && grant.limit == policy.maxBytes))
      && (declared.Some? ==> declared.value <= grant.limit)
      && grant.permit == (policy.Admits? && policy.permit)
    ensures AdmitDeclared(ceiling, policy, declared).Err? ==>
      AdmitDeclared(ceiling, policy, declared).error == (
        if declared.Some? && declared.value > ceiling then TooLarge(ceiling)
        else if policy.Refuses? then PolicyRefused
        else if policy.Panics? then PolicyPanicked
        else TooLarge(if policy.Admits? then policy.maxBytes else ceiling))
  {
  }

  /** The byte count of one request body, with the grant that caps it. */
  class BodyBudget {
    const limit: nat
    var observed: nat

    ghost predicate Valid()
      reads this
    {
      observed <= limit <= USIZE_MAX
    }

    constructor (grant: Grant)
      requires grant.limit <= USIZE_MAX
      ensures Valid() && limit == grant.limit && observed == 0
    {
      limit, observed := grant.limit, 0;
    }

    /** Adds one frame to the count, or leaves the count alone and answers the limit. */
    method AdmitFrame(frame: nat) returns (r: Result<nat, nat>)
      requires Valid()
      modifies this
      ensures Valid()
      ensures r == if old(observed) + frame <= limit then Ok(old(observed) + frame) else Err(limit)
      ensures observed == if r.Ok? then old(observed) + frame else old(observed)
    {
      match CheckedTotal(observed, frame, limit) {
        case Some(total) =>
          observed := total;
          r := Ok(total);
        case None =>
          r := Err(limit);
      }
    }
  }
}
