/**
 Which domain lists an order may be placed for, and the form they are kept in.
 The list-level rule is the specification: no two names agree up to case and
 root dot.
 */
module AcmeDomains {
  import opened Base
  import opened Text
  import opened DnsName

  const DNS01_DOMAIN_CAP: nat := 100

  datatype Challenge = TlsAlpn01 | Dns01 {
    function DomainCap(): Option<nat> {
      if Dns01? then Some(DNS01_DOMAIN_CAP) else None
    }

    predicate AllowsWildcard() {
      Dns01?
    }
  }

  datatype Refusal =
    | EmptySet | OverCap | WildcardRefused | BadName(reason: Reason) | Repeated(name: Text)

  predicate CountFine(count: nat, challenge: Challenge) {
    count != 0 && (challenge.Dns01? ==> count <= 100)
  }

  function CheckCount(count: nat, challenge: Challenge): Option<Refusal> {
    if count == 0 then Some(EmptySet)
    else if challenge.DomainCap().Some? && count > challenge.DomainCap().value then Some(OverCap)
    else None
  }

  function BaseName(name: Text): Text {
    if WILDCARD_PREFIX <= name then name[2..] else name
  }

  function CanonicalName(domain: Text, challenge: Challenge): Result<Text, Refusal> {
    var name := WithoutRoot(domain);
    if WILDCARD_PREFIX <= name && !challenge.AllowsWildcard() then Err(WildcardRefused)
    else
      match NameShape(name, BaseName(name))
      case Fine => Ok(Lower(name))
      case Bad(reason) => Err(BadName(reason))
  }

  function CanonicalNames(domains: seq<Text>, challenge: Challenge): Result<seq<Text>, Refusal> {
    if domains == [] then Ok([])
    else
      match CanonicalName(domains[0], challenge)
      case Err(refusal) => Err(refusal)
      case Ok(name) =>
        match CanonicalNames(domains[1..], challenge)
        case Err(refusal) => Err(refusal)
        case Ok(names) => Ok([name] + names)
  }

  // ---------- sorting, and the neighbour comparison over it ----------

  /** Byte-wise order, a prefix first. */
  predicate Below(a: Text, b: Text) {
    a == [] || (b != [] && (a[0] < b[0] || (a[0] == b[0] && Below(a[1..], b[1..]))))
  }

  lemma {:induction false} BelowTotal(a: Text, b: Text)
    ensures Below(a, b) || Below(b, a)
  {
    if a != [] && b != [] && a[0] == b[0] {
      BelowTotal(a[1..], b[1..]);
    }
  }

  lemma {:induction false} BelowAntisymmetric(a: Text, b: Text)
    requires Below(a, b) && Below(b, a)
    ensures a == b
  {
    if a != [] {
      BelowAntisymmetric(a[1..], b[1..]);
      assert a == [a[0]] + a[1..] && b == [b[0]] + b[1..];
    }
  }

  lemma {:induction false} BelowTransitive(a: Text, b: Text, c: Text)
    requires Below(a, b) && Below(b, c)
    ensures Below(a, c)
  {
    if a != [] && a[0] == b[0] && b[0] == c[0] {
      BelowTransitive(a[1..], b[1..], c[1..]);
    }
  }

  predicate Sorted(s: seq<Text>) {
    forall i :: 0 < i < |s| ==> Below(s[i - 1], s[i])
  }

  predicate Distinct(s: seq<Text>) {
    forall i, j :: 0 <= i < j < |s| ==> s[i] != s[j]
  }

  lemma {:induction false} SortedFar(s: seq<Text>, i: nat, j: nat)
    requires Sorted(s) && i < j < |s|
    ensures Below(s[i], s[j])
    decreases j
  {
    if i + 1 < j {
      SortedFar(s, i, j - 1);
      BelowTransitive(s[i], s[j - 1], s[j]);
    }
  }

  /** In a sorted list a repeat shows up between neighbours. */
  lemma NeighboursDecide(s: seq<Text>)
    requires Sorted(s)
    ensures (forall i :: 0 < i < |s| ==> s[i - 1] != s[i]) <==> Distinct(s)
  {
    if forall i :: 0 < i < |s| ==> s[i - 1] != s[i] {
      forall i, j | 0 <= i < j < |s| ensures s[i] != s[j] {
        if s[i] == s[j] {
          if i + 1 < j {
            SortedFar(s, i, j - 1);
          }
          BelowAntisymmetric(s[j - 1], s[j]);
        }
      }
    }
  }

  lemma DistinctIsMultiset(s: seq<Text>)
    ensures Distinct(s) <==> forall x :: multiset(s)[x] <= 1
  {
    if s == [] {
    } else {
      var last := s[|s| - 1];
      var init := s[..|s| - 1];
      assert s == init + [last];
      DistinctIsMultiset(init);
      assert multiset(s) == multiset(init) + multiset{last};
      if Distinct(s) {
        assert last !in init;
      } else if Distinct(init) {
        assert exists i :: 0 <= i < |init| && s[i] == last;
        assert last in multiset(init);
        assert multiset(s)[last] >= 2;
      } else {
        var x :| multiset(init)[x] > 1;
        assert multiset(s)[x] > 1;
      }
    }
  }

  function Insert(x: Text, s: seq<Text>): (r: seq<Text>)
    requires Sorted(s)
    ensures Sorted(r) && multiset(r) == multiset(s) + multiset{x}
    ensures r[0] == x || (s != [] && r[0] == s[0])
  {
    if s == [] then [x]
    else if Below(x, s[0]) then [x] + s
    else
      BelowTotal(x, s[0]);
      assert s == [s[0]] + s[1..];
      [s[0]] + Insert(x, s[1..])
  }

  /** Any sort will do: what is used is that the result is a sorted permutation. */
  function SortUnstable(s: seq<Text>): (r: seq<Text>)
    ensures Sorted(r) && multiset(r) == multiset(s)
  {
    if s == [] then []
    else
      assert s == [s[0]] + s[1..];
      Insert(s[0], SortUnstable(s[1..]))
  }

  /** Sorts a copy and looks for two equal neighbours. */
  method CheckDistinct(canonical: seq<Text>) returns (repeated: Option<Refusal>)
    ensures repeated.None? <==> Distinct(canonical)
    ensures repeated.Some? ==> repeated.value.Repeated? && multiset(canonical)[repeated.value.name] > 1
  {
    var sorted := SortUnstable(canonical);
    SortedDecides(canonical, sorted);
    var i := 1;
    while i < |sorted|
      invariant 0 < i
      invariant forall j :: 0 < j < i && j < |sorted| ==> sorted[j - 1] != sorted[j]
    {
      if sorted[i - 1] == sorted[i] {
        RepeatCounts(sorted, i);
        return Some(Repeated(sorted[i]));
      }
      i := i + 1;
    }
    return None;
  }

  lemma RepeatCounts(s: seq<Text>, i: nat)
    requires 0 < i < |s| && s[i - 1] == s[i]
    ensures multiset(s)[s[i]] > 1
  {
    assert s == s[..i - 1] + [s[i], s[i]] + s[i + 1..];
  }

  /** Comparing neighbours after sorting equals comparing all pairs before it. */
  lemma SortedDecides(s: seq<Text>, sorted: seq<Text>)
    requires Sorted(sorted) && multiset(sorted) == multiset(s)
    ensures Distinct(s) <==> forall i :: 0 < i < |sorted| ==> sorted[i - 1] != sorted[i]
  {
    NeighboursDecide(sorted);
    DistinctIsMultiset(sorted);
    DistinctIsMultiset(s);
  }

  // ---------- what the whole validation accepts ----------

  predicate LegalDomain(domain: Text, challenge: Challenge) {
    var name := WithoutRoot(domain);
    && (WILDCARD_PREFIX <= name ==> challenge.Dns01?)
    && |name| <= MAX_NAME_OCTETS && LegalLabels(Split(BaseName(name), '.'))
  }

  /** Non-empty, within the cap, legal names, distinct up to case and root dot. */
  ghost predicate Accepts(domains: seq<Text>, challenge: Challenge) {
    && CountFine(|domains|, challenge)
    && (forall d <- domains :: LegalDomain(d, challenge))
    && (forall i, j :: 0 <= i < j < |domains| ==>
          !SameName(WithoutRoot(domains[i]), WithoutRoot(domains[j])))
  }

  function Canonicalized(domains: seq<Text>): seq<Text> {
    seq(|domains|, i requires 0 <= i < |domains| => Lower(WithoutRoot(domains[i])))
  }

  lemma CanonicalNameLegal(domain: Text, challenge: Challenge)
    ensures CanonicalName(domain, challenge).Ok? <==> LegalDomain(domain, challenge)
    ensures LegalDomain(domain, challenge) ==>
      CanonicalName(domain, challenge) == Ok(Lower(WithoutRoot(domain)))
  {
    NameShapeLegal(WithoutRoot(domain), BaseName(WithoutRoot(domain)));
  }

  lemma {:induction false} CanonicalNamesLegal(domains: seq<Text>, challenge: Challenge)
    ensures CanonicalNames(domains, challenge).Ok? <==>
      forall d <- domains :: LegalDomain(d, challenge)
    ensures CanonicalNames(domains, challenge).Ok? ==>
      CanonicalNames(domains, challenge).value == Canonicalized(domains)
  {
    hide CanonicalName, LegalDomain;
    if domains != [] {
      CanonicalNameLegal(domains[0], challenge);
      CanonicalNamesLegal(domains[1..], challenge);
      assert forall d :: d in domains <==> d == domains[0] || d in domains[1..];
      assert Canonicalized(domains) == [Lower(WithoutRoot(domains[0]))] + Canonicalized(domains[1..]);
    }
  }

  ghost predicate FirstIllegal(domains: seq<Text>, challenge: Challenge, k: nat) {
    k < |domains| && !LegalDomain(domains[k], challenge) && forall j :: 0 <= j < k ==> LegalDomain(domains[j], challenge)
  }

  /** A name is refused for being a wildcard the challenge cannot prove, and else for its shape. */
  lemma NameRefused(domain: Text, challenge: Challenge)
    ensures CanonicalName(domain, challenge) == Err(WildcardRefused) <==>
      WILDCARD_PREFIX <= WithoutRoot(domain) && challenge.TlsAlpn01?
    ensures CanonicalName(domain, challenge).Err? ==>
      var refusal := CanonicalName(domain, challenge).error;
      || refusal.WildcardRefused?
      || (refusal.BadName?
          && NameShape(WithoutRoot(domain), BaseName(WithoutRoot(domain))) == Bad(refusal.reason))
  {
  }

  /** The first domain that is not legal decides how a list of them is refused. */
  lemma {:induction false} NamesRefused(domains: seq<Text>, challenge: Challenge) returns (k: nat)
    requires CanonicalNames(domains, challenge).Err?
    ensures FirstIllegal(domains, challenge, k)
    ensures CanonicalName(domains[k], challenge) == Err(CanonicalNames(domains, challenge).error)
    ensures CanonicalNames(domains, challenge).error.WildcardRefused? || CanonicalNames(domains, challenge).error.BadName?
  {
    hide CanonicalName, LegalDomain;
    CanonicalNameLegal(domains[0], challenge);
    if CanonicalName(domains[0], challenge).Err? {
      NameRefused(domains[0], challenge);
      k := 0;
    } else {
      k := NamesRefused(domains[1..], challenge);
      assert forall j :: 0 < j < |domains| ==> domains[j] == domains[1..][j - 1];
      k := k + 1;
    }
  }

  method ValidateDomains(domains: seq<Text>, challenge: Challenge)
    returns (r: Result<seq<Text>, Refusal>)
    ensures r.Ok? <==> Accepts(domains, challenge)
    ensures r.Ok? ==> r.value == Canonicalized(domains) && Distinct(r.value)
    ensures r == Err(EmptySet) <==> domains == []
    ensures r == Err(OverCap) <==> challenge.Dns01? && |domains| > 100
    ensures r.Err? && r.error.Repeated? ==>
      && (forall d <- domains :: LegalDomain(d, challenge))
      && multiset(Canonicalized(domains))[r.error.name] > 1
    ensures r.Err? && (r.error.WildcardRefused? || r.error.BadName?) ==>
      exists k: nat :: FirstIllegal(domains, challenge, k) && CanonicalName(domains[k], challenge) == Err(r.error)
  {
    hide LegalDomain, CanonicalNames;
    match CheckCount(|domains|, challenge) {
      case Some(refusal) => return Err(refusal);
      case None =>
    }
    CanonicalNamesLegal(domains, challenge);
    match CanonicalNames(domains, challenge) {
      case Err(refusal) =>
        ghost var k := NamesRefused(domains, challenge);
        return Err(refusal);
      case Ok(canonical) =>
        assert forall i :: 0 <= i < |domains| ==> canonical[i] == Lower(WithoutRoot(domains[i]));
        var repeated := CheckDistinct(canonical);
        match repeated {
          case Some(refusal) => return Err(refusal);
          case None => return Ok(canonical);
        }
    }
  }

  lemma WildcardLower(name: Text)
    ensures WILDCARD_PREFIX <= Lower(name) <==> WILDCARD_PREFIX <= name
    ensures BaseName(Lower(name)) == Lower(BaseName(name))
  {
    assert forall c :: (LowerChar(c) == '*' <==> c == '*') && (LowerChar(c) == '.' <==> c == '.');
    assert WILDCARD_PREFIX <= name <==> |name| >= 2 && name[0] == '*' && name[1] == '.';
    assert WILDCARD_PREFIX <= Lower(name) <==> |name| >= 2 && Lower(name)[0] == '*' && Lower(name)[1] == '.';
    if |name| >= 2 {
      LowerSlices(name, 2);
    }
  }

  /** The canonical spelling of a legal domain is legal and already canonical. */
  lemma CanonicalDomainIsFixed(domain: Text, challenge: Challenge)
    requires LegalDomain(domain, challenge)
    ensures var out := Lower(WithoutRoot(domain));
      LegalDomain(out, challenge) && Lower(WithoutRoot(out)) == out
  {
    hide LegalLabels, Split;
    var name := WithoutRoot(domain);
    var out := Lower(name);
    WildcardLower(name);
    var base := BaseName(out);
    SplitLower(BaseName(name));
    LegalLabelsLower(Split(BaseName(name), '.'));
    LegalHasNoRoot(base);
    assert base[|base| - 1] == out[|out| - 1];
    LowerIdempotent(name);
  }

  /** Validating the accepted output accepts it and returns it unchanged. */
  lemma ValidatingTwice(domains: seq<Text>, challenge: Challenge)
    requires Accepts(domains, challenge)
    ensures Accepts(Canonicalized(domains), challenge)
    ensures Canonicalized(Canonicalized(domains)) == Canonicalized(domains)
  {
    var out := Canonicalized(domains);
    forall i | 0 <= i < |out|
      ensures LegalDomain(out[i], challenge) && Lower(WithoutRoot(out[i])) == out[i]
    {
      CanonicalDomainIsFixed(domains[i], challenge);
    }
  }
}
