/**
 The built-in Cloudflare provider: which zone owns a domain, the authority a
 preparation publishes, and the requests that reach only that authority.

 The API is any function from a queried name to its answer; bodies that do not
 decode are part of its errors.
 */
module Cloudflare {
  import opened Base
  import opened Text
  import opened DnsName
  import opened Integration
  import opened CloudflareWire
  import DnsOrder

  datatype Zone = Zone(id: Text, name: Text)

  type Api = Text -> Result<seq<Zone>, IntegrationError>

  function ZoneSubject(domain: Text): Text {
    var stripped := StripPrefix(domain, WILDCARD_PREFIX);
    if stripped.Some? then stripped.value else domain
  }

  predicate NamesExactly(zone: Zone, candidate: Text) {
    zone.id != [] && SameName(WithoutRoot(zone.name), candidate)
  }

  // ---------- one lookup ----------

  /** What one answer decides; an empty one decides nothing. */
  function Verdict(answer: Result<seq<Zone>, IntegrationError>, candidate: Text): Option<Result<Text, IntegrationError>> {
    match answer
    case Err(error) => Some(Err(error))
    case Ok(zones) =>
      if zones == [] then None
      else if |zones| == 1 && NamesExactly(zones[0], candidate) then Some(Ok(zones[0].id))
      else Some(Err(RejectedBy(ZoneLookup)))
  }

  function Parent(candidate: Text): Text {
    match SplitOnce(candidate, '.')
    case Some(parts) => parts.1
    case None => []
  }

  function Lookup(api: Api, candidate: Text): Result<Text, IntegrationError>
    decreases |candidate|
  {
    if '.' !in candidate then Err(RejectedBy(ZoneLookup))
    else
      FindNone(candidate, '.');
      match Verdict(api(candidate), candidate)
      case Some(decided) => decided
      case None => Lookup(api, Parent(candidate))
  }

  method LookupZone(api: Api, domain: Text) returns (r: Result<Text, IntegrationError>)
    ensures r == Lookup(api, domain)
  {
    var candidate := domain;
    while '.' in candidate
      invariant Lookup(api, candidate) == Lookup(api, domain)
      decreases |candidate|
    {
      FindNone(candidate, '.');
      match Verdict(api(candidate), candidate) {
        case Some(decided) => return decided;
        case None => candidate := Parent(candidate);
      }
    }
    r := Err(RejectedBy(ZoneLookup));
  }

  /** The suffix of a name that starts at its i-th label. */
  function Suffix(domain: Text, i: nat): Text
    requires i < |Split(domain, '.')|
  {
    Join(Split(domain, '.')[i..], '.')
  }

  lemma ParentDropsLabel(domain: Text)
    ensures '.' in domain <==> |Split(domain, '.')| >= 2
    ensures '.' in domain ==> Split(domain, '.')[1..] == Split(Parent(domain), '.')
  {
    FindNone(domain, '.');
  }

  /**
   The lookup is decided by the longest suffix of two labels or more whose
   answer is not empty, and by nothing broader; without one it is refused.
   */
  lemma {:induction false} LongestSuffixDecides(api: Api, domain: Text) returns (i: nat)
    ensures i < |Split(domain, '.')|
    ensures forall j: nat | j < i :: api(Suffix(domain, j)) == Ok([])
    ensures i + 2 <= |Split(domain, '.')| ==>
      && api(Suffix(domain, i)) != Ok([])
      && Some(Lookup(api, domain)) == Verdict(api(Suffix(domain, i)), Suffix(domain, i))
    ensures i + 2 > |Split(domain, '.')| ==> Lookup(api, domain) == Err(RejectedBy(ZoneLookup))
    decreases |domain|
  {
    ParentDropsLabel(domain);
    JoinSplit(domain, '.');
    assert Suffix(domain, 0) == domain by { assert Split(domain, '.')[0..] == Split(domain, '.'); }
    if '.' !in domain || Verdict(api(domain), domain).Some? {
      return 0;
    }
    FindNone(domain, '.');
    var parent := Parent(domain);
    var k := LongestSuffixDecides(api, parent);
    i := k + 1;
    forall j: nat | j < |Split(parent, '.')| ensures Suffix(domain, j + 1) == Suffix(parent, j) {
      assert Split(domain, '.')[j + 1..] == Split(domain, '.')[1..][j..];
    }
    forall j: nat | j < i ensures api(Suffix(domain, j)) == Ok([]) {
      if j > 0 {
        assert Suffix(domain, j) == Suffix(parent, j - 1);
      }
    }
  }

  /** A zone found is the one zone its suffix was answered with, and bears that name. */
  lemma FoundZoneIsNamed(api: Api, domain: Text) returns (i: nat, zone: Zone)
    requires Lookup(api, domain).Ok?
    ensures i + 2 <= |Split(domain, '.')| && forall j: nat | j < i :: api(Suffix(domain, j)) == Ok([])
    ensures api(Suffix(domain, i)) == Ok([zone]) && SameName(WithoutRoot(zone.name), Suffix(domain, i))
    ensures Lookup(api, domain) == Ok(zone.id) && zone.id != []
  {
    hide Lookup, Verdict, Suffix, Split, SameName, WithoutRoot;
    i := LongestSuffixDecides(api, domain);
    zone := VerdictNames(api(Suffix(domain, i)), Suffix(domain, i));
  }

  /**
   The converse, and the failures: the first suffix of two labels or more with an
   answer that is not empty is found if that answer is one zone with an id and the
   suffix's own name, fails as its answer does, and is refused otherwise.
   */
  lemma NamedZoneIsFound(api: Api, domain: Text, i: nat)
    requires i + 2 <= |Split(domain, '.')| && forall j: nat | j < i :: api(Suffix(domain, j)) == Ok([])
    requires api(Suffix(domain, i)) != Ok([])
    ensures
      match api(Suffix(domain, i))
      case Err(error) => Lookup(api, domain) == Err(error)
      case Ok(zones) =>
        if |zones| == 1 && zones[0].id != [] && Lower(WithoutRoot(zones[0].name)) == Lower(Suffix(domain, i))
        then Lookup(api, domain) == Ok(zones[0].id) else Lookup(api, domain) == Err(RejectedBy(ZoneLookup))
  {
    hide Lookup, Suffix, Split, WithoutRoot, Lower;
    var k := LongestSuffixDecides(api, domain);
    assert k == i;
  }

  lemma VerdictNames(answer: Result<seq<Zone>, IntegrationError>, candidate: Text) returns (zone: Zone)
    requires Verdict(answer, candidate).Some? && Verdict(answer, candidate).value.Ok?
    ensures answer == Ok([zone]) && SameName(WithoutRoot(zone.name), candidate)
    ensures Verdict(answer, candidate) == Some(Ok(zone.id)) && zone.id != []
  {
    zone := answer.value[0];
    assert answer.value == [zone];
  }

  // ---------- the prepared authority ----------

  type Zones = seq<(Text, Text)>

  /** The zone of the first prepared name equal to `name` up to case. */
  function FindZone(zones: Zones, name: Text): Option<Text> {
    if zones == [] then None
    else if SameName(zones[0].0, name) then Some(zones[0].1)
    else FindZone(zones[1..], name)
  }

  function ZoneOfName(zones: Zones, fqdn: Text): Option<Text> {
    FindZone(zones, WithoutRoot(fqdn))
  }

  function Prepared(api: Api, domains: seq<Text>, zones: Zones): Result<Zones, IntegrationError> {
    if domains == [] then Ok(zones)
    else
      var subject := ZoneSubject(domains[0]);
      var name := ChallengeName(subject);
      if FindZone(zones, name).Some? then Prepared(api, domains[1..], zones)
      else
        match Lookup(api, subject)
        case Err(error) => Err(error)
        case Ok(zone) => Prepared(api, domains[1..], zones + [(name, zone)])
  }

  lemma {:induction false} FindAppended(zones: Zones, pair: (Text, Text), name: Text)
    ensures FindZone(zones + [pair], name) ==
      if FindZone(zones, name).Some? then FindZone(zones, name)
      else if SameName(pair.0, name) then Some(pair.1) else None
    decreases |zones|
  {
    if zones != [] {
      assert (zones + [pair])[1..] == zones[1..] + [pair];
      FindAppended(zones[1..], pair, name);
    }
  }

  /** The subject of the first domain equal to `subject` up to case. */
  function FirstAlike(domains: seq<Text>, subject: Text): Option<Text> {
    if domains == [] then None
    else if SameName(ZoneSubject(domains[0]), subject) then Some(ZoneSubject(domains[0]))
    else FirstAlike(domains[1..], subject)
  }

  lemma {:induction false} HasFirstAlike(domains: seq<Text>, i: nat)
    requires i < |domains|
    ensures FirstAlike(domains, ZoneSubject(domains[i])).Some?
    decreases |domains|
  {
    if i > 0 {
      HasFirstAlike(domains[1..], i - 1);
    }
  }

  lemma {:induction false} FirstAlikeIsAlike(domains: seq<Text>, subject: Text)
    requires FirstAlike(domains, subject).Some?
    ensures SameName(FirstAlike(domains, subject).value, subject)
    ensures exists d <- domains :: FirstAlike(domains, subject).value == ZoneSubject(d)
    decreases |domains|
  {
    if SameName(ZoneSubject(domains[0]), subject) {
      assert domains[0] in domains;
    } else {
      FirstAlikeIsAlike(domains[1..], subject);
      var d :| d in domains[1..] && FirstAlike(domains, subject).value == ZoneSubject(d);
      assert d in domains;
    }
  }

  lemma {:induction false} FindUpToCase(zones: Zones, a: Text, b: Text)
    requires SameName(a, b)
    ensures FindZone(zones, a) == FindZone(zones, b)
    decreases |zones|
  {
    if zones != [] {
      FindUpToCase(zones[1..], a, b);
    }
  }

  lemma ChallengesAlike(a: Text, b: Text)
    ensures SameName(ChallengeName(a), ChallengeName(b)) <==> SameName(a, b)
  {
    LowerSlices(ChallengeName(a), |CHALLENGE_PREFIX|);
    LowerSlices(ChallengeName(b), |CHALLENGE_PREFIX|);
    assert ChallengeName(a)[|CHALLENGE_PREFIX|..] == a && ChallengeName(b)[|CHALLENGE_PREFIX|..] == b;
    assert ChallengeName(a)[..|CHALLENGE_PREFIX|] == CHALLENGE_PREFIX == ChallengeName(b)[..|CHALLENGE_PREFIX|];
    if SameName(a, b) {
      assert Lower(ChallengeName(a)) == Lower(CHALLENGE_PREFIX) + Lower(a);
      assert Lower(ChallengeName(b)) == Lower(CHALLENGE_PREFIX) + Lower(b);
    }
  }

  /** A name keeps the zone it has; a new one gets that of the first domain like it. */
  lemma {:induction false} PreparedFinds(api: Api, domains: seq<Text>, zones: Zones, subject: Text)
    requires Prepared(api, domains, zones).Ok?
    ensures
      var found := FindZone(Prepared(api, domains, zones).value, ChallengeName(subject));
      var first := FirstAlike(domains, subject);
      if FindZone(zones, ChallengeName(subject)).Some? then found == FindZone(zones, ChallengeName(subject))
      else if first.Some? then Lookup(api, first.value).Ok? && found == Some(Lookup(api, first.value).value)
      else found.None?
    decreases |domains|
  {
    hide Lookup, SameName, ChallengeName, ZoneSubject;
    if domains != [] {
      var head := ZoneSubject(domains[0]);
      ChallengesAlike(head, subject);
      if FindZone(zones, ChallengeName(head)).Some? {
        PreparedFinds(api, domains[1..], zones, subject);
        if SameName(head, subject) {
          FindUpToCase(zones, ChallengeName(head), ChallengeName(subject));
        }
      } else {
        var pair := (ChallengeName(head), Lookup(api, head).value);
        PreparedFinds(api, domains[1..], zones + [pair], subject);
        FindAppended(zones, pair, ChallengeName(subject));
      }
    }
  }

  /** The domain a preparation failed at: one not yet answered for, whose own lookup failed so. */
  ghost predicate FailsAt(api: Api, domains: seq<Text>, zones: Zones, k: nat, error: IntegrationError) {
    && k < |domains| && FirstAlike(domains, ZoneSubject(domains[k])) == Some(ZoneSubject(domains[k]))
    && FindZone(zones, ChallengeName(ZoneSubject(domains[k]))).None?
    && Lookup(api, ZoneSubject(domains[k])) == Err(error)
  }

  lemma {:induction false} PreparationFailsAt(api: Api, domains: seq<Text>, zones: Zones) returns (k: nat)
    requires Prepared(api, domains, zones).Err?
    ensures FailsAt(api, domains, zones, k, Prepared(api, domains, zones).error)
    decreases |domains|
  {
    hide Lookup, SameName, ChallengeName, ZoneSubject;
    var head := ZoneSubject(domains[0]);
    assert SameName(head, head) by { AlikeItself(head); }
    if FindZone(zones, ChallengeName(head)).Some? {
      k := PreparationFailsAt(api, domains[1..], zones);
      var subject := ZoneSubject(domains[1..][k]);
      ChallengesAlike(head, subject);
      if SameName(head, subject) { FindUpToCase(zones, ChallengeName(head), ChallengeName(subject)); }
      k := k + 1;
    } else if Lookup(api, head).Err? {
      k := 0;
    } else {
      var pair := (ChallengeName(head), Lookup(api, head).value);
      k := PreparationFailsAt(api, domains[1..], zones + [pair]);
      var subject := ZoneSubject(domains[1..][k]);
      ChallengesAlike(head, subject);
      FindAppended(zones, pair, ChallengeName(subject));
      k := k + 1;
    }
  }

  lemma AlikeItself(name: Text)
    ensures SameName(name, name)
  {
  }

  /** A preparation succeeds exactly when the first of each set of like domains has a zone. */
  lemma PreparesExactly(api: Api, domains: seq<Text>)
    ensures Prepared(api, domains, []).Ok? <==>
      forall k: nat | k < |domains| && FirstAlike(domains, ZoneSubject(domains[k])) == Some(ZoneSubject(domains[k])) ::
        Lookup(api, ZoneSubject(domains[k])).Ok?
  {
    hide Lookup, Prepared, ZoneSubject, FirstAlike, SameName;
    if Prepared(api, domains, []).Err? {
      var k := PreparationFailsAt(api, domains, []);
    } else {
      forall k: nat | k < |domains| && FirstAlike(domains, ZoneSubject(domains[k])) == Some(ZoneSubject(domains[k]))
        ensures Lookup(api, ZoneSubject(domains[k])).Ok?
      {
        PreparedFinds(api, domains, [], ZoneSubject(domains[k]));
      }
    }
  }

  /**
   After a successful preparation every domain's challenge name, in any case and
   with or without its root dot, resolves to the zone looked up for the first
   configured domain equal to it up to case.
   */
  lemma {:induction false} EveryDomainResolves(api: Api, domains: seq<Text>, i: nat, fqdn: Text)
    requires i < |domains| && Prepared(api, domains, []).Ok?
    requires SameName(WithoutRoot(fqdn), ChallengeName(ZoneSubject(domains[i])))
    ensures
      var first := FirstAlike(domains, ZoneSubject(domains[i]));
      && first.Some? && Lookup(api, first.value).Ok?
      && ZoneOfName(Prepared(api, domains, []).value, fqdn) == Some(Lookup(api, first.value).value)
  {
    hide Lookup, SameName, Prepared;
    var subject := ZoneSubject(domains[i]);
    HasFirstAlike(domains, i);
    PreparedFinds(api, domains, [], subject);
    FindUpToCase(Prepared(api, domains, []).value, WithoutRoot(fqdn), ChallengeName(subject));
  }

  /** A wildcard is answered for where its base is: both have the challenge of the base. */
  lemma {:induction false} WildcardResolvesAsBase(api: Api, domains: seq<Text>, i: nat, base: Text, fqdn: Text)
    requires i < |domains| && Prepared(api, domains, []).Ok?
    requires domains[i] == WILDCARD_PREFIX + base || (domains[i] == base && !(WILDCARD_PREFIX <= base))
    requires SameName(WithoutRoot(fqdn), ChallengeName(base))
    ensures
      var first := FirstAlike(domains, base);
      && first.Some? && Lookup(api, first.value).Ok?
      && ZoneOfName(Prepared(api, domains, []).value, fqdn) == Some(Lookup(api, first.value).value)
  {
    assert (WILDCARD_PREFIX + base)[|WILDCARD_PREFIX|..] == base;
    assert ZoneSubject(domains[i]) == base;
    hide Lookup, SameName, Prepared, ZoneSubject, ChallengeName;
    EveryDomainResolves(api, domains, i, fqdn);
  }

  // ---------- when that is the domain's own zone ----------

  ghost predicate OwnZone(api: Api, domains: seq<Text>, subject: Text, fqdn: Text) {
    Prepared(api, domains, []).Ok? ==>
      Lookup(api, subject).Ok? && ZoneOfName(Prepared(api, domains, []).value, fqdn) == Some(Lookup(api, subject).value)
  }

  /** An API with one zone for every name asked, whose id is that very spelling. */
  function Echo(name: Text): Result<seq<Zone>, IntegrationError> {
    Ok([Zone(name, name + ".")])
  }

  lemma EchoAnswers(name: Text)
    requires '.' in name
    ensures Lookup(Echo, name) == Ok(name)
  {
    assert WithoutRoot(name + ".") == name;
  }

  lemma {:induction false} EchoPrepares(domains: seq<Text>, zones: Zones)
    requires forall d <- domains :: '.' in ZoneSubject(d)
    ensures Prepared(Echo, domains, zones).Ok?
    decreases |domains|
  {
    hide Lookup, ZoneSubject;
    if domains != [] {
      var head := ZoneSubject(domains[0]);
      assert domains[0] in domains;
      EchoAnswers(head);
      EchoPrepares(domains[1..], zones);
      EchoPrepares(domains[1..], zones + [(ChallengeName(head), head)]);
    }
  }

  lemma DottedAlike(a: Text, b: Text)
    requires SameName(a, b)
    ensures '.' in a <==> '.' in b
  {
    FindLower(a, '.');
    FindLower(b, '.');
    FindNone(a, '.');
    FindNone(b, '.');
  }

  /** A name of one label is never prepared, whatever the API answers. */
  lemma {:induction false} UndottedNeverPrepares(api: Api, domains: seq<Text>, k: nat)
    requires k < |domains| && '.' !in ZoneSubject(domains[k])
    ensures Prepared(api, domains, []).Err?
  {
    var subject := ZoneSubject(domains[k]);
    if Prepared(api, domains, []).Ok? {
      HasFirstAlike(domains, k);
      PreparedFinds(api, domains, [], subject);
      FirstAlikeIsAlike(domains, subject);
      DottedAlike(FirstAlike(domains, subject).value, subject);
      assert false;
    }
  }

  /** Whatever the API answers, this name resolves to the zone of its own subject. */
  ghost predicate AlwaysOwn(domains: seq<Text>, subject: Text, fqdn: Text) {
    forall api: Api :: OwnZone(api, domains, subject, fqdn)
  }

  predicate SomeUndotted(domains: seq<Text>) {
    exists d <- domains :: '.' !in ZoneSubject(d)
  }

  lemma {:induction false} FirstSpellingOwns(domains: seq<Text>, i: nat, fqdn: Text)
    requires i < |domains| && FirstAlike(domains, ZoneSubject(domains[i])) == Some(ZoneSubject(domains[i]))
    requires SameName(WithoutRoot(fqdn), ChallengeName(ZoneSubject(domains[i])))
    ensures AlwaysOwn(domains, ZoneSubject(domains[i]), fqdn)
  {
    hide Lookup, SameName, Prepared, ZoneSubject, ZoneOfName, FirstAlike;
    forall api: Api | Prepared(api, domains, []).Ok? ensures OwnZone(api, domains, ZoneSubject(domains[i]), fqdn) {
      EveryDomainResolves(api, domains, i, fqdn);
    }
  }

  lemma {:induction false} UndottedOwns(domains: seq<Text>, subject: Text, fqdn: Text)
    requires SomeUndotted(domains)
    ensures AlwaysOwn(domains, subject, fqdn)
  {
    hide Lookup, Prepared, ZoneSubject, ZoneOfName;
    var d :| d in domains && '.' !in ZoneSubject(d);
    var k :| 0 <= k < |domains| && domains[k] == d;
    forall api: Api ensures OwnZone(api, domains, subject, fqdn) {
      UndottedNeverPrepares(api, domains, k);
    }
  }

  lemma {:induction false} LaterSpellingDoesNot(domains: seq<Text>, i: nat, fqdn: Text)
    requires i < |domains| && FirstAlike(domains, ZoneSubject(domains[i])) != Some(ZoneSubject(domains[i]))
    requires !SomeUndotted(domains)
    requires SameName(WithoutRoot(fqdn), ChallengeName(ZoneSubject(domains[i])))
    ensures !AlwaysOwn(domains, ZoneSubject(domains[i]), fqdn)
  {
    hide Lookup, SameName, Prepared, ZoneSubject, ZoneOfName, FirstAlike, Echo;
    var subject := ZoneSubject(domains[i]);
    EchoPrepares(domains, []);
    EveryDomainResolves(Echo, domains, i, fqdn);
    FirstAlikeIsAlike(domains, subject);
    assert domains[i] in domains;
    EchoAnswers(subject);
    EchoAnswers(FirstAlike(domains, subject).value);
    assert !OwnZone(Echo, domains, subject, fqdn);
  }

  /**
   A domain resolves to its own zone under every API if and only if the first
   configured domain equal to it up to case is spelled the same, or some domain
   has but one label, so that no preparation succeeds.
   */
  lemma {:induction false} OwnZoneExactly(domains: seq<Text>, i: nat, fqdn: Text)
    requires i < |domains|
    requires SameName(WithoutRoot(fqdn), ChallengeName(ZoneSubject(domains[i])))
    ensures AlwaysOwn(domains, ZoneSubject(domains[i]), fqdn) <==>
      FirstAlike(domains, ZoneSubject(domains[i])) == Some(ZoneSubject(domains[i])) || SomeUndotted(domains)
  {
    hide *;
    if SomeUndotted(domains) {
      UndottedOwns(domains, ZoneSubject(domains[i]), fqdn);
    } else if FirstAlike(domains, ZoneSubject(domains[i])) == Some(ZoneSubject(domains[i])) {
      FirstSpellingOwns(domains, i, fqdn);
    } else {
      LaterSpellingDoesNot(domains, i, fqdn);
    }
  }

  /** Canonical domains, which is all an order prepares, resolve to their own zones. */
  lemma {:induction false} CanonicalOwnZone(api: Api, domains: seq<Text>, i: nat, fqdn: Text)
    requires i < |domains| && forall d <- domains :: Lower(d) == d
    requires SameName(WithoutRoot(fqdn), ChallengeName(ZoneSubject(domains[i])))
    ensures OwnZone(api, domains, ZoneSubject(domains[i]), fqdn)
  {
    hide Lookup, Prepared, ZoneOfName;
    var subject := ZoneSubject(domains[i]);
    HasFirstAlike(domains, i);
    FirstAlikeIsAlike(domains, subject);
    var d :| d in domains && FirstAlike(domains, subject).value == ZoneSubject(d);
    LowerSubject(d);
    LowerSubject(domains[i]);
    if Prepared(api, domains, []).Ok? {
      EveryDomainResolves(api, domains, i, fqdn);
    }
  }

  lemma LowerSubject(domain: Text)
    requires Lower(domain) == domain
    ensures Lower(ZoneSubject(domain)) == ZoneSubject(domain)
  {
    if WILDCARD_PREFIX <= domain {
      LowerSlices(domain, |WILDCARD_PREFIX|);
    }
  }

  lemma TwinNames()
    ensures ZoneSubject("A.b") == "A.b" && ZoneSubject("a.b") == "a.b" && SameName("A.b", "a.b")
    ensures '.' in "A.b" && '.' in "a.b" && SameName(WithoutRoot(ChallengeName("a.b")), ChallengeName("a.b"))
  {
    assert "A.b"[1] == '.' && "a.b"[1] == '.' && "A.b"[0] != '*' && "a.b"[0] != '*' && WILDCARD_PREFIX[0] == '*';
    assert Lower("A.b") == Lower("a.b");
    assert ChallengeName("a.b")[|CHALLENGE_PREFIX| + 2] == 'b';
  }

  /** Two spellings of one name share the lookup of the first. */
  lemma TwinsShareZone()
    ensures Prepared(Echo, ["A.b", "a.b"], []).Ok?
    ensures ZoneOfName(Prepared(Echo, ["A.b", "a.b"], []).value, ChallengeName("a.b")) == Some("A.b")
    ensures Lookup(Echo, "a.b") == Ok("a.b")
  {
    hide Lookup, Prepared, ZoneSubject, SameName, WithoutRoot, ChallengeName, ZoneOfName, Echo;
    TwinNames();
    var domains := ["A.b", "a.b"];
    EchoAnswers("a.b");
    EchoAnswers("A.b");
    EchoPrepares(domains, []);
    EveryDomainResolves(Echo, domains, 1, ChallengeName("a.b"));
    assert FirstAlike(domains, "a.b") == Some("A.b");
  }

  // ---------- records ----------

  type Records = seq<(Text, Text)>

  function ZoneOfRecord(records: Records, id: Text): Option<Text> {
    if records == [] then None
    else if records[0].0 == id then Some(records[0].1)
    else ZoneOfRecord(records[1..], id)
  }

  function Forget(records: Records, id: Text): Records {
    if records == [] then []
    else (if records[0].0 == id then [] else [records[0]]) + Forget(records[1..], id)
  }

  lemma {:induction false} Remembered(records: Records, id: Text, zone: Text, other: Text)
    ensures ZoneOfRecord(records + [(id, zone)], other) ==
      if ZoneOfRecord(records, other).Some? then ZoneOfRecord(records, other)
      else if id == other then Some(zone) else None
    decreases |records|
  {
    if records != [] {
      assert (records + [(id, zone)])[1..] == records[1..] + [(id, zone)];
      Remembered(records[1..], id, zone, other);
    }
  }

  lemma {:induction false} Forgotten(records: Records, id: Text, other: Text)
    ensures ZoneOfRecord(Forget(records, id), other) ==
      if id == other then None else ZoneOfRecord(records, other)
    decreases |records|
  {
    if records != [] {
      Forgotten(records[1..], id, other);
      if records[0].0 == id {
        assert Forget(records, id) == Forget(records[1..], id);
      } else {
        assert Forget(records, id)[1..] == Forget(records[1..], id);
      }
    }
  }

  /** A request with a side effect, as it goes out. */
  datatype Sent = Nothing | Post(zone: Text, name: Text, content: Text) | Delete(zone: Text, recordId: Text)

  /** What a create's exchange comes to: an id, or a typed failure. */
  function Created(exchange: Exchange<Text>): Result<Text, IntegrationError> {
    match Reading(CreateTxt, SideEffect, exchange)
    case Err(error) => Err(error)
    case Ok(record) =>
      match Required(CreateTxt, SideEffect, record)
      case Err(error) => Err(error)
      case Ok(id) => if id == [] then Err(OutcomeUnknownOf(CreateTxt)) else Ok(id)
  }

  function Deleted<T>(exchange: Exchange<T>): Result<(), IntegrationError> {
    match Reading(DeleteTxt, SideEffect, exchange)
    case Err(error) => Err(error)
    case Ok(_) => Ok(())
  }

  /** The service's side: what it refuses or never sees it does not create, and it names what it did. */
  ghost predicate Honest(exchange: Exchange<Text>, wrote: Option<Text>) {
    && (exchange.Unsent? || Refuses(exchange) ==> wrote.None?)
    && (Created(exchange).Ok? ==> wrote == Some(Created(exchange).value))
  }

  function AsProvider<T>(r: Result<T, IntegrationError>): Result<T, RuntimeError> {
    match r case Ok(value) => Ok(value) case Err(error) => Err(Typed(error))
  }

  /**
   The built-in provider keeps the promise every order relies on: whatever the
   exchange, an answered id was written, and a failure of known outcome wrote
   nothing.
   */
  lemma BuiltInTellsTruth(exchange: Exchange<Text>, wrote: Option<Text>)
    requires Honest(exchange, wrote)
    ensures DnsOrder.TellsTruth(AsProvider(Created(exchange)), wrote)
  {
    if Reading(CreateTxt, SideEffect, exchange).Err? {
      KnownExactly(CreateTxt, exchange);
    }
  }

  /** A create answers an id exactly on a confirmation that names one. */
  lemma CreatedExactly(exchange: Exchange<Text>, id: Text)
    ensures Created(exchange) == Ok(id) <==> Confirms(exchange) && exchange.body.result == Some(id) && id != []
    ensures Confirms(exchange) && (exchange.body.result.None? || exchange.body.result == Some([])) ==>
      Created(exchange) == Err(OutcomeUnknownOf(CreateTxt))
    ensures !Confirms(exchange) ==>
      var (failure, retryability) := Advice(SideEffect, exchange);
      Created(exchange) == Err(Failed(CreateTxt, failure, retryability))
  {
    ReadExactly(CreateTxt, SideEffect, exchange);
    hide Reading, Advice;
  }

  /** A delete succeeds exactly on a confirmation, so it keeps its half of the promise too. */
  lemma BuiltInDeletesTruly<T>(exchange: Exchange<T>, gone: bool)
    requires Confirms(exchange) ==> gone
    ensures Deleted(exchange).Ok? <==> Confirms(exchange)
    ensures DnsOrder.DeletesTruly(AsProvider(Deleted(exchange)), gone)
  {
  }

  class ZoneAuthority {
    const zones: Zones
    var records: Records

    constructor (zones: Zones)
      ensures this.zones == zones && records == []
    {
      this.zones, records := zones, [];
    }
  }

  class CloudflareProvider {
    var authority: ZoneAuthority?

    constructor ()
      ensures authority == null
    {
      authority := null;
    }

    /** Publishes the whole map once every lookup succeeded, and nothing before. */
    method Prepare(api: Api, domains: seq<Text>, client: Result<(), IntegrationError>)
      returns (r: Result<(), IntegrationError>)
      modifies this
      ensures r.Ok? <==> client.Ok? && Prepared(api, domains, []).Ok?
      ensures r.Ok? ==>
        && authority != null && fresh(authority) && authority.records == []
        && Ok(authority.zones) == Prepared(api, domains, [])
      ensures r.Err? ==> authority == null
      ensures r.Err? && client.Ok? ==> Prepared(api, domains, []) == Err(r.error)
    {
      hide Lookup, FindZone;
      authority := null;
      if client.Err? {
        return Err(client.error);
      }
      var zones: Zones := [];
      var k := 0;
      while k < |domains|
        invariant k <= |domains| && authority == null
        invariant Prepared(api, domains[k..], zones) == Prepared(api, domains, [])
      {
        assert domains[k..][1..] == domains[k + 1..];
        var subject := ZoneSubject(domains[k]);
        var name := ChallengeName(subject);
        if FindZone(zones, name).None? {
          var zone := LookupZone(api, subject);
          match zone {
            case Err(error) => return Err(error);
            case Ok(id) => zones := zones + [(name, id)];
          }
        }
        k := k + 1;
      }
      authority := new ZoneAuthority(zones);
      r := Ok(());
    }

    /** Nothing is sent for a name that was not prepared. */
    method CreateTxtRecord(fqdn: Text, content: Text, exchange: Exchange<Text>)
      returns (r: Result<Text, IntegrationError>, sent: Sent)
      modifies authority
      ensures authority == old(authority)
      ensures sent == (
        if authority == null || ZoneOfName(authority.zones, fqdn).None? then Nothing
        else Post(ZoneOfName(authority.zones, fqdn).value, fqdn, content))
      ensures r == if sent.Nothing? then Err(RejectedBy(CreateTxt)) else Created(exchange)
      ensures r.Ok? ==> r.value != [] && authority.records == old(authority.records) + [(r.value, sent.zone)]
      ensures authority != null && r.Err? ==> authority.records == old(authority.records)
    {
      sent := Nothing;
      if authority == null {
        return Err(RejectedBy(CreateTxt)), sent;
      }
      match ZoneOfName(authority.zones, fqdn) {
        case None =>
          r := Err(RejectedBy(CreateTxt));
        case Some(zone) =>
          sent := Post(zone, fqdn, content);
          r := Created(exchange);
          if r.Ok? {
            authority.records := authority.records + [(r.value, zone)];
          }
      }
    }

    /** Nothing is sent for an id that is not among the remembered records. */
    method DeleteTxtRecord(id: Text, exchange: Exchange<()>)
      returns (r: Result<(), IntegrationError>, sent: Sent)
      modifies authority
      ensures authority == old(authority)
      ensures sent == (
        if authority == null || ZoneOfRecord(old(authority.records), id).None? then Nothing
        else Delete(ZoneOfRecord(old(authority.records), id).value, id))
      ensures r == if sent.Nothing? then Err(RejectedBy(DeleteTxt)) else Deleted(exchange)
      ensures authority != null ==>
        authority.records == if r.Ok? then Forget(old(authority.records), id) else old(authority.records)
    {
      sent := Nothing;
      if authority == null {
        return Err(RejectedBy(DeleteTxt)), sent;
      }
      match ZoneOfRecord(authority.records, id) {
        case None =>
          r := Err(RejectedBy(DeleteTxt));
        case Some(zone) =>
          sent := Delete(zone, id);
          r := Deleted(exchange);
          if r.Ok? {
            authority.records := Forget(authority.records, id);
          }
      }
    }
  }
}
