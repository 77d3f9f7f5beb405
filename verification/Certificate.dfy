/**
 Admission of a certificate bundle, and name coverage as a rule on label lists.

 PEM and X.509 parsing is foreign: `Parser` answers the facts a usable bundle's
 leaf states, and nothing for an unusable one.
 */
module Certificate {
  import opened Base
  import opened Text
  import opened DnsName

  type Bytes = string

  const RENEWAL_WINDOW_SECS: int := 30 * 86_400
  const I64_MIN: int := -0x8000_0000_0000_0000
  const I64_MAX: int := 0x7FFF_FFFF_FFFF_FFFF

  datatype Leaf = Leaf(notBefore: int, notAfter: int, dnsNames: seq<Text>)

  type Parser = Bytes -> Option<Leaf>

  /** A validated generation: the leaf's facts and the bundle published for it. */
  datatype Generation = Generation(leaf: Leaf, bundle: Bytes) {
    predicate RenewalDue(now: int) {
      SaturatingSub(leaf.notAfter, now) < RENEWAL_WINDOW_SECS
    }
  }

  datatype Refusal = Unusable | NotYetValid | Expired | Uncovered

  function SaturatingSub(a: int, b: int): int {
    if a - b > I64_MAX then I64_MAX else if a - b < I64_MIN then I64_MIN else a - b
  }

  function BundleOf(cert: Bytes, key: Bytes): Bytes {
    if cert == [] || cert[|cert| - 1] == '\n' then cert + key else cert + "\n" + key
  }

  function WildcardCovers(san: Text, domain: Text): bool {
    match StripPrefix(san, WILDCARD_PREFIX)
    case None => false
    case Some(base) =>
      match SplitOnce(domain, '.')
      case None => false
      case Some((lab, rest)) => lab != [] && '*' !in lab && SameName(rest, base)
  }

  predicate SanCovers(san: Text, domain: Text) {
    var san := WithoutRoot(san);
    SameName(san, domain) || WildcardCovers(san, domain)
  }

  predicate Covered(dnsNames: seq<Text>, domains: seq<Text>) {
    forall d <- domains :: exists san :: san in dnsNames && SanCovers(san, d)
  }

  function CheckWindow(leaf: Leaf, now: int): Option<Refusal> {
    if now < leaf.notBefore then Some(NotYetValid)
    else if now > leaf.notAfter then Some(Expired)
    else None
  }

  function Validate(parse: Parser, bundle: Bytes, domains: seq<Text>, now: int)
    : Result<Generation, Refusal>
  {
    match parse(bundle)
    case None => Err(Unusable)
    case Some(leaf) =>
      match CheckWindow(leaf, now)
      case Some(refusal) => Err(refusal)
      case None =>
        if Covered(leaf.dnsNames, domains) then Ok(Generation(leaf, bundle)) else Err(Uncovered)
  }

  /** A bundle is the certificate, then the key on a line of its own, and at most a line break between. */
  lemma BundleIsBoth(cert: Bytes, key: Bytes)
    ensures
      var bundle := BundleOf(cert, key);
      && cert <= bundle && bundle[|bundle| - |key|..] == key && |bundle| <= |cert| + 1 + |key|
      && (|bundle| > |key| ==> bundle[|bundle| - |key| - 1] == '\n')
      && (|bundle| == |cert| + 1 + |key| ==> cert != [] && cert[|cert| - 1] != '\n')
  {
    var bundle := BundleOf(cert, key);
    assert |bundle| == |cert| + 1 + |key| ==> bundle == cert + "\n" + key;
  }

  // ---------- coverage as a rule about label lists ----------

  function Labels(name: Text): seq<Text> {
    Split(Lower(name), '.')
  }

  /**
   Section 6.4.3 of RFC 6125: the same labels, or a leftmost `*` standing for
   exactly one non-wildcard label.
   */
  predicate LabelRule(san: seq<Text>, domain: seq<Text>) {
    || san == domain
    || (|san| >= 2 && |domain| >= 2 && san[0] == "*" && san[1..] == domain[1..]
        && domain[0] != [] && '*' !in domain[0])
  }

  lemma SplitOnceLabels(name: Text)
    ensures SplitOnce(name, '.').None? <==> |Labels(name)| == 1
    ensures SplitOnce(name, '.').Some? ==>
      var (lab, rest) := SplitOnce(name, '.').value;
      Labels(name) == [Lower(lab)] + Labels(rest)
  {
    hide Split, Find, Lower;
    FindLower(name, '.');
    SplitStep(Lower(name), '.');
    var i := Find(name, '.');
    if i < |name| {
      LowerStep(name, i);
    }
  }

  lemma StarLower(lab: Text)
    ensures '*' in Lower(lab) <==> '*' in lab
    ensures Lower(lab) == "*" <==> lab == "*"
  {
    assert forall i :: 0 <= i < |lab| ==> (Lower(lab)[i] == '*' <==> lab[i] == '*');
    if '*' in lab {
      var i :| 0 <= i < |lab| && lab[i] == '*';
      assert Lower(lab)[i] == '*';
    }
  }

  lemma WildcardPrefixLabels(san: Text)
    ensures WILDCARD_PREFIX <= san <==> |Labels(san)| >= 2 && Labels(san)[0] == "*"
    ensures WILDCARD_PREFIX <= san ==> Labels(san) == ["*"] + Labels(san[2..])
  {
    SplitOnceLabels(san);
    assert WILDCARD_PREFIX <= san <==> |san| >= 2 && san[0] == '*' && san[1] == '.';
    var i := Find(san, '.');
    if i < |san| {
      StarLower(san[..i]);
      assert san[..i] == "*" <==> i == 1 && san[0] == '*';
    }
  }

  lemma WildcardCoversLabels(san: Text, domain: Text)
    ensures WildcardCovers(san, domain) <==>
      var s, d := Labels(san), Labels(domain);
      |s| >= 2 && |d| >= 2 && s[0] == "*" && s[1..] == d[1..] && d[0] != [] && '*' !in d[0]
  {
    WildcardPrefixLabels(san);
    SplitOnceLabels(domain);
    if WILDCARD_PREFIX <= san && SplitOnce(domain, '.').Some? {
      var (lab, rest) := SplitOnce(domain, '.').value;
      StarLower(lab);
      SplitInjective(Lower(rest), Lower(san[2..]), '.');
    }
  }

  /** For every SAN and every domain, coverage is exactly the label rule. */
  lemma SanCoversIsLabelRule(san: Text, domain: Text)
    ensures SanCovers(san, domain) <==> LabelRule(Labels(WithoutRoot(san)), Labels(domain))
  {
    hide WildcardCovers;
    SplitInjective(Lower(WithoutRoot(san)), Lower(domain), '.');
    WildcardCoversLabels(WithoutRoot(san), domain);
  }

  /** Asking for a wildcard, only the very same wildcard will do. */
  lemma WildcardOnlyByItself(san: Text, domain: Text)
    requires WILDCARD_PREFIX <= domain
    ensures SanCovers(san, domain) <==> SameName(WithoutRoot(san), domain)
  {
    SanCoversIsLabelRule(san, domain);
    WildcardPrefixLabels(domain);
    SplitInjective(Lower(WithoutRoot(san)), Lower(domain), '.');
  }

  /** A wildcard never covers its own apex, nor two labels below it. */
  lemma WildcardIsOneLabel(san: Text, domain: Text)
    requires SanCovers(san, domain)
    ensures |Labels(domain)| == |Labels(WithoutRoot(san))|
  {
    SanCoversIsLabelRule(san, domain);
  }

  /** An admitted generation holds its window and covers every domain. */
  lemma ValidateAdmits(parse: Parser, bundle: Bytes, domains: seq<Text>, now: int)
    ensures Validate(parse, bundle, domains, now).Ok? <==>
      && parse(bundle).Some?
      && parse(bundle).value.notBefore <= now <= parse(bundle).value.notAfter
      && (forall d <- domains :: exists san ::
            san in parse(bundle).value.dnsNames && LabelRule(Labels(WithoutRoot(san)), Labels(d)))
    ensures Validate(parse, bundle, domains, now).Ok? ==>
      Validate(parse, bundle, domains, now).value == Generation(parse(bundle).value, bundle)
  {
    hide SanCovers, LabelRule, Labels;
    forall san, d ensures SanCovers(san, d) <==> LabelRule(Labels(WithoutRoot(san)), Labels(d)) {
      SanCoversIsLabelRule(san, d);
    }
  }

  /** Each refusal says what is wrong: with the bundle, then its window, then its names. */
  lemma RefusedFor(parse: Parser, bundle: Bytes, domains: seq<Text>, now: int)
    ensures
      var r := Validate(parse, bundle, domains, now);
      var leaf := parse(bundle);
      && (r == Err(Unusable) <==> leaf.None?)
      && (r == Err(NotYetValid) <==> leaf.Some? && now < leaf.value.notBefore)
      && (r == Err(Expired) <==> leaf.Some? && leaf.value.notBefore <= now && leaf.value.notAfter < now)
      && (r == Err(Uncovered) <==>
            && leaf.Some? && leaf.value.notBefore <= now <= leaf.value.notAfter
            && exists d <- domains :: forall san <- leaf.value.dnsNames ::
                 !LabelRule(Labels(WithoutRoot(san)), Labels(d)))
  {
    hide SanCovers, LabelRule, Labels;
    forall san, d ensures SanCovers(san, d) <==> LabelRule(Labels(WithoutRoot(san)), Labels(d)) {
      SanCoversIsLabelRule(san, d);
    }
  }

  /** Renewal is due thirty days before the end; saturation never changes that for 64-bit times. */
  lemma RenewalDueIsExact(g: Generation, now: int)
    requires I64_MIN <= g.leaf.notAfter <= I64_MAX && I64_MIN <= now <= I64_MAX
    ensures g.RenewalDue(now) <==> g.leaf.notAfter - now < 2_592_000
  {
  }
}
