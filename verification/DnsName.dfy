/**
 Legal DNS names and their canonical spelling, with the label-list reading
 of RFC 1035 section 2.3.4 and RFC 1123 section 2.1 as its specification.
 */
module DnsName {
  import opened Base
  import opened Text

  const MAX_NAME_OCTETS := 253
  const MAX_LABEL_OCTETS := 63
  const WILDCARD_PREFIX: Text := "*."

  const CHALLENGE_PREFIX: Text := "_acme-challenge."

  /** Where the challenge record of a base name lives. */
  function ChallengeName(base: Text): Text {
    CHALLENGE_PREFIX + base
  }

  datatype Reason =
    | TooLong | NoLabels | EmptyLabel | LabelTooLong | InnerWildcard
    | BadCharacter | EdgeHyphen | AddressLiteral | Wildcard

  datatype Shape = Fine | Bad(reason: Reason)

  function WithoutRoot(name: Text): Text {
    if name != [] && name[|name| - 1] == '.' then name[..|name| - 1] else name
  }

  predicate Permitted(c: char) {
    Alphanumeric(c) || c == '-'
  }

  function LabelShape(lab: Text): Shape {
    if lab == [] then Bad(EmptyLabel)
    else if |lab| > MAX_LABEL_OCTETS then Bad(LabelTooLong)
    else if '*' in lab then Bad(InnerWildcard)
    else if !(forall c <- lab :: Permitted(c)) then Bad(BadCharacter)
    else if lab[0] == '-' || lab[|lab| - 1] == '-' then Bad(EdgeHyphen)
    else Fine
  }

  /** The first label that is out of shape decides. */
  function LabelsShape(labels: seq<Text>): Shape {
    if labels == [] then Fine
    else
      match LabelShape(labels[0])
      case Fine => LabelsShape(labels[1..])
      case bad => bad
  }

  predicate Numeric(lab: Text) {
    forall c <- lab :: Digit(c)
  }

  function NameShape(name: Text, base: Text): Shape {
    if |name| > MAX_NAME_OCTETS then Bad(TooLong)
    else if base == [] then Bad(NoLabels)
    else
      var labels := Split(base, '.');
      match LabelsShape(labels)
      case Fine => if Numeric(labels[|labels| - 1]) then Bad(AddressLiteral) else Fine
      case bad => bad
  }

  function CanonicalDnsName(name: Text): Result<Text, Reason> {
    var trimmed := WithoutRoot(name);
    var checked := if '*' in trimmed then Bad(Wildcard) else NameShape(trimmed, trimmed);
    match checked
    case Fine => Ok(Lower(trimmed))
    case Bad(reason) => Err(reason)
  }

  // ---------- the label-list reading ----------

  predicate LegalLabel(lab: Text) {
    && 1 <= |lab| <= MAX_LABEL_OCTETS
    && (forall c <- lab :: Permitted(c))
    && lab[0] != '-' && lab[|lab| - 1] != '-'
  }

  predicate LegalLabels(labels: seq<Text>) {
    && labels != []
    && (forall lab <- labels :: LegalLabel(lab))
    && !Numeric(labels[|labels| - 1])
  }

  lemma {:induction false} LabelsShapeLegal(labels: seq<Text>)
    ensures LabelsShape(labels).Fine? <==> forall lab <- labels :: LegalLabel(lab)
  {
    if labels != [] {
      LabelsShapeLegal(labels[1..]);
      assert labels == [labels[0]] + labels[1..];
      assert LabelShape(labels[0]).Fine? <==> LegalLabel(labels[0]);
    }
  }

  /** A name passes exactly when its labels are legal and it is short enough. */
  lemma NameShapeLegal(name: Text, base: Text)
    ensures NameShape(name, base).Fine? <==>
      |name| <= MAX_NAME_OCTETS && LegalLabels(Split(base, '.'))
  {
    LabelsShapeLegal(Split(base, '.'));
    if base == [] {
      assert Split(base, '.')[0] == [];
    }
  }

  lemma LegalLower(lab: Text)
    ensures LegalLabel(Lower(lab)) <==> LegalLabel(lab)
    ensures Numeric(Lower(lab)) <==> Numeric(lab)
  {
    var low := Lower(lab);
    assert forall i :: 0 <= i < |lab| ==>
      (Permitted(low[i]) <==> Permitted(lab[i])) && (Digit(low[i]) <==> Digit(lab[i]));
    assert (forall c <- low :: Permitted(c)) <==> forall i :: 0 <= i < |low| ==> Permitted(low[i]);
    assert (forall c <- low :: Digit(c)) <==> forall i :: 0 <= i < |low| ==> Digit(low[i]);
  }

  lemma LegalLabelsLower(labels: seq<Text>)
    ensures LegalLabels(LowerAll(labels)) <==> LegalLabels(labels)
  {
    forall lab | lab in labels ensures LegalLabel(Lower(lab)) <==> LegalLabel(lab) {
      LegalLower(lab);
    }
    assert forall i :: 0 <= i < |labels| ==> LowerAll(labels)[i] == Lower(labels[i]);
    if labels != [] {
      LegalLower(labels[|labels| - 1]);
    }
  }

  /** A legal name is lowered to a legal name of the same length. */
  lemma ShapeLower(name: Text, base: Text)
    requires NameShape(name, base).Fine?
    ensures NameShape(Lower(name), Lower(base)).Fine?
  {
    NameShapeLegal(name, base);
    SplitLower(base);
    LegalLabelsLower(Split(base, '.'));
    NameShapeLegal(Lower(name), Lower(base));
  }

  lemma {:induction false} LastLabel(s: Text)
    ensures var ls := Split(s, '.');
      s != [] && s[|s| - 1] == '.' ==> ls[|ls| - 1] == []
    decreases |s|
  {
    var i := Find(s, '.');
    if i < |s| - 1 {
      LastLabel(s[i + 1..]);
    } else if i == |s| - 1 {
      assert s[i + 1..] == [];
    }
  }

  /** A legal name ends in no dot, so stripping the root changes nothing. */
  lemma LegalHasNoRoot(base: Text)
    requires LegalLabels(Split(base, '.'))
    ensures base != [] && base[|base| - 1] != '.'
  {
    LastLabel(base);
    var ls := Split(base, '.');
    assert LegalLabel(ls[|ls| - 1]);
  }

  /** Every octet of a legal name is a dot or a permitted one. */
  lemma LegalOctets(base: Text, c: char)
    requires LegalLabels(Split(base, '.')) && c in base
    ensures c == '.' || Permitted(c)
  {
    SplitCovers(base, '.', c);
    if c != '.' {
      var p :| p in Split(base, '.') && c in p;
      assert LegalLabel(p);
    }
  }

  /** What is wrong with a label, in the order it is looked for. */
  lemma LabelRefusedFor(lab: Text)
    ensures LabelShape(lab) == Bad(EmptyLabel) <==> lab == []
    ensures LabelShape(lab) == Bad(LabelTooLong) <==> |lab| > 63
    ensures LabelShape(lab) == Bad(InnerWildcard) <==> |lab| <= 63 && '*' in lab
    ensures LabelShape(lab) == Bad(BadCharacter) <==>
      |lab| <= 63 && '*' !in lab && exists c <- lab :: !Alphanumeric(c) && c != '-'
    ensures LabelShape(lab) == Bad(EdgeHyphen) <==>
      && 1 <= |lab| <= 63 && (forall c <- lab :: Permitted(c)) && (lab[0] == '-' || lab[|lab| - 1] == '-')
    ensures LabelShape(lab).Fine? <==> LegalLabel(lab)
  {
    assert !Permitted('*');
  }

  /** Labels are refused for the first one out of shape. */
  lemma {:induction false} FirstBadLabel(labels: seq<Text>, reason: Reason)
    ensures LabelsShape(labels) == Bad(reason) <==> exists k: nat ::
      && k < |labels| && LabelShape(labels[k]) == Bad(reason)
      && forall j :: 0 <= j < k ==> LegalLabel(labels[j])
  {
    hide LabelShape, LegalLabel;
    if labels != [] {
      var rest := labels[1..];
      LabelRefusedFor(labels[0]);
      FirstBadLabel(rest, reason);
      if LabelShape(labels[0]).Fine? {
        if k: nat :| k < |rest| && LabelShape(rest[k]) == Bad(reason) && forall j :: 0 <= j < k ==> LegalLabel(rest[j]) {
          assert labels[k + 1] == rest[k] && forall j :: 0 < j < k + 1 ==> labels[j] == rest[j - 1];
        }
        if k: nat :| k < |labels| && LabelShape(labels[k]) == Bad(reason) && forall j :: 0 <= j < k ==> LegalLabel(labels[j]) {
          assert k > 0 && rest[k - 1] == labels[k] && forall j :: 0 <= j < k - 1 ==> rest[j] == labels[j + 1];
        }
      }
    }
  }

  /** A name is refused for its length first, then its labels, then for looking like an address. */
  lemma NameRefusedFor(name: Text, base: Text)
    ensures NameShape(name, base) == Bad(TooLong) <==> |name| > 253
    ensures |name| <= 253 ==> (NameShape(name, base) == Bad(NoLabels) <==> base == [])
    ensures |name| <= 253 && base != [] && LabelsShape(Split(base, '.')).Bad? ==>
      NameShape(name, base) == LabelsShape(Split(base, '.'))
    ensures NameShape(name, base) == Bad(AddressLiteral) <==>
      var labels := Split(base, '.');
      |name| <= 253 && base != [] && (forall lab <- labels :: LegalLabel(lab)) && Numeric(labels[|labels| - 1])
  {
    hide Split;
    LabelsShapeLegal(Split(base, '.'));
    ShapesAreOfLabels(Split(base, '.'));
  }

  lemma {:induction false} ShapesAreOfLabels(labels: seq<Text>)
    ensures LabelsShape(labels).Bad? ==>
      var reason := LabelsShape(labels).reason;
      !reason.TooLong? && !reason.NoLabels? && !reason.AddressLiteral? && !reason.Wildcard?
  {
    if labels != [] {
      ShapesAreOfLabels(labels[1..]);
    }
  }

  /**
   A name is accepted exactly when, without its root dot, it is legal; it is kept in
   lower case, and a root dot makes no difference.
   */
  lemma CanonicalExactly(name: Text)
    ensures CanonicalDnsName(name).Ok? <==>
      |WithoutRoot(name)| <= 253 && LegalLabels(Split(WithoutRoot(name), '.'))
    ensures CanonicalDnsName(name).Ok? ==> CanonicalDnsName(name).value == Lower(WithoutRoot(name))
    ensures CanonicalDnsName(name) == Err(Wildcard) <==> '*' in WithoutRoot(name)
    ensures name == [] || name[|name| - 1] != '.' ==> CanonicalDnsName(name + ".") == CanonicalDnsName(name)
  {
    var trimmed := WithoutRoot(name);
    assert (name + ".")[..|name|] == name;
    NameShapeLegal(trimmed, trimmed);
    ShapesAreOfLabels(Split(trimmed, '.'));
    if '*' in trimmed && LegalLabels(Split(trimmed, '.')) {
      LegalOctets(trimmed, '*');
    }
    hide Split, LegalLabels, LabelsShape;
  }

  /** Accepted names are canonical: accepting one again returns it unchanged. */
  lemma CanonicalIsFixed(name: Text)
    requires CanonicalDnsName(name).Ok?
    ensures CanonicalDnsName(CanonicalDnsName(name).value) == CanonicalDnsName(name)
    ensures LegalLabels(Split(CanonicalDnsName(name).value, '.'))
    ensures Lower(CanonicalDnsName(name).value) == CanonicalDnsName(name).value
  {
    var trimmed := WithoutRoot(name);
    var out := Lower(trimmed);
    ShapeLower(trimmed, trimmed);
    NameShapeLegal(out, out);
    LegalHasNoRoot(out);
    if '*' in out {
      LegalOctets(out, '*');
      assert false;
    }
    LowerIdempotent(trimmed);
  }
}
