/**
 Text as a sequence of UTF-8 octets, one `char` for each, so that lengths count
 octets, and two texts are compared octet by octet or with ASCII letters folded.
 */
module Text {
  import opened Base

  type Text = string

  function LowerChar(c: char): char {
    if 'A' <= c <= 'Z' then (c as int + 32) as char else c
  }

  function Lower(s: Text): (r: Text)
    ensures |r| == |s|
    ensures forall i :: 0 <= i < |s| ==> r[i] == LowerChar(s[i])
  {
    seq(|s|, i requires 0 <= i < |s| => LowerChar(s[i]))
  }

  /** `eq_ignore_ascii_case`. */
  predicate SameName(a: Text, b: Text) {
    Lower(a) == Lower(b)
  }

  predicate Digit(c: char) {
    '0' <= c <= '9'
  }

  predicate Alphanumeric(c: char) {
    Digit(c) || 'a' <= c <= 'z' || 'A' <= c <= 'Z'
  }

  /** The index of the first `c`, or the length when there is none. */
  function Find(s: Text, c: char): (i: nat)
    ensures i <= |s|
    ensures forall j :: 0 <= j < i ==> s[j] != c
    ensures i < |s| ==> s[i] == c
  {
    if s == [] || s[0] == c then 0 else 1 + Find(s[1..], c)
  }

  function SplitOnce(s: Text, c: char): Option<(Text, Text)> {
    var i := Find(s, c);
    if i < |s| then Some((s[..i], s[i + 1..])) else None
  }

  function StripPrefix(s: Text, p: Text): Option<Text> {
    if p <= s then Some(s[|p|..]) else None
  }

  function Split(s: Text, c: char): (r: seq<Text>)
    ensures r != []
    decreases |s|
  {
    var i := Find(s, c);
    if i < |s| then [s[..i]] + Split(s[i + 1..], c) else [s]
  }

  function Join(parts: seq<Text>, c: char): Text
    requires parts != []
  {
    if |parts| == 1 then parts[0] else parts[0] + [c] + Join(parts[1..], c)
  }

  function LowerAll(parts: seq<Text>): (r: seq<Text>)
    ensures |r| == |parts|
  {
    seq(|parts|, i requires 0 <= i < |parts| => Lower(parts[i]))
  }

  lemma FindAt(s: Text, c: char, i: nat)
    requires i < |s| && s[i] == c && forall j :: 0 <= j < i ==> s[j] != c
    ensures Find(s, c) == i
  {
  }

  lemma FindNone(s: Text, c: char)
    ensures c !in s <==> Find(s, c) == |s|
  {
  }

  lemma SplitOnceAt(a: Text, c: char, b: Text)
    requires c !in a
    ensures SplitOnce(a + ([c] + b), c) == Some((a, b))
  {
    var s := a + ([c] + b);
    FindAt(s, c, |a|);
    assert s[..|a|] == a && s[|a| + 1..] == b;
  }

  lemma LowerIdempotent(s: Text)
    ensures Lower(Lower(s)) == Lower(s)
  {
  }

  lemma LowerSlices(s: Text, i: nat)
    requires i <= |s|
    ensures Lower(s)[..i] == Lower(s[..i]) && Lower(s)[i..] == Lower(s[i..])
  {
  }

  /** Lowering moves no character onto or off a non-letter. */
  lemma FindLower(s: Text, c: char)
    requires LowerChar(c) == c && !('a' <= c <= 'z')
    ensures Find(Lower(s), c) == Find(s, c)
  {
    var i := Find(s, c);
    assert forall j :: 0 <= j < |s| ==> (Lower(s)[j] == c <==> s[j] == c);
    if i < |s| {
      FindAt(Lower(s), c, i);
    } else {
      FindNone(Lower(s), c);
    }
  }

  lemma {:induction false} LowerAllCons(p: Text, ps: seq<Text>)
    ensures LowerAll([p] + ps) == [Lower(p)] + LowerAll(ps)
  {
  }

  /** One unfolding of `Split`. */
  lemma {:induction false} SplitStep(s: Text, c: char)
    ensures Split(s, c) ==
      if Find(s, c) < |s| then [s[..Find(s, c)]] + Split(s[Find(s, c) + 1..], c) else [s]
  {
  }

  lemma {:induction false} JoinCons(p: Text, ps: seq<Text>, c: char)
    requires ps != []
    ensures Join([p] + ps, c) == p + [c] + Join(ps, c)
  {
    assert ([p] + ps)[1..] == ps;
  }

  lemma {:induction false} LowerStep(s: Text, i: nat)
    requires i < |s| && s[i] == '.'
    ensures Lower(s)[..i] == Lower(s[..i]) && Lower(s)[i + 1..] == Lower(s[i + 1..])
  {
    LowerSlices(s, i);
    LowerSlices(s, i + 1);
  }

  lemma {:induction false} SplitLower(s: Text)
    ensures Split(Lower(s), '.') == LowerAll(Split(s, '.'))
    decreases |s|
  {
    hide Split, Find, Lower, LowerAll;
    FindLower(s, '.');
    SplitStep(s, '.');
    SplitStep(Lower(s), '.');
    var i := Find(s, '.');
    if i < |s| {
      LowerStep(s, i);
      SplitLower(s[i + 1..]);
      LowerAllCons(s[..i], Split(s[i + 1..], '.'));
    } else {
      LowerAllCons(s, []);
      assert LowerAll([s]) == [Lower(s)] by { assert [s] + [] == [s]; }
    }
  }

  lemma {:induction false} JoinSplit(s: Text, c: char)
    ensures Join(Split(s, c), c) == s
    decreases |s|
  {
    SplitStep(s, c);
    hide Split, Find;
    var i := Find(s, c);
    if i < |s| {
      JoinSplit(s[i + 1..], c);
      JoinCons(s[..i], Split(s[i + 1..], c), c);
      hide Join;
      assert s == s[..i] + [c] + s[i + 1..];
    }
  }

  /** Splitting is faithful: only equal texts have equal parts. */
  lemma SplitInjective(a: Text, b: Text, c: char)
    ensures Split(a, c) == Split(b, c) <==> a == b
  {
    JoinSplit(a, c);
    JoinSplit(b, c);
  }

  lemma SplitCons(p: Text, rest: Text, c: char)
    requires c !in p
    ensures Split(p + ([c] + rest), c) == [p] + Split(rest, c)
  {
    var s := p + ([c] + rest);
    FindAt(s, c, |p|);
    SplitStep(s, c);
    hide Split, Find;
    assert s[|p| + 1..] == rest && s[..|p|] == p;
  }

  /** Parts free of the separator are what splitting their join gives back. */
  lemma {:induction false} SplitJoin(parts: seq<Text>, c: char)
    requires parts != [] && forall i :: 0 <= i < |parts| ==> c !in parts[i]
    ensures Split(Join(parts, c), c) == parts
    decreases |parts|
  {
    if |parts| == 1 {
      FindNone(parts[0], c);
      SplitStep(parts[0], c);
      hide Split, Find;
    } else {
      hide Split, Find;
      SplitJoin(parts[1..], c);
      var rest := Join(parts[1..], c);
      assert Join(parts, c) == parts[0] + ([c] + rest);
      hide Join;
      SplitCons(parts[0], rest, c);
    }
  }

  /** Every octet of a text is a separator or sits in one of the parts. */
  lemma {:induction false} SplitCovers(s: Text, c: char, x: char)
    requires x in s
    ensures x == c || exists p :: p in Split(s, c) && x in p
    decreases |s|
  {
    var i := Find(s, c);
    if i < |s| {
      assert s == s[..i] + [c] + s[i + 1..];
      if x in s[..i] {
        assert s[..i] in Split(s, c);
      } else if x != c {
        SplitCovers(s[i + 1..], c, x);
        var p :| p in Split(s[i + 1..], c) && x in p;
        assert p in Split(s, c);
      }
    } else {
      assert s in Split(s, c);
    }
  }
}
