/**
 Site authorities: `host[:port]` text split, canonicalised and printed again.

 IPv4 text is read and written digit by digit. The standard text form of an
 IPv6 address is foreign, so it is a parameter: a function from address text to
 its standard form, of which only that it is a fixed form without `]` is used.
 */
module SiteAuthority {
  import opened Base
  import opened Text
  import opened DnsName

  datatype Refusal =
    | UnclosedBracket | TextAfterBracket | BareIpv6 | EmptyPort | PortNotDecimal | PortZero
    | PortTooLarge | NotIpv6 | NotDns(reason: Reason)

  // ---------- decimals ----------

  predicate Digits(s: Text) {
    forall i :: 0 <= i < |s| ==> Digit(s[i])
  }

  function DigitValue(c: char): (d: nat)
    requires Digit(c)
    ensures d < 10
  {
    c as int - '0' as int
  }

  function DigitChar(d: nat): (c: char)
    requires d < 10
    ensures Digit(c) && DigitValue(c) == d
  {
    ('0' as int + d) as char
  }

  function Value(s: Text): nat
    requires Digits(s)
  {
    if s == [] then 0 else 10 * Value(s[..|s| - 1]) + DigitValue(s[|s| - 1])
  }

  function Print(n: nat): Text {
    if n < 10 then [DigitChar(n)] else Print(n / 10) + [DigitChar(n % 10)]
  }

  lemma {:induction false} PrintReads(n: nat)
    ensures Print(n) != [] && Digits(Print(n)) && Value(Print(n)) == n
    ensures |Print(n)| > 1 ==> Print(n)[0] != '0'
  {
    if n >= 10 {
      PrintReads(n / 10);
      assert Print(n)[..|Print(n)| - 1] == Print(n / 10);
    }
  }

  /** Digits without a leading zero are exactly what their value prints as. */
  lemma {:induction false} ReadPrints(s: Text)
    requires s != [] && Digits(s) && (|s| > 1 ==> s[0] != '0')
    ensures Print(Value(s)) == s
    ensures |s| > 1 ==> Value(s) >= 10
  {
    var init := s[..|s| - 1];
    if |s| == 1 {
      assert init == [];
    } else {
      ReadPrints(init);
      assert Value(init) >= 1;
      assert s == init + [s[|s| - 1]];
    }
  }

  // ---------- splitting ----------

  datatype HostPart = Bracketed(address: Text) | Named(name: Text)

  datatype Halves = Halves(host: HostPart, port: Option<Text>)

  function SplitBracketed(bracketed: Text): Result<Halves, Refusal> {
    match SplitOnce(bracketed, ']')
    case None => Err(UnclosedBracket)
    case Some(parts) =>
      if parts.1 == [] then Ok(Halves(Bracketed(parts.0), None))
      else
        match StripPrefix(parts.1, ":")
        case Some(port) => Ok(Halves(Bracketed(parts.0), Some(port)))
        case None => Err(TextAfterBracket)
  }

  function SplitNamed(raw: Text): Result<Halves, Refusal> {
    match SplitOnce(raw, ':')
    case None => Ok(Halves(Named(raw), None))
    case Some(parts) =>
      if ':' in parts.1 then Err(BareIpv6) else Ok(Halves(Named(parts.0), Some(parts.1)))
  }

  /** Leading zeros are read; the value is what counts. */
  function ParsePort(port: Text): Result<nat, Refusal> {
    if port == [] then Err(EmptyPort)
    else if !Digits(port) then Err(PortNotDecimal)
    else if Value(port) == 0 then Err(PortZero)
    else if Value(port) <= 65535 then Ok(Value(port))
    else Err(PortTooLarge)
  }

  function SplitAuthority(raw: Text): Result<(HostPart, Option<nat>), Refusal> {
    var split := match StripPrefix(raw, "[") case Some(rest) => SplitBracketed(rest) case None => SplitNamed(raw);
    match split
    case Err(refusal) => Err(refusal)
    case Ok(halves) =>
      if halves.port.None? then Ok((halves.host, None))
      else
        match ParsePort(halves.port.value)
        case Ok(port) => Ok((halves.host, Some(port)))
        case Err(refusal) => Err(refusal)
  }

  // ---------- hosts ----------

  predicate OctetText(s: Text) {
    1 <= |s| <= 3 && Digits(s) && (|s| > 1 ==> s[0] != '0') && Value(s) <= 255
  }

  function ParseIpv4(name: Text): Option<seq<nat>> {
    var parts := Split(name, '.');
    if |parts| == 4 && forall i :: 0 <= i < 4 ==> OctetText(parts[i]) then
      Some(seq(4, i requires 0 <= i < 4 => Value(parts[i])))
    else None
  }

  function PrintIpv4(octets: seq<nat>): Text
    requires |octets| == 4
  {
    Join(seq(4, i requires 0 <= i < 4 => Print(octets[i])), '.')
  }

  /** Only one text is read as an address: the one it prints as. */
  lemma Ipv4IsCanonical(name: Text)
    requires ParseIpv4(name).Some?
    ensures PrintIpv4(ParseIpv4(name).value) == name
  {
    var parts := Split(name, '.');
    var octets := ParseIpv4(name).value;
    forall i | 0 <= i < 4 ensures Print(octets[i]) == parts[i] {
      ReadPrints(parts[i]);
    }
    assert seq(4, i requires 0 <= i < 4 => Print(octets[i])) == parts;
    JoinSplit(name, '.');
  }

  predicate IsOctets(octets: seq<nat>) {
    |octets| == 4 && forall i :: 0 <= i < 4 ==> octets[i] <= 255
  }

  lemma OctetPrints(n: nat)
    requires n <= 255
    ensures OctetText(Print(n)) && Value(Print(n)) == n && '.' !in Print(n)
  {
    PrintReads(n);
    if n >= 10 {
      assert |Print(n)| == |Print(n / 10)| + 1;
      if n >= 100 {
        assert |Print(n / 10)| == |Print(n / 10 / 10)| + 1;
      }
    }
  }

  lemma {:induction false} PrintedIpv4Parses(octets: seq<nat>)
    requires IsOctets(octets)
    ensures ParseIpv4(PrintIpv4(octets)) == Some(octets)
  {
    var parts := seq(4, i requires 0 <= i < 4 => Print(octets[i]));
    forall i | 0 <= i < 4 ensures OctetText(parts[i]) && Value(parts[i]) == octets[i] && '.' !in parts[i] {
      OctetPrints(octets[i]);
    }
    SplitJoin(parts, '.');
    hide Print, OctetText, Split, Join;
    assert ParseIpv4(PrintIpv4(octets)).Some?;
    assert ParseIpv4(PrintIpv4(octets)).value == octets;
  }

  /** The texts read as addresses are exactly what four octets print as, each as its own octets. */
  lemma Ipv4Exactly(name: Text)
    ensures ParseIpv4(name).Some? <==> exists octets :: IsOctets(octets) && PrintIpv4(octets) == name
  {
    if ParseIpv4(name).Some? {
      Ipv4IsCanonical(name);
      assert IsOctets(ParseIpv4(name).value);
    }
    if octets :| IsOctets(octets) && PrintIpv4(octets) == name {
      PrintedIpv4Parses(octets);
    }
  }

  /** The standard text form of an IPv6 address, of text that is one. */
  type Ipv6 = Text -> Option<Text>

  ghost predicate StandardForm(ipv6: Ipv6) {
    forall s :: ipv6(s).Some? ==> ipv6(ipv6(s).value) == ipv6(s) && ']' !in ipv6(s).value
  }

  datatype HostKind = Dns | Ip

  datatype Host = Host(text: Text, kind: HostKind)

  function CanonicalNamedHost(name: Text): Result<Host, Refusal> {
    match ParseIpv4(name)
    case Some(octets) => Ok(Host(PrintIpv4(octets), Ip))
    case None =>
      match CanonicalDnsName(name)
      case Ok(canonical) => Ok(Host(canonical, Dns))
      case Err(reason) => Err(NotDns(reason))
  }

  function CanonicalSiteHost(ipv6: Ipv6, host: HostPart): Result<Host, Refusal> {
    match host
    case Named(name) => CanonicalNamedHost(name)
    case Bracketed(address) =>
      match ipv6(address)
      case Some(standard) => Ok(Host("[" + standard + "]", Ip))
      case None => Err(NotIpv6)
  }

  datatype Site = Site(text: Text, hostLen: nat, kind: HostKind)

  function WithPort(host: Text, port: Option<nat>): Text {
    if port.Some? then host + ":" + Print(port.value) else host
  }

  function Parse(ipv6: Ipv6, raw: Text): (r: Result<Site, Refusal>)
    ensures r.Ok? ==> r.value.hostLen <= |r.value.text|
  {
    match SplitAuthority(raw)
    case Err(refusal) => Err(refusal)
    case Ok(halves) =>
      match CanonicalSiteHost(ipv6, halves.0)
      case Err(refusal) => Err(refusal)
      case Ok(host) => Ok(Site(WithPort(host.text, halves.1), |host.text|, host.kind))
  }

  function RoutingHost(site: Site): Text
    requires site.hostLen <= |site.text|
  {
    site.text[..site.hostLen]
  }

  function CertificateName(site: Site): Option<Text>
    requires site.hostLen <= |site.text|
  {
    if site.kind.Dns? then Some(RoutingHost(site)) else None
  }

  // ---------- canonical hosts read back ----------

  predicate PortText(port: Text) {
    port != [] && Digits(port) && 1 <= Value(port) <= 65535
  }

  /** The authority as it is spelled, before anything is canonical. */
  function Spelled(host: HostPart, port: Option<Text>): Text {
    (match host case Named(name) => name case Bracketed(address) => "[" + (address + "]"))
    + if port.Some? then ":" + port.value else []
  }

  /** Free of what separates a port, opens a bracket or closes one. */
  predicate Separable(host: HostPart) {
    match host
    case Named(name) => Plain(name)
    case Bracketed(address) => ']' !in address
  }

  lemma ColonFree(port: Text)
    requires Digits(port)
    ensures ':' !in port
  {
  }

  lemma NamedSplits(name: Text, port: Option<Text>)
    requires Plain(name) && (port.Some? ==> ':' !in port.value)
    ensures !("[" <= Spelled(Named(name), port))
    ensures SplitNamed(Spelled(Named(name), port)) == Ok(Halves(Named(name), port))
  {
    if port.None? {
      assert Spelled(Named(name), port) == name;
      FindNone(name, ':');
    } else {
      var raw := Spelled(Named(name), port);
      assert raw == name + ([':'] + port.value);
      assert raw[0] == if name == [] then ':' else name[0];
      SplitOnceAt(name, ':', port.value);
      hide SplitOnce;
    }
  }

  lemma BracketsSplit(address: Text, port: Option<Text>)
    requires ']' !in address
    ensures "[" <= Spelled(Bracketed(address), port)
    ensures SplitBracketed(Spelled(Bracketed(address), port)[1..]) == Ok(Halves(Bracketed(address), port))
  {
    hide SplitOnce;
    var tail := if port.Some? then ":" + port.value else [];
    assert Spelled(Bracketed(address), port)[1..] == address + ([']'] + tail);
    SplitOnceAt(address, ']', tail);
    if port.Some? {
      assert tail[1..] == port.value;
    }
  }

  /** Spelling and splitting are inverse. */
  lemma SpelledSplits(host: HostPart, port: Option<Text>)
    requires Separable(host) && (port.Some? ==> PortText(port.value))
    ensures SplitAuthority(Spelled(host, port)) ==
      Ok((host, if port.Some? then Some(Value(port.value)) else None))
  {
    if port.Some? {
      ColonFree(port.value);
    }
    match host
    case Named(name) => NamedSplits(name, port);
    case Bracketed(address) => BracketsSplit(address, port);
    hide SplitNamed, SplitBracketed, Spelled;
  }

  lemma SplitOnceSpells(raw: Text, c: char)
    ensures SplitOnce(raw, c).Some? ==>
      var parts := SplitOnce(raw, c).value; c !in parts.0 && raw == parts.0 + ([c] + parts.1)
    ensures SplitOnce(raw, c).None? ==> c !in raw
  {
    FindNone(raw, c);
  }

  lemma BracketedSpells(rest: Text)
    requires SplitBracketed(rest).Ok?
    ensures var split := SplitBracketed(rest).value;
      split.host.Bracketed? && Separable(split.host) && "[" + rest == Spelled(split.host, split.port)
  {
    SplitOnceSpells(rest, ']');
    hide SplitOnce;
    var split := SplitBracketed(rest).value;
    var tail := SplitOnce(rest, ']').value.1;
    assert tail == if split.port.Some? then ":" + split.port.value else [];
    var address := split.host.address;
    assert "[" + (address + ([']'] + tail)) == "[" + (address + "]") + tail;
  }

  lemma NamedSpells(raw: Text)
    requires !("[" <= raw) && SplitNamed(raw).Ok?
    ensures var split := SplitNamed(raw).value;
      split.host.Named? && Separable(split.host) && raw == Spelled(split.host, split.port)
  {
    SplitOnceSpells(raw, ':');
    hide SplitOnce;
    var split := SplitNamed(raw).value;
    assert raw == split.host.name + if split.port.Some? then ":" + split.port.value else [];
  }

  /** What splits is spelled that way: the host separable, the port a port. */
  lemma SplitSpells(raw: Text) returns (host: HostPart, port: Option<Text>)
    requires SplitAuthority(raw).Ok?
    ensures Separable(host) && (port.Some? ==> PortText(port.value)) && raw == Spelled(host, port)
    ensures SplitAuthority(raw).value == (host, if port.Some? then Some(Value(port.value)) else None)
  {
    hide SplitBracketed, SplitNamed, Spelled, Separable;
    var split: Halves;
    if "[" <= raw {
      split := SplitBracketed(raw[1..]).value;
      BracketedSpells(raw[1..]);
      assert raw == "[" + raw[1..];
    } else {
      split := SplitNamed(raw).value;
      NamedSpells(raw);
    }
    return split.host, split.port;
  }

  /** Accepted text is exactly a spelled host that has a canonical form, with at most a port. */
  lemma AcceptedExactly(ipv6: Ipv6, raw: Text)
    ensures Parse(ipv6, raw).Ok? <==> exists host, port :: Accepted(ipv6, raw, host, port)
  {
    hide SplitAuthority, CanonicalSiteHost, Spelled;
    if Parse(ipv6, raw).Ok? {
      var host, port := SplitSpells(raw);
      assert Accepted(ipv6, raw, host, port);
    }
    if host, port :| Accepted(ipv6, raw, host, port) {
      SpelledSplits(host, port);
    }
  }

  ghost predicate Accepted(ipv6: Ipv6, raw: Text, host: HostPart, port: Option<Text>) {
    && raw == Spelled(host, port) && Separable(host) && (port.Some? ==> PortText(port.value))
    && CanonicalSiteHost(ipv6, host).Ok?
  }

  /** The text an accepted host is kept as. */
  function Kept(ipv6: Ipv6, host: HostPart): Host {
    match host
    case Bracketed(address) =>
      Host("[" + (if ipv6(address).Some? then ipv6(address).value else []) + "]", Ip)
    case Named(name) => if ParseIpv4(name).Some? then Host(name, Ip) else Host(Lower(WithoutRoot(name)), Dns)
  }

  lemma HostKept(ipv6: Ipv6, host: HostPart)
    requires CanonicalSiteHost(ipv6, host).Ok?
    ensures CanonicalSiteHost(ipv6, host) == Ok(Kept(ipv6, host))
  {
    match host
    case Bracketed(_) =>
    case Named(name) =>
      if ParseIpv4(name).Some? {
        Ipv4IsCanonical(name);
      } else {
        CanonicalExactly(name);
      }
      hide ParseIpv4, PrintIpv4, CanonicalDnsName;
  }

  /** What an accepted authority is kept as: its host in canonical form, and its port without leading zeros. */
  lemma ParsedAs(ipv6: Ipv6, raw: Text, host: HostPart, port: Option<Text>)
    requires Accepted(ipv6, raw, host, port)
    ensures
      var kept := Kept(ipv6, host);
      Parse(ipv6, raw) == Ok(Site(
        kept.text + (if port.Some? then ":" + Print(Value(port.value)) else []), |kept.text|, kept.kind))
  {
    hide SplitAuthority, CanonicalSiteHost, Spelled, Kept;
    SpelledSplits(host, port);
    HostKept(ipv6, host);
    var text := Kept(ipv6, host).text;
    if port.Some? {
      assert text + ":" + Print(Value(port.value)) == text + (":" + Print(Value(port.value)));
    } else {
      assert text + [] == text;
    }
  }

  /** A port that is none is refused for its text, and before the host is looked at. */
  lemma PortRefused(ipv6: Ipv6, host: HostPart, port: Text)
    requires Separable(host) && !PortText(port) && ':' !in port
    ensures Parse(ipv6, Spelled(host, Some(port))) == Err(
      if port == [] then EmptyPort
      else if !Digits(port) then PortNotDecimal
      else if Value(port) == 0 then PortZero
      else PortTooLarge)
  {
    match host
    case Named(name) => NamedSplits(name, Some(port));
    case Bracketed(address) => BracketsSplit(address, Some(port));
    hide SplitNamed, SplitBracketed, Spelled, CanonicalSiteHost;
  }

  /** Text that splits into no host and port at all. */
  lemma UnsplitRefused(ipv6: Ipv6, head: Text, tail: Text)
    ensures ']' !in tail ==> Parse(ipv6, "[" + tail) == Err(UnclosedBracket)
    ensures ']' !in head && tail != [] && tail[0] != ':' ==>
      Parse(ipv6, "[" + (head + ([']'] + tail))) == Err(TextAfterBracket)
    ensures Plain(head) && ':' in tail ==> Parse(ipv6, head + ([':'] + tail)) == Err(BareIpv6)
  {
    hide SplitOnce, CanonicalSiteHost;
    assert ("[" + tail)[1..] == tail && ("[" + (head + ([']'] + tail)))[1..] == head + ([']'] + tail);
    if ']' !in tail { SplitOnceSpells(tail, ']'); }
    if ']' !in head { SplitOnceAt(head, ']', tail); }
    if Plain(head) {
      SplitOnceAt(head, ':', tail);
      assert (head + ([':'] + tail))[0] == if head == [] then ':' else head[0];
    }
  }

  /** A host is canonical when it is one of the texts `parse` puts before a port. */
  ghost predicate CanonicalHost(ipv6: Ipv6, host: Host) {
    exists part :: CanonicalSiteHost(ipv6, part) == Ok(host)
  }

  lemma Ipv4Octets(name: Text, c: char)
    requires ParseIpv4(name).Some? && c in name
    ensures c == '.' || Digit(c)
  {
    SplitCovers(name, '.', c);
    if c != '.' {
      var p :| p in Split(name, '.') && c in p;
      assert OctetText(p);
    }
  }

  lemma DnsIsNotIpv4(name: Text)
    requires LegalLabels(Split(name, '.'))
    ensures ParseIpv4(name).None?
  {
    var labels := Split(name, '.');
    if ParseIpv4(name).Some? {
      assert OctetText(labels[3]);
      assert Numeric(labels[3]);
      assert false;
    }
  }

  /** Free of what separates a port or opens a bracket. */
  predicate Plain(name: Text) {
    ':' !in name && !("[" <= name)
  }

  lemma PlainOctets(name: Text)
    requires forall c <- name :: c == '.' || Permitted(c)
    ensures Plain(name)
  {
    if name != [] {
      assert name[0] in name;
    }
  }

  lemma NamedHostIsFixed(name: Text)
    requires CanonicalNamedHost(name).Ok?
    ensures var host := CanonicalNamedHost(name).value; CanonicalNamedHost(host.text) == Ok(host) && Plain(host.text)
  {
    hide ParseIpv4, PrintIpv4, CanonicalDnsName;
    var host := CanonicalNamedHost(name).value;
    if ParseIpv4(name).Some? {
      Ipv4IsCanonical(name);
      forall c | c in name ensures c == '.' || Permitted(c) {
        Ipv4Octets(name, c);
      }
    } else {
      CanonicalIsFixed(name);
      DnsIsNotIpv4(host.text);
      forall c | c in host.text ensures c == '.' || Permitted(c) {
        LegalOctets(host.text, c);
      }
    }
    PlainOctets(host.text);
  }

  lemma PrintedIsSpelled(host: HostPart, text: Text, port: Option<nat>)
    requires text == Spelled(host, None) && (port.Some? ==> 1 <= port.value <= 65535)
    ensures WithPort(text, port) == Spelled(host, if port.Some? then Some(Print(port.value)) else None)
    ensures port.Some? ==> PortText(Print(port.value)) && Value(Print(port.value)) == port.value
  {
    if port.Some? {
      PrintReads(port.value);
      hide Print;
      assert text + ":" + Print(port.value) == text + (":" + Print(port.value));
    }
  }

  /** Any canonical host with any port, or with none, prints and parses back. */
  lemma PrintedParses(ipv6: Ipv6, host: Host, port: Option<nat>)
    requires StandardForm(ipv6) && CanonicalHost(ipv6, host)
    requires port.Some? ==> 1 <= port.value <= 65535
    ensures Parse(ipv6, WithPort(host.text, port)) == Ok(Site(WithPort(host.text, port), |host.text|, host.kind))
  {
    hide CanonicalNamedHost, SplitAuthority, PortText, Print;
    var part :| CanonicalSiteHost(ipv6, part) == Ok(host);
    var again: HostPart;
    match part {
      case Named(name) =>
        NamedHostIsFixed(name);
        again := Named(host.text);
        assert Spelled(again, None) == host.text;
      case Bracketed(address) =>
        again := Bracketed(ipv6(address).value);
        assert Spelled(again, None) == host.text;
    }
    PrintedIsSpelled(again, host.text, port);
    SpelledSplits(again, if port.Some? then Some(Print(port.value)) else None);
  }

  lemma PortsAreInRange(raw: Text)
    ensures SplitAuthority(raw).Ok? && SplitAuthority(raw).value.1.Some? ==>
      1 <= SplitAuthority(raw).value.1.value <= 65535
  {
  }

  /** Parsing is a retraction: canonical text parses to the very same authority. */
  lemma ParseIsRetraction(ipv6: Ipv6, raw: Text)
    requires StandardForm(ipv6) && Parse(ipv6, raw).Ok?
    ensures Parse(ipv6, Parse(ipv6, raw).value.text) == Parse(ipv6, raw)
  {
    hide SplitAuthority, CanonicalSiteHost;
    PortsAreInRange(raw);
    var halves := SplitAuthority(raw).value;
    PrintedParses(ipv6, CanonicalSiteHost(ipv6, halves.0).value, halves.1);
  }

  /**
   The routing host carries no port: alone it is an authority without one, and
   what follows it in the text is nothing, or `:` and the port.
   */
  lemma RoutingHostHasNoPort(ipv6: Ipv6, raw: Text)
    requires StandardForm(ipv6) && Parse(ipv6, raw).Ok?
    ensures
      var site := Parse(ipv6, raw).value;
      var host := RoutingHost(site);
      && Parse(ipv6, host) == Ok(Site(host, |host|, site.kind))
      && site.text == WithPort(host, SplitAuthority(raw).value.1)
      && (site.kind.Dns? ==> CertificateName(site) == Some(host) && LegalLabels(Split(host, '.')) && Lower(host) == host)
  {
    hide SplitAuthority, CanonicalSiteHost;
    PortsAreInRange(raw);
    var site := Parse(ipv6, raw).value;
    var halves := SplitAuthority(raw).value;
    var host := CanonicalSiteHost(ipv6, halves.0).value;
    assert RoutingHost(site) == host.text;
    PrintedParses(ipv6, host, None);
    if host.kind.Dns? {
      DnsHostIsLegal(ipv6, halves.0);
    }
  }

  lemma DnsHostIsLegal(ipv6: Ipv6, part: HostPart)
    ensures CanonicalSiteHost(ipv6, part).Ok? && CanonicalSiteHost(ipv6, part).value.kind.Dns? ==>
      var host := CanonicalSiteHost(ipv6, part).value.text;
      LegalLabels(Split(host, '.')) && Lower(host) == host
  {
    if part.Named? && CanonicalDnsName(part.name).Ok? {
      CanonicalIsFixed(part.name);
    }
    hide CanonicalDnsName, LegalLabels;
  }
}
