/** The origin of a base URL (`_normalized_origin` in web/app.py), which decides how far a stored key may travel. */
module Origins {
  import opened Wrappers
  import opened Urls
  import Text

  /** Where a base URL leads: scheme, lower-case host, and a port that is not the default. */
  datatype Endpoint = Endpoint(scheme: string, host: string, port: Option<nat>)

  /** The port of an address; `Some(None)` when none is given, and `None` when it is no port number. */
  function PortOf(digits: string): Option<Option<nat>> {
    if digits == "" then Some(None)
    else match Number(digits)
      case Some(n) => if n <= 65535 then Some(Some(n)) else None
      case None => None
  }

  function EndpointOf(url: Option<string>): Option<Endpoint> {
    if url.None? then None else EndpointOfText(Text.Strip(url.value))
  }

  function EndpointOfText(url: string): Option<Endpoint> {
    match Split(url)
    case Refused => None
    case Address(scheme, netloc) =>
      var (host, digits) := HostAndPort(netloc);
      if scheme == "" || host == "" then None
      else match PortOf(digits)
        case None => None
        case Some(port) =>
          var usual := (scheme == "https" && port == Some(443)) || (scheme == "http" && port == Some(80));
          Some(Endpoint(scheme, Text.Lower(host), if usual then None else port))
  }

  function Decimal(n: nat): string {
    (if n < 10 then "" else Decimal(n / 10)) + [(n % 10) as char + '0']
  }

  function PortSuffix(port: Option<nat>): string { if port.Some? then ":" + Decimal(port.value) else "" }

  function Printed(e: Endpoint): string { e.scheme + "://" + e.host + PortSuffix(e.port) }

  /** Origins are compared as printed, with the brackets of an IPv6 host gone. */
  function NormalizedOrigin(url: Option<string>): Option<string> {
    match EndpointOf(url)
    case None => None
    case Some(e) => Some(Printed(e))
  }

  // ----- when equal origins mean one endpoint

  lemma {:induction false} DecimalReads(n: nat)
    ensures Number(Decimal(n)) == Some(n) && Decimal(n) != ""
  {
    var d := Decimal(n);
    if n >= 10 {
      DecimalReads(n / 10);
    }
    assert d[..|d| - 1] == if n < 10 then "" else Decimal(n / 10);
  }

  /** A host as it is written without brackets. */
  predicate Plain(e: Endpoint) { ':' !in e.scheme && ':' !in e.host }

  lemma SameStart(a: string, x: string, b: string, y: string)
    requires ':' !in a && ':' !in b && a + [':'] + x == b + [':'] + y
    ensures a == b && x == y
  {
    UpToThere(a, ':', x);
    UpToThere(b, ':', y);
    assert (a + [':'] + x)[|a| + 1..] == x && (b + [':'] + y)[|b| + 1..] == y;
  }

  lemma SuffixReads(a: Option<nat>, b: Option<nat>)
    requires PortSuffix(a) == PortSuffix(b)
    ensures a == b
  {
    if a.Some? && b.Some? {
      DecimalReads(a.value);
      DecimalReads(b.value);
      assert PortSuffix(a)[1..] == Decimal(a.value) && PortSuffix(b)[1..] == Decimal(b.value);
    }
  }

  lemma ColonMeansPort(host: string, port: Option<nat>)
    requires ':' !in host
    ensures ':' in host + PortSuffix(port) <==> port.Some?
  {
    if port.Some? {
      assert (host + PortSuffix(port))[|host|] == ':';
    } else {
      assert host + PortSuffix(port) == host;
    }
  }

  lemma SameHostAndPort(a: string, p: Option<nat>, b: string, q: Option<nat>)
    requires ':' !in a && ':' !in b && a + PortSuffix(p) == b + PortSuffix(q)
    ensures a == b && p == q
  {
    ColonMeansPort(a, p);
    ColonMeansPort(b, q);
    if p.Some? {
      assert a + PortSuffix(p) == a + [':'] + Decimal(p.value);
      assert b + PortSuffix(q) == b + [':'] + Decimal(q.value);
      SameStart(a, Decimal(p.value), b, Decimal(q.value));
      SuffixReads(p, q);
    } else {
      assert a + PortSuffix(p) == a && b + PortSuffix(q) == b;
    }
  }

  lemma PrintedIsInjective(a: Endpoint, b: Endpoint)
    requires Plain(a) && Plain(b) && Printed(a) == Printed(b)
    ensures a == b
  {
    var x, y := "//" + a.host + PortSuffix(a.port), "//" + b.host + PortSuffix(b.port);
    assert Printed(a) == a.scheme + [':'] + x && Printed(b) == b.scheme + [':'] + y;
    SameStart(a.scheme, x, b.scheme, y);
    assert x[2..] == a.host + PortSuffix(a.port) && y[2..] == b.host + PortSuffix(b.port);
    SameHostAndPort(a.host, a.port, b.host, b.port);
  }

  lemma {:induction false} LowerKeepsColons(s: string)
    ensures ':' in Text.Lower(s) <==> ':' in s
  {
    if s != "" {
      LowerKeepsColons(s[1..]);
      assert s == [s[0]] + s[1..];
    }
  }

  lemma SchemeHasNoColon(url: string)
    requires Split(url).Address?
    ensures ':' !in Split(url).scheme
  {
    var u := WithoutBreaks(TrimControls(url));
    var name := UpTo(u, {':'});
    LowerKeepsColons(name);
  }

  /** A URL whose host is not written in brackets with a colon in them. */
  predicate HasPlainHost(url: Option<string>) { EndpointOf(url).Some? ==> ':' !in EndpointOf(url).value.host }

  /** Between URLs without IPv6 hosts, equal origins mean the same scheme, host and port, or no origin at all. */
  lemma OriginsAreEndpoints(a: Option<string>, b: Option<string>)
    requires HasPlainHost(a) && HasPlainHost(b)
    ensures NormalizedOrigin(a) == NormalizedOrigin(b) <==> EndpointOf(a) == EndpointOf(b)
  {
    if EndpointOf(a).Some? && EndpointOf(b).Some? && NormalizedOrigin(a) == NormalizedOrigin(b) {
      SchemeHasNoColon(Text.Strip(a.value));
      SchemeHasNoColon(Text.Strip(b.value));
      PrintedIsInjective(EndpointOf(a).value, EndpointOf(b).value);
    }
  }

  // ----- URLs without an origin

  lemma {:induction false} TrimControlsPart(s: string)
    ensures forall c <- TrimControls(s) :: c in s
  {
    if s != "" {
      TrimControlsPart(s[1..]);
      assert forall c <- s[1..] :: c in s;
    }
  }

  lemma {:induction false} WithoutBreaksPart(s: string)
    ensures forall c <- WithoutBreaks(s) :: c in s
  {
    if s != "" {
      WithoutBreaksPart(s[1..]);
      assert forall c <- s[1..] :: c in s;
    }
  }

  lemma {:induction false} TrimLeftPart(s: string)
    ensures forall c <- Text.TrimLeft(s) :: c in s
  {
    if s != "" {
      TrimLeftPart(s[1..]);
      assert forall c <- s[1..] :: c in s;
    }
  }

  lemma {:induction false} TrimRightPart(s: string)
    ensures forall c <- Text.TrimRight(s) :: c in s
  {
    if s != "" {
      TrimRightPart(s[..|s| - 1]);
      assert forall c <- s[..|s| - 1] :: c in s;
    }
  }

  lemma {:induction false} UpToNever(s: string, c: char)
    requires c !in s
    ensures UpTo(s, {c}) == s
  {
    if s != "" {
      assert c !in s[1..];
      UpToNever(s[1..], c);
      assert [s[0]] + s[1..] == s;
    }
  }

  /** A URL without a colon has no scheme, and so no origin. */
  lemma NoSchemeNoOrigin(url: string)
    requires ':' !in url
    ensures NormalizedOrigin(Some(url)) == None
  {
    var stripped := Text.Strip(url);
    TrimLeftPart(url);
    TrimRightPart(Text.TrimLeft(url));
    TrimControlsPart(stripped);
    WithoutBreaksPart(TrimControls(stripped));
    UpToNever(WithoutBreaks(TrimControls(stripped)), ':');
  }

  // ----- when they do not

  /** Hexadecimal digits, colons: what an IPv6 host is made of. */
  predicate HostText(s: string) { forall i :: 0 <= i < |s| ==> HexDigit(s[i]) || s[i] == ':' }

  lemma AfterThere(s: string, c: char, rest: string)
    requires c !in s
    ensures After(s + [c] + rest, c) == rest && UpTo(s + [c] + rest, {c}) == s
  {
    UpToThere(s, c, rest);
    assert (s + [c] + rest)[|s| + 1..] == rest;
  }

  /** A network location that is a host in brackets and what follows it. */
  predicate Bracketed(netloc: string, host: string, tail: string) {
    && (forall i :: 0 <= i < |netloc| ==> HexDigit(netloc[i]) || netloc[i] in {':', '[', ']'})
    && '[' in netloc && ']' in netloc
    && UpTo(After(netloc, '['), {']'}) == host && After(After(netloc, '['), ']') == tail
  }

  lemma InBrackets(host: string, tail: string)
    requires HostText(host) && HostText(tail)
    ensures Bracketed("[" + (host + "]" + tail), host, tail)
  {
    var rest := host + [']'] + tail;
    var netloc := "" + ['['] + rest;
    AfterThere("", '[', rest);
    AfterThere(host, ']', tail);
    assert netloc == "[" + (host + "]" + tail);
    assert netloc[0] == '[' && netloc[|host| + 1] == ']';
  }

  lemma BracketedIsFree(netloc: string, host: string, tail: string)
    requires Bracketed(netloc, host, tail)
    ensures Free(netloc, {'/', '?', '#'}) && forall i :: 0 <= i < |netloc| ==> !Folds(netloc[i])
  {
    forall i | 0 <= i < |netloc| ensures ' ' < netloc[i] < '\U{0080}' && netloc[i] !in {'/', '?', '#'} {
      assert HexDigit(netloc[i]) || netloc[i] in {':', '[', ']'};
    }
  }

  lemma BracketedIsAccepted(netloc: string, host: string, tail: string)
    requires Bracketed(netloc, host, tail) && BracketedHost(host)
    ensures NetlocAccepted(netloc)
  {
    BracketedIsFree(netloc, host, tail);
    assert BracketsMatch(netloc);
  }

  lemma HostOfBrackets(netloc: string, host: string, tail: string)
    requires Bracketed(netloc, host, tail)
    ensures HostAndPort(netloc) == (host, After(tail, ':'))
  {
    assert '@' !in netloc;
  }

  lemma HttpEndpoint(netloc: string, host: string, digits: string, port: Option<nat>)
    requires NetlocAccepted(netloc) && Free(netloc, {'/', '?', '#'}) && HostAndPort(netloc) == (host, digits)
    requires host != "" && PortOf(digits) == Some(port) && port != Some(80)
    ensures EndpointOfText("http://" + netloc) == Some(Endpoint("http", Text.Lower(host), port))
  {
    HttpSplits(netloc);
  }

  lemma HttpIsStripped(netloc: string)
    requires netloc != "" && !Text.IsSpace(netloc[|netloc| - 1])
    ensures Text.Strip("http://" + netloc) == "http://" + netloc
  {
    var url := "http://" + netloc;
    assert url[0] == 'h' && url[|url| - 1] == netloc[|netloc| - 1];
    Text.StrippedStays(url);
  }

  lemma BracketedIsSolid(netloc: string, host: string, tail: string)
    requires Bracketed(netloc, host, tail)
    ensures netloc != "" && !Text.IsSpace(netloc[|netloc| - 1])
  {
    var c := netloc[|netloc| - 1];
    assert HexDigit(c) || c in {':', '[', ']'};
  }

  lemma StrippedEndpoint(url: string)
    requires Text.Strip(url) == url
    ensures EndpointOf(Some(url)) == EndpointOfText(url)
  {
  }

  lemma BracketedEndpoint(netloc: string, host: string, tail: string, port: Option<nat>)
    requires Bracketed(netloc, host, tail) && BracketedHost(host) && host != ""
    requires PortOf(After(tail, ':')) == Some(port) && port != Some(80)
    ensures EndpointOf(Some("http://" + netloc)) == Some(Endpoint("http", Text.Lower(host), port))
  {
    BracketedIsFree(netloc, host, tail);
    BracketedIsAccepted(netloc, host, tail);
    HostOfBrackets(netloc, host, tail);
    HttpEndpoint(netloc, host, After(tail, ':'), port);
    BracketedIsSolid(netloc, host, tail);
    HttpIsStripped(netloc);
    StrippedEndpoint("http://" + netloc);
  }

  lemma {:induction false} LowerJoined(a: string, b: string)
    ensures Text.Lower(a + b) == Text.Lower(a) + Text.Lower(b)
  {
    if a == "" {
      assert a + b == b;
    } else {
      assert (a + b)[1..] == a[1..] + b;
      LowerJoined(a[1..], b);
    }
  }

  lemma {:induction false} LowerDecimal(n: nat)
    ensures Text.Lower(Decimal(n)) == Decimal(n) && HostText(Decimal(n))
  {
    if n >= 10 {
      LowerDecimal(n / 10);
      LowerJoined(Decimal(n / 10), [(n % 10) as char + '0']);
    }
  }


  lemma PrintedWithPort(host: string, port: nat)
    ensures Printed(Endpoint("http", Text.Lower(host), Some(port))) ==
      Printed(Endpoint("http", Text.Lower(host + (":" + Decimal(port))), None))
  {
    var suffix := ":" + Decimal(port);
    LowerDecimal(port);
    LowerJoined(":", Decimal(port));
    LowerJoined(host, suffix);
  }

  lemma AfterColon(digits: string)
    ensures After(":" + digits, ':') == digits && After("", ':') == ""
  {
    AfterThere("", ':', digits);
    assert "" + [':'] + digits == ":" + digits;
  }

  lemma PortReads(port: nat)
    requires port <= 65535
    ensures PortOf(Decimal(port)) == Some(Some(port))
  {
    DecimalReads(port);
  }

  /**
   The brackets of an IPv6 host are gone in the origin, so a port after them and a last group of the same
   digits within them cannot be told apart: two endpoints, one origin.
   */
  lemma BracketedOriginsCollide(a: string, b: string, host: string, port: nat)
    requires BracketedHost(host) && BracketedHost(host + (":" + Decimal(port))) && host != ""
    requires port <= 65535 && port != 80
    requires Bracketed(a, host, ":" + Decimal(port)) && Bracketed(b, host + (":" + Decimal(port)), "")
    ensures NormalizedOrigin(Some("http://" + a)) == NormalizedOrigin(Some("http://" + b))
    ensures EndpointOf(Some("http://" + a)) != EndpointOf(Some("http://" + b))
  {
    AfterColon(Decimal(port));
    PortReads(port);
    BracketedEndpoint(a, host, ":" + Decimal(port), Some(port));
    BracketedEndpoint(b, host + (":" + Decimal(port)), "", None);
    PrintedWithPort(host, port);
  }

  // ----- such hosts exist

  lemma PartsOfJoined(first: string, rest: string)
    requires ':' !in first
    ensures Parts(first + [':'] + rest, ':') == [first] + Parts(rest, ':')
  {
    UpToThere(first, ':', rest);
    assert (first + [':'] + rest)[|first| + 1..] == rest;
  }

  lemma HextetIsOnePart(group: string)
    requires Hextet(group)
    ensures Parts(group, ':') == [group] && ':' !in group && HostText(group)
  {
    forall i | 0 <= i < |group| ensures HexDigit(group[i]) {
      assert group[i] in group;
    }
    UpToAll(group, {':'});
  }

  lemma PartsOfLeading(rest: string)
    ensures Parts([':'] + rest, ':') == [""] + Parts(rest, ':')
  {
    assert ([':'] + rest)[1..] == rest;
  }

  lemma PartsAfterGap(rest: string)
    ensures Parts("::" + rest, ':') == ["", ""] + Parts(rest, ':')
  {
    PartsOfLeading(rest);
    PartsOfLeading([':'] + rest);
    assert [':'] + ([':'] + rest) == "::" + rest;
  }

  lemma PartsOfTwo(first: string, second: string)
    requires ':' !in first && Parts(second, ':') == [second]
    ensures Parts(first + (":" + second), ':') == [first, second]
  {
    PartsOfJoined(first, second);
    assert first + [':'] + second == first + (":" + second);
  }

  lemma GroupsOfGap(groups: seq<string>)
    requires 3 <= |groups| <= 4 && groups[0] == "" && groups[1] == ""
    requires forall i | 2 <= i < |groups| :: Hextet(groups[i])
    ensures Groups(groups)
  {
    assert (set i | 0 < i < |groups| - 1 && groups[i] == "") == {1};
    assert GroupsAround(groups, 1);
  }

  lemma GroupsMakeIpv6(s: string, groups: seq<string>)
    requires Free(s, {'%'}) && Parts(s, ':') == groups && |groups| >= 3 && Groups(groups)
    requires '.' !in groups[|groups| - 1]
    ensures IsIpv6(s)
  {
    UpToAll(s, {'%'});
  }

  lemma Ipv6IsHost(s: string)
    requires IsIpv6(s) && s != "" && s[0] != 'v'
    ensures BracketedHost(s)
  {
    assert !Text.StartsWith(s, "v") by {
      assert s[..1][0] == s[0];
    }
  }

  lemma GroupsMakeHost(s: string, groups: seq<string>)
    requires HostText(s) && s != "" && Parts(s, ':') == groups && |groups| >= 3 && Groups(groups)
    requires HostText(groups[|groups| - 1])
    ensures BracketedHost(s)
  {
    GroupsMakeIpv6(s, groups);
    Ipv6IsHost(s);
  }

  lemma GapHosts(first: string, second: string)
    requires Hextet(first) && Hextet(second)
    ensures BracketedHost("::" + first) && BracketedHost("::" + (first + (":" + second)))
  {
    HextetIsOnePart(first);
    HextetIsOnePart(second);
    PartsAfterGap(first);
    PartsOfTwo(first, second);
    PartsAfterGap(first + (":" + second));
    GroupsOfGap(["", "", first]);
    GroupsOfGap(["", "", first, second]);
    GroupsMakeHost("::" + first, ["", "", first]);
    GroupsMakeHost("::" + (first + (":" + second)), ["", "", first, second]);
  }

  lemma IsHostText(first: string, port: nat, host: string, tail: string)
    requires Hextet(first) && Hextet(Decimal(port)) && host == "::" + first && tail == ":" + Decimal(port)
    ensures HostText(host) && HostText(tail) && BracketedHost(host) && BracketedHost(host + tail)
  {
    HextetIsOnePart(first);
    LowerDecimal(port);
    GapHosts(first, Decimal(port));
    assert host + tail == "::" + (first + (":" + Decimal(port)));
  }

  /** As in `http://[::1]:1234` and `http://[::1:1234]`. */
  lemma Ipv6OriginsCollide(first: string, port: nat, host: string, tail: string, a: string, b: string)
    requires Hextet(first) && Hextet(Decimal(port)) && port != 80 && port <= 65535
    requires host == "::" + first && tail == ":" + Decimal(port)
    requires a == "[" + (host + "]" + tail) && b == "[" + (host + tail + "]" + "")
    ensures NormalizedOrigin(Some("http://" + a)) == NormalizedOrigin(Some("http://" + b))
    ensures EndpointOf(Some("http://" + a)) != EndpointOf(Some("http://" + b))
  {
    IsHostText(first, port, host, tail);
    InBrackets(host, tail);
    InBrackets(host + tail, "");
    BracketedOriginsCollide(a, b, host, port);
  }
}
