/** Addresses as `urllib.parse.urlsplit` takes them apart, with the cases in which it raises `ValueError`. */
module Urls {
  import opened Wrappers
  import opened Text

  datatype Address = Address(scheme: string, netloc: string) | Refused

  // ----- pieces of text

  /** The text up to the first character that ends it. */
  function UpTo(s: string, ends: set<char>): (r: string)
    ensures |r| <= |s| && r == s[..|r|] && forall i :: 0 <= i < |r| ==> s[i] !in ends
    ensures |r| < |s| ==> s[|r|] in ends
  {
    if s == "" || s[0] in ends then "" else [s[0]] + UpTo(s[1..], ends)
  }

  /** The text after the first `c`; all of it is dropped when there is none. */
  function After(s: string, c: char): (r: string)
    ensures |r| <= |s|
  {
    var n := |UpTo(s, {c})|;
    if n < |s| then s[n + 1..] else ""
  }

  /** `s.split(c)`. */
  function Parts(s: string, c: char): (parts: seq<string>)
    ensures parts != []
    decreases |s|
  {
    var first := UpTo(s, {c});
    if |first| == |s| then [s] else [first] + Parts(s[|first| + 1..], c)
  }

  predicate HexDigit(c: char) { IsDigit(c) || 'a' <= c <= 'f' || 'A' <= c <= 'F' }

  function Number(digits: string): Option<nat> {
    if digits == "" then Some(0)
    else
      var c := digits[|digits| - 1];
      match Number(digits[..|digits| - 1])
      case Some(n) => if IsDigit(c) then Some(n * 10 + (c - '0') as nat) else None
      case None => None
  }

  // ----- hosts in brackets

  /** A decimal octet without leading zeros. */
  predicate Octet(s: string) {
    && 1 <= |s| <= 3 && (s == "0" || s[0] != '0')
    && Number(s).Some? && Number(s).value <= 255
  }

  predicate IsIpv4(s: string) { |Parts(s, '.')| == 4 && forall part <- Parts(s, '.') :: Octet(part) }

  predicate Hextet(s: string) { 1 <= |s| <= 4 && forall c <- s :: HexDigit(c) }

  /** The groups around the one gap `::` at position `k`; an end may be empty only beside it. */
  predicate GroupsAround(groups: seq<string>, k: nat)
    requires 0 < k < |groups| - 1
  {
    var n := |groups| - 1;
    && (groups[0] == "" ==> k == 1) && (groups[n] == "" ==> k == n - 1)
    && n - (if groups[0] == "" then 1 else 0) - (if groups[n] == "" then 1 else 0) <= 7
    && forall i :: 0 <= i <= n && i != k ==> Hextet(groups[i]) || (groups[i] == "" && (i == 0 || i == n))
  }

  predicate Groups(groups: seq<string>) {
    var gaps := set i | 0 < i < |groups| - 1 && groups[i] == "";
    && |groups| <= 9
    && if gaps == {} then |groups| == 8 && forall group <- groups :: Hextet(group)
       else |gaps| == 1 && forall k <- gaps :: GroupsAround(groups, k)
  }

  /** `ipaddress.IPv6Address`: eight groups or fewer around one gap, the last two as IPv4 if need be, and a zone. */
  predicate IsIpv6(s: string) {
    var address := UpTo(s, {'%'});
    var groups := Parts(address, ':');
    var last := groups[|groups| - 1];
    && (|address| < |s| ==> After(s, '%') != "" && '%' !in After(s, '%'))
    && |groups| >= 3
    && if '.' in last then IsIpv4(last) && Groups(groups[..|groups| - 1] + ["0", "0"]) else Groups(groups)
  }

  /** `v`, hexadecimal digits, a dot, and anything. */
  predicate IsIpvFuture(s: string) {
    s != "" && s[0] == 'v'
    && var version := UpTo(s[1..], {'.'});
      version != "" && |s| > |version| + 2 && forall c <- version :: HexDigit(c)
  }

  predicate BracketedHost(host: string) {
    if StartsWith(host, "v") then IsIpvFuture(host) else IsIpv6(host)
  }

  // ----- the network location

  /** Brackets come in pairs, around an IP literal. */
  predicate BracketsMatch(netloc: string) {
    && ('[' in netloc <==> ']' in netloc)
    && ('[' in netloc ==> BracketedHost(UpTo(After(netloc, '['), {']'})))
  }

  /** The characters outside ASCII whose compatibility form (NFKC) holds one of `/?#@:`. */
  predicate Folds(c: char)
    ensures Folds(c) ==> c > '\U{007F}'
  {
    c in {
      '\U{2047}', '\U{2048}', '\U{2049}', '\U{2100}', '\U{2101}', '\U{2105}', '\U{2106}', '\U{2A74}', '\U{FE13}',
      '\U{FE16}', '\U{FE55}', '\U{FE56}', '\U{FE5F}', '\U{FE6B}', '\U{FF03}', '\U{FF0F}', '\U{FF1A}', '\U{FF1F}',
      '\U{FF20}'}
  }

  predicate NetlocAccepted(netloc: string) {
    BracketsMatch(netloc) && forall i :: 0 <= i < |netloc| ==> !Folds(netloc[i])
  }

  // ----- splitting

  function TrimControls(s: string): string {
    if s != "" && s[0] <= ' ' then TrimControls(s[1..]) else s
  }

  function WithoutBreaks(s: string): string {
    if s == "" then "" else (if s[0] in {'\t', '\n', '\r'} then "" else [s[0]]) + WithoutBreaks(s[1..])
  }

  predicate SchemeChar(c: char) {
    'a' <= c <= 'z' || 'A' <= c <= 'Z' || IsDigit(c) || c == '+' || c == '-' || c == '.'
  }

  predicate IsScheme(s: string) {
    s != "" && ('a' <= s[0] <= 'z' || 'A' <= s[0] <= 'Z') && forall i :: 0 <= i < |s| ==> SchemeChar(s[i])
  }

  /** What `//` introduces, up to the path, query or fragment. */
  function NetlocOf(rest: string): string {
    if StartsWith(rest, "//") then UpTo(rest[2..], {'/', '?', '#'}) else ""
  }

  /** Scheme and network location, of an address without leading blanks and without line breaks. */
  function SplitClean(u: string): (string, string) {
    var name := UpTo(u, {':'});
    if |name| < |u| && IsScheme(name) then (Lower(name), NetlocOf(u[|name| + 1..])) else ("", NetlocOf(u))
  }

  function Split(url: string): Address {
    var (scheme, netloc) := SplitClean(WithoutBreaks(TrimControls(url)));
    if NetlocAccepted(netloc) then Address(scheme, netloc) else Refused
  }

  // ----- host and port

  /** The text after the last `@`. */
  function AfterUserInfo(s: string): string
    decreases |s|
  {
    if '@' !in s then s
    else
      var user := UpTo(s, {'@'});
      assert |user| < |s|;
      AfterUserInfo(s[|user| + 1..])
  }

  /** The host, without its brackets, and the digits of the port. */
  function HostAndPort(netloc: string): (string, string) {
    var info := AfterUserInfo(netloc);
    if '[' in info then
      var host := After(info, '[');
      (UpTo(host, {']'}), After(After(host, ']'), ':'))
    else (UpTo(info, {':'}), After(info, ':'))
  }

  // ----- addresses that raise

  /** No character of `s` is one of `ends`, a blank or a control. */
  predicate Free(s: string, ends: set<char>) { forall i :: 0 <= i < |s| ==> s[i] > ' ' && s[i] !in ends }

  lemma {:induction false} UpToAll(s: string, ends: set<char>)
    requires Free(s, ends)
    ensures UpTo(s, ends) == s
  {
    if s != "" {
      UpToAll(s[1..], ends);
      assert [s[0]] + s[1..] == s;
    }
  }

  lemma {:induction false} NothingToDrop(s: string)
    requires Free(s, {})
    ensures WithoutBreaks(s) == s && TrimControls(s) == s
  {
    if s != "" {
      NothingToDrop(s[1..]);
      assert [s[0]] + s[1..] == s;
    }
  }

  lemma {:induction false} UpToThere(s: string, c: char, rest: string)
    requires c !in s
    ensures UpTo(s + [c] + rest, {c}) == s
  {
    var u := s + [c] + rest;
    if s != "" {
      assert u[0] == s[0] && u[1..] == s[1..] + [c] + rest;
      UpToThere(s[1..], c, rest);
      assert [s[0]] + s[1..] == s;
    }
  }

  lemma SchemePrefix(scheme: string, rest: string)
    requires IsScheme(scheme) && Lower(scheme) == scheme
    ensures SplitClean(scheme + [':'] + rest) == (scheme, NetlocOf(rest))
  {
    var u := scheme + [':'] + rest;
    UpToThere(scheme, ':', rest);
    assert u[|scheme| + 1..] == rest;
  }

  lemma HttpIsScheme()
    ensures IsScheme("http") && Lower("http") == "http"
  {
  }

  /** What an address of plain characters that starts with `http://` splits into. */
  lemma HttpSplits(netloc: string)
    requires Free(netloc, {'/', '?', '#'})
    ensures Split("http://" + netloc) == if NetlocAccepted(netloc) then Address("http", netloc) else Refused
  {
    var url := "http://" + netloc;
    NothingToDrop(url);
    assert url == "http" + [':'] + ("//" + netloc);
    HttpIsScheme();
    SchemePrefix("http", "//" + netloc);
    assert ("//" + netloc)[2..] == netloc;
    UpToAll(netloc, {'/', '?', '#'});
  }

  /** With one kind of bracket alone in its host part an address raises, whatever else is in there. */
  lemma LoneBracketRaises(netloc: string)
    requires Free(netloc, {'/', '?', '#'}) && ('[' in netloc <==> ']' !in netloc)
    ensures Split("http://" + netloc) == Refused
  {
    HttpSplits(netloc);
  }
}
