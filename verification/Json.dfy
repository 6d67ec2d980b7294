/**
 The JSON scalars of the report frontmatter: `json.dumps(value, ensure_ascii=False)` for strings
 and string arrays, and the `json.loads` that reads them back.
 */
module Json {
  import opened Wrappers
  import opened Text

  /**
   A number, literal or object is `Other`. A lone surrogate in a string is replaced, and `whole` is then
   false: no file holds such a text and no database takes it.
   */
  datatype Value = Str(s: string, whole: bool) | List(items: seq<Value>) | Other

  /** How reading ends: with a value and what follows it, with `JSONDecodeError`, or with another exception. */
  datatype Read<+T> = Ok(value: T, rest: string) | NotJson | Fails

  /** The interpreter refuses to convert longer integers. */
  const MAX_DIGITS := 4300

  const REPLACEMENT: char := '\U{FFFD}'

  const QUOTE: char := '"'
  const ESCAPE: char := '\\'

  function HexDigit(n: nat): char
    requires n < 16
  {
    if n < 10 then '0' + n as char else 'a' + (n - 10) as char
  }

  function HexValue(c: char): (r: Option<nat>)
    ensures r.Some? ==> r.value < 16
  {
    if IsDigit(c) then Some((c - '0') as nat)
    else if 'a' <= c <= 'f' then Some((c - 'a') as nat + 10)
    else if 'A' <= c <= 'F' then Some((c - 'A') as nat + 10)
    else None
  }

  /** The four digits of a control character. */
  function Hex(c: char): (digits: string)
    requires c < ' '
    ensures |digits| == 4 && Code(digits) == Some(c as nat)
  {
    "00" + [HexDigit((c as nat) / 16), HexDigit((c as nat) % 16)]
  }

  function EscapeChar(c: char): string {
    if c == QUOTE then "\\\""
    else if c == ESCAPE then "\\\\"
    else if c == '\n' then "\\n"
    else if c == '\r' then "\\r"
    else if c == '\t' then "\\t"
    else if c == '\U{0008}' then "\\b"
    else if c == '\U{000C}' then "\\f"
    else if c < ' ' then "\\u" + Hex(c)
    else [c]
  }

  function Escaped(s: string): string {
    if s == "" then "" else EscapeChar(s[0]) + Escaped(s[1..])
  }

  function DumpString(s: string): string { [QUOTE] + Escaped(s) + [QUOTE] }

  function DumpItems(items: seq<string>): string {
    if items == [] then ""
    else if |items| == 1 then DumpString(items[0])
    else DumpString(items[0]) + ", " + DumpItems(items[1..])
  }

  function DumpStrings(items: seq<string>): string { "[" + DumpItems(items) + "]" }

  // ----- reading

  predicate JsonSpace(c: char) { c in {' ', '\t', '\n', '\r'} }

  function SkipSpace(t: string): (r: string)
    ensures |r| <= |t|
  {
    if t != "" && JsonSpace(t[0]) then SkipSpace(t[1..]) else t
  }

  function SimpleEscape(c: char): Option<char> {
    if c == QUOTE then Some(QUOTE)
    else if c == ESCAPE then Some(ESCAPE)
    else if c == '/' then Some('/')
    else if c == 'n' then Some('\n')
    else if c == 'r' then Some('\r')
    else if c == 't' then Some('\t')
    else if c == 'b' then Some('\U{0008}')
    else if c == 'f' then Some('\U{000C}')
    else None
  }

  function Code(t: string): (r: Option<nat>)
    requires |t| >= 4
    ensures r.Some? ==> r.value < 0x1_0000
  {
    match (HexValue(t[0]), HexValue(t[1]), HexValue(t[2]), HexValue(t[3]))
    case (Some(a), Some(b), Some(c), Some(d)) => Some(((a * 16 + b) * 16 + c) * 16 + d)
    case _ => None
  }

  predicate High(n: nat) { 0xD800 <= n < 0xDC00 }

  predicate Low(n: nat) { 0xDC00 <= n < 0xE000 }

  function Joined(high: nat, low: nat): char
    requires High(high) && Low(low)
  {
    (0x1_0000 + (high - 0xD800) * 0x400 + (low - 0xDC00)) as char
  }

  /** The low surrogate that an escape at the start of `t` stands for. */
  function LowEscape(t: string): (r: Option<nat>)
    ensures r.Some? ==> |t| >= 6 && Low(r.value)
  {
    if |t| >= 6 && t[0] == ESCAPE && t[1] == 'u' && Code(t[2..]).Some? && Low(Code(t[2..]).value) then Code(t[2..])
    else None
  }

  datatype Literal = Literal(s: string, whole: bool, rest: string)

  /** The rest of a string literal after its opening quote: its value and what follows it. */
  function ScanString(t: string): (r: Option<Literal>)
    ensures r.Some? ==> |r.value.rest| < |t|
  {
    if t == "" || t[0] < ' ' then None
    else if t[0] == QUOTE then Some(Literal("", true, t[1..]))
    else if t[0] != ESCAPE then Prepend(t[0], true, ScanString(t[1..]))
    else if |t| >= 6 && t[1] == 'u' then
      match Code(t[2..])
      case None => None
      case Some(n) =>
        if High(n) && LowEscape(t[6..]).Some? then
          Prepend(Joined(n, LowEscape(t[6..]).value), true, ScanString(t[12..]))
        else if High(n) || Low(n) then Prepend(REPLACEMENT, false, ScanString(t[6..]))
        else Prepend(n as char, true, ScanString(t[6..]))
    else if |t| >= 2 then
      match SimpleEscape(t[1])
      case Some(c) => Prepend(c, true, ScanString(t[2..]))
      case None => None
    else None
  }

  function Prepend(c: char, whole: bool, r: Option<Literal>): Option<Literal> {
    match r
    case Some(Literal(s, whole', rest)) => Some(Literal([c] + s, whole && whole', rest))
    case None => None
  }

  /** The number of digits that `t` begins with. */
  function DigitRun(t: string): (n: nat)
    ensures n <= |t| && forall i :: 0 <= i < n ==> IsDigit(t[i])
  {
    if t != "" && IsDigit(t[0]) then 1 + DigitRun(t[1..]) else 0
  }

  function FractionLength(t: string): (n: nat)
    ensures n <= |t|
  {
    if |t| >= 2 && t[0] == '.' && IsDigit(t[1]) then 1 + DigitRun(t[1..]) else 0
  }

  function ExponentLength(t: string): (n: nat)
    ensures n <= |t|
  {
    if t != "" && t[0] in {'e', 'E'} then
      var sign := if |t| >= 2 && t[1] in {'+', '-'} then 2 else 1;
      var digits := DigitRun(t[sign..]);
      if digits == 0 then 0 else sign + digits
    else 0
  }

  /** A number without its sign. An integer is converted, and one that is too long is refused there. */
  function ScanNumber(t: string): (r: Read<Value>)
    ensures r.Ok? ==> |r.rest| < |t|
  {
    if t == "" || !IsDigit(t[0]) then NotJson
    else
      var whole := if t[0] == '0' then 1 else DigitRun(t);
      var fraction := FractionLength(t[whole..]);
      var exponent := ExponentLength(t[whole + fraction..]);
      if fraction == 0 && exponent == 0 && whole > MAX_DIGITS then Fails
      else Ok(Other, t[whole + fraction + exponent..])
  }

  const LITERALS: seq<string> := ["null", "true", "false", "NaN", "Infinity", "-Infinity"]

  function ScanLiteral(t: string, k: nat): (r: Read<Value>)
    requires k <= |LITERALS|
    ensures r.Ok? ==> |r.rest| < |t|
    decreases |LITERALS| - k
  {
    if k == |LITERALS| then ScanNumber(if t != "" && t[0] == '-' then t[1..] else t)
    else if StartsWith(t, LITERALS[k]) then Ok(Other, t[|LITERALS[k]|..])
    else ScanLiteral(t, k + 1)
  }

  /** One value. The interpreter gives up on the bracket that nests deeper than `nesting`. */
  function ScanValue(t: string, nesting: nat): (r: Read<Value>)
    ensures r.Ok? ==> |r.rest| < |t|
    decreases |t|, 0
  {
    if t == "" then NotJson
    else if t[0] == QUOTE then
      match ScanString(t[1..])
      case Some(Literal(s, whole, rest)) => Ok(Str(s, whole), rest)
      case None => NotJson
    else if t[0] == '[' then if nesting == 0 then Fails else ScanList(t[1..], nesting - 1)
    else if t[0] == '{' then if nesting == 0 then Fails else ScanObject(t[1..], nesting - 1)
    else ScanLiteral(t, 0)
  }

  /** An array after its opening bracket. */
  function ScanList(t: string, nesting: nat): (r: Read<Value>)
    ensures r.Ok? ==> |r.rest| < |t|
    decreases |t|, 2
  {
    var u := SkipSpace(t);
    if u != "" && u[0] == ']' then Ok(List([]), u[1..])
    else match ScanItems(u, nesting)
      case Ok(items, rest) => Ok(List(items), rest)
      case NotJson => NotJson
      case Fails => Fails
  }

  /** The items of an array, up to and including the closing bracket. */
  function ScanItems(t: string, nesting: nat): (r: Read<seq<Value>>)
    ensures r.Ok? ==> |r.rest| < |t|
    decreases |t|, 1
  {
    match ScanValue(SkipSpace(t), nesting)
    case Ok(item, rest) =>
      var v := SkipSpace(rest);
      if v == "" then NotJson
      else if v[0] == ']' then Ok([item], v[1..])
      else if v[0] == ',' then
        match ScanItems(v[1..], nesting)
        case Ok(items, end) => Ok([item] + items, end)
        case NotJson => NotJson
        case Fails => Fails
      else NotJson
    case NotJson => NotJson
    case Fails => Fails
  }

  /** An object after its opening brace. */
  function ScanObject(t: string, nesting: nat): (r: Read<Value>)
    ensures r.Ok? ==> |r.rest| < |t|
    decreases |t|, 2
  {
    var u := SkipSpace(t);
    if u != "" && u[0] == '}' then Ok(Other, u[1..]) else ScanMembers(u, nesting)
  }

  /** The text after a member's name and colon. */
  function AfterName(t: string): (r: Option<string>)
    ensures r.Some? ==> |r.value| < |t|
  {
    if t == "" || t[0] != QUOTE then None
    else match ScanString(t[1..])
      case None => None
      case Some(name) =>
        var u := SkipSpace(name.rest);
        if u != "" && u[0] == ':' then Some(SkipSpace(u[1..])) else None
  }

  /** The members of an object, up to and including the closing brace. */
  function ScanMembers(t: string, nesting: nat): (r: Read<Value>)
    ensures r.Ok? ==> |r.rest| < |t|
    decreases |t|, 1
  {
    match AfterName(SkipSpace(t))
    case None => NotJson
    case Some(u) =>
      match ScanValue(u, nesting)
      case Ok(_, rest) =>
        var v := SkipSpace(rest);
        if v == "" then NotJson
        else if v[0] == '}' then Ok(Other, v[1..])
        else if v[0] == ',' then ScanMembers(v[1..], nesting)
        else NotJson
      case NotJson => NotJson
      case Fails => Fails
  }

  /** `json.loads`, with nothing but blanks around the value. */
  function Loads(raw: string, nesting: nat): Read<Value> {
    match ScanValue(SkipSpace(raw), nesting)
    case Ok(value, rest) => if SkipSpace(rest) == "" then Ok(value, "") else NotJson
    case NotJson => NotJson
    case Fails => Fails
  }

  // ----- round trips

  lemma HexPrefix(hex: string, rest: string)
    requires |hex| == 4
    ensures Code(hex + rest) == Code(hex)
  {
  }

  lemma ScanUnicode(t: string, c: char)
    requires |t| >= 6 && t[0] == ESCAPE && t[1] == 'u' && Code(t[2..]) == Some(c as nat) && c < ' '
    ensures ScanString(t) == Prepend(c, true, ScanString(t[6..]))
  {
  }

  lemma ScanControl(c: char, rest: string)
    requires |EscapeChar(c)| == 6
    ensures ScanString(EscapeChar(c) + rest) == Prepend(c, true, ScanString(rest))
  {
    var t := EscapeChar(c) + rest;
    assert t[2..] == Hex(c) + rest && t[6..] == rest;
    HexPrefix(Hex(c), rest);
    ScanUnicode(t, c);
  }

  lemma ScanPair(c: char, rest: string)
    requires |EscapeChar(c)| == 2
    ensures ScanString(EscapeChar(c) + rest) == Prepend(c, true, ScanString(rest))
  {
    var e := EscapeChar(c);
    var t := e + rest;
    assert e[0] == ESCAPE && e[1] != 'u' && SimpleEscape(e[1]) == Some(c);
    assert t[0] == ESCAPE && t[1] == e[1] && t[2..] == rest;
  }

  lemma ScanPlain(c: char, rest: string)
    requires |EscapeChar(c)| == 1
    ensures ScanString(EscapeChar(c) + rest) == Prepend(c, true, ScanString(rest))
  {
    var t := EscapeChar(c) + rest;
    assert t[0] == c && t[1..] == rest;
  }

  lemma {:induction false} ScanEscaped(s: string, rest: string)
    ensures ScanString(Escaped(s) + [QUOTE] + rest) == Some(Literal(s, true, rest))
  {
    var t := Escaped(s) + [QUOTE] + rest;
    if s == "" {
      assert t[0] == QUOTE && t[1..] == rest;
    } else {
      var c, tail := s[0], Escaped(s[1..]) + [QUOTE] + rest;
      assert t == EscapeChar(c) + tail;
      ScanEscaped(s[1..], rest);
      assert [c] + s[1..] == s;
      if |EscapeChar(c)| == 1 {
        ScanPlain(c, tail);
      } else if |EscapeChar(c)| == 2 {
        ScanPair(c, tail);
      } else {
        ScanControl(c, tail);
      }
    }
  }

  lemma Unquoted(e: string, after: string)
    ensures ([QUOTE] + e + [QUOTE] + after)[0] == QUOTE
    ensures ([QUOTE] + e + [QUOTE] + after)[1..] == e + [QUOTE] + after
  {
  }

  /** A printed string reads as that string, whatever follows it and however deep it is nested. */
  lemma ScanDumped(item: string, after: string, nesting: nat)
    ensures DumpString(item) + after != "" && SkipSpace(DumpString(item) + after) == DumpString(item) + after
    ensures ScanValue(DumpString(item) + after, nesting) == Ok(Str(item, true), after)
  {
    ScanEscaped(item, after);
    Unquoted(Escaped(item), after);
  }

  lemma LoadsDumpedString(s: string, nesting: nat)
    ensures Loads(DumpString(s), nesting) == Ok(Str(s, true), "")
  {
    ScanDumped(s, "", nesting);
    assert DumpString(s) + "" == DumpString(s);
  }

  /** One item of an array, up to the separator after it. */
  lemma ScanItem(t: string, item: Value, after: string, nesting: nat)
    requires SkipSpace(t) == t && ScanValue(t, nesting) == Ok(item, after)
    requires after != "" && !JsonSpace(after[0])
    ensures after[0] == ']' ==> ScanItems(t, nesting) == Ok([item], after[1..])
    ensures after[0] == ',' && ScanItems(after[1..], nesting).Ok? ==>
      var more := ScanItems(after[1..], nesting);
      ScanItems(t, nesting) == Ok([item] + more.value, more.rest)
  {
    assert SkipSpace(after) == after;
  }

  lemma ScanAfterSpace(t: string, nesting: nat)
    ensures ScanItems(" " + t, nesting) == ScanItems(t, nesting)
  {
    assert (" " + t)[1..] == t;
    assert SkipSpace(" " + t) == SkipSpace(t);
  }

  function Strings(items: seq<string>): (values: seq<Value>)
    ensures |values| == |items|
  {
    seq(|items|, i requires 0 <= i < |items| => Str(items[i], true))
  }

  /** The array text `t`, after its opening bracket, reads as exactly `items`. */
  ghost predicate ScansAs(t: string, items: seq<string>, nesting: nat) {
    ScanItems(t, nesting) == Ok(Strings(items), "")
  }

  lemma Regroup(a: string, b: string, c: string, d: string)
    ensures a + b + c + d == a + (b + (c + d))
  {
  }

  lemma {:induction false} ScanDumpedItems(items: seq<string>, t: string, nesting: nat)
    requires items != [] && t == DumpItems(items) + "]"
    ensures ScansAs(t, items, nesting)
    decreases |items|
  {
    if |items| == 1 {
      ScanDumpedLast(items[0], nesting);
      assert items == [items[0]];
    } else {
      var tail := DumpItems(items[1..]) + "]";
      Regroup(DumpString(items[0]), ", ", DumpItems(items[1..]), "]");
      assert [items[0]] + items[1..] == items;
      ScanDumpedItems(items[1..], tail, nesting);
      ScanDumpedMore(items[0], items[1..], tail, nesting);
    }
  }

  lemma ScanDumpedLast(item: string, nesting: nat)
    ensures ScansAs(DumpString(item) + "]", [item], nesting)
  {
    ScanDumped(item, "]", nesting);
    ScanItem(DumpString(item) + "]", Str(item, true), "]", nesting);
    assert "]"[1..] == "";
    assert Strings([item]) == [Str(item, true)];
  }

  lemma ScanMore(t: string, item: string, after: string, items: seq<string>, tail: string, nesting: nat)
    requires SkipSpace(t) == t && ScanValue(t, nesting) == Ok(Str(item, true), after)
    requires after == ", " + tail && ScansAs(tail, items, nesting)
    ensures ScansAs(t, [item] + items, nesting)
  {
    ScanAfterSpace(tail, nesting);
    assert after[0] == ',' && after[1..] == " " + tail;
    ScanItem(t, Str(item, true), after, nesting);
    assert Strings([item] + items) == [Str(item, true)] + Strings(items);
  }

  lemma ScanDumpedMore(item: string, items: seq<string>, tail: string, nesting: nat)
    requires ScansAs(tail, items, nesting)
    ensures ScansAs(DumpString(item) + (", " + tail), [item] + items, nesting)
  {
    ScanDumped(item, ", " + tail, nesting);
    ScanMore(DumpString(item) + (", " + tail), item, ", " + tail, items, tail, nesting);
  }

  lemma NoItems(nesting: nat)
    ensures ScanList("]", nesting) == Ok(List([]), "")
  {
  }

  /** Items as `ScanItems` takes them are not an empty array. */
  lemma ListOfItems(t: string, items: seq<string>, nesting: nat)
    requires items != [] && t == DumpItems(items) + "]" && ScansAs(t, items, nesting)
    ensures ScanList(t, nesting) == Ok(List(Strings(items)), "")
  {
    assert t[0] == QUOTE;
    assert SkipSpace(t) == t;
  }

  lemma ScanDumpedStrings(items: seq<string>, nesting: nat)
    ensures ScanList(DumpItems(items) + "]", nesting) == Ok(List(Strings(items)), "")
  {
    if items != [] {
      ScanDumpedItems(items, DumpItems(items) + "]", nesting);
      ListOfItems(DumpItems(items) + "]", items, nesting);
    } else {
      assert DumpItems(items) + "]" == "]";
      NoItems(nesting);
    }
  }

  lemma LoadsDumpedStrings(items: seq<string>, nesting: nat)
    requires nesting > 0
    ensures Loads(DumpStrings(items), nesting) == Ok(List(Strings(items)), "")
  {
    ScanDumpedStrings(items, nesting - 1);
    LoadsList(DumpStrings(items), DumpItems(items) + "]", nesting);
  }

  lemma LoadsList(t: string, list: string, nesting: nat)
    requires nesting > 0 && t == "[" + list
    requires ScanList(list, nesting - 1).Ok? && ScanList(list, nesting - 1).rest == ""
    ensures Loads(t, nesting) == ScanList(list, nesting - 1)
  {
    assert t[0] == '[' && t[1..] == list;
    assert SkipSpace(t) == t;
  }

  // ----- texts that raise

  predicate Digits(t: string) { forall i :: 0 <= i < |t| ==> IsDigit(t[i]) }

  lemma {:induction false} RunOfDigits(t: string)
    requires Digits(t)
    ensures DigitRun(t) == |t|
  {
    if t != "" {
      RunOfDigits(t[1..]);
    }
  }

  lemma NumberScans(t: string, nesting: nat)
    requires t != "" && IsDigit(t[0])
    ensures SkipSpace(t) == t && ScanValue(t, nesting) == ScanNumber(t)
  {
    NoLiteral(t, 0);
  }

  lemma OtherStart(t: string, p: string)
    requires t != "" && p != "" && t[0] != p[0]
    ensures !StartsWith(t, p)
  {
    assert |p| <= |t| ==> t[..|p|][0] == t[0];
  }

  lemma {:induction false} NoLiteral(t: string, k: nat)
    requires t != "" && k <= |LITERALS| && IsDigit(t[0])
    ensures ScanLiteral(t, k) == ScanNumber(t)
    decreases |LITERALS| - k
  {
    if k < |LITERALS| {
      OtherStart(t, LITERALS[k]);
      NoLiteral(t, k + 1);
    }
  }

  /** An integer of too many digits raises; a text that begins with fewer digits does not, and is no string. */
  lemma LongNumberRaises(t: string, nesting: nat)
    requires Digits(t) && |t| > MAX_DIGITS && t[0] != '0'
    ensures Loads(t, nesting) == Fails
  {
    NumberScans(t, nesting);
    RunOfDigits(t);
  }

  lemma ShortNumberReads(t: string, nesting: nat)
    requires t != "" && IsDigit(t[0]) && |t| <= MAX_DIGITS
    ensures !Loads(t, nesting).Fails?
    ensures Loads(t, nesting).Ok? ==> Loads(t, nesting).value == Other
  {
    NumberScans(t, nesting);
  }

  /** More opening brackets than the interpreter nests raise, whatever follows them. */
  lemma {:induction false} DeepNestingRaises(t: string, nesting: nat)
    requires |t| > nesting && forall i :: 0 <= i <= nesting ==> t[i] == '['
    ensures Loads(t, nesting) == Fails
    decreases nesting
  {
    assert SkipSpace(t) == t;
    DeepBrackets(t, nesting);
  }

  lemma {:induction false} DeepBrackets(t: string, nesting: nat)
    requires |t| > nesting && forall i :: 0 <= i <= nesting ==> t[i] == '['
    ensures ScanValue(t, nesting) == Fails
    decreases nesting
  {
    if nesting > 0 {
      var u := t[1..];
      assert u[0] == '[' && SkipSpace(u) == u;
      DeepBrackets(u, nesting - 1);
      assert ScanItems(u, nesting - 1) == Fails;
      assert ScanList(u, nesting - 1) == Fails;
      assert ScanValue(t, nesting) == ScanList(u, nesting - 1);
    }
  }

  /** An integer of too many digits, or brackets nested too deep. */
  predicate TooMuch(t: string, nesting: nat) {
    || (Digits(t) && |t| > MAX_DIGITS && t[0] != '0')
    || (|t| > nesting && forall i :: 0 <= i <= nesting ==> t[i] == '[')
  }

  lemma TooMuchRaises(t: string, nesting: nat)
    requires TooMuch(t, nesting)
    ensures Loads(t, nesting) == Fails
  {
    if Digits(t) && |t| > MAX_DIGITS && t[0] != '0' {
      LongNumberRaises(t, nesting);
    } else {
      DeepNestingRaises(t, nesting);
    }
  }

  // ----- single lines

  lemma {:induction false} EscapedIsSingleLine(s: string)
    ensures SingleLine(Escaped(s))
  {
    if s != "" {
      EscapedIsSingleLine(s[1..]);
      assert SingleLine(EscapeChar(s[0]));
    }
  }

  lemma {:induction false} DumpedItemsAreSingleLine(items: seq<string>)
    ensures SingleLine(DumpItems(items))
  {
    if items != [] {
      EscapedIsSingleLine(items[0]);
      if |items| > 1 {
        DumpedItemsAreSingleLine(items[1..]);
      }
    }
  }
}
