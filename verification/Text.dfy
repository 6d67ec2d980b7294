/** The string operations of Python that the report and search code relies on. */
module Text {

  // ----- whitespace

  /** `str.isspace` on one character, which is also what `\s` matches. */
  predicate IsSpace(c: char) {
    || '\U{0009}' <= c <= '\U{000D}'
    || '\U{001C}' <= c <= '\U{0020}'
    || c in {'\U{0085}', '\U{00A0}', '\U{1680}', '\U{2028}', '\U{2029}', '\U{202F}', '\U{205F}', '\U{3000}'}
    || '\U{2000}' <= c <= '\U{200A}'
  }

  function TrimLeft(s: string): string {
    if s != "" && IsSpace(s[0]) then TrimLeft(s[1..]) else s
  }

  function TrimRight(s: string): string {
    if s != "" && IsSpace(s[|s| - 1]) then TrimRight(s[..|s| - 1]) else s
  }

  /** `str.strip`. */
  function Strip(s: string): string { TrimRight(TrimLeft(s)) }

  /** Neither end is whitespace. */
  predicate Stripped(s: string) {
    s != "" ==> !IsSpace(s[0]) && !IsSpace(s[|s| - 1])
  }

  predicate Blank(s: string) { forall i :: 0 <= i < |s| ==> IsSpace(s[i]) }

  lemma {:induction false} TrimLeftEnds(s: string)
    ensures TrimLeft(s) != "" ==> !IsSpace(TrimLeft(s)[0]) && TrimLeft(s)[|TrimLeft(s)| - 1] == s[|s| - 1]
    ensures |TrimLeft(s)| <= |s|
  {
    if s != "" && IsSpace(s[0]) {
      TrimLeftEnds(s[1..]);
    }
  }

  lemma {:induction false} TrimRightEnds(s: string)
    ensures TrimRight(s) != "" ==> !IsSpace(TrimRight(s)[|TrimRight(s)| - 1]) && TrimRight(s)[0] == s[0]
    ensures |TrimRight(s)| <= |s|
  {
    if s != "" && IsSpace(s[|s| - 1]) {
      TrimRightEnds(s[..|s| - 1]);
    }
  }

  lemma StripIsStripped(s: string)
    ensures Stripped(Strip(s))
  {
    TrimLeftEnds(s);
    TrimRightEnds(TrimLeft(s));
  }

  lemma StrippedStays(s: string)
    requires Stripped(s)
    ensures Strip(s) == s
  {
  }

  lemma {:induction false} TrimLeftPadding(pad: string, s: string)
    requires Blank(pad)
    ensures TrimLeft(pad + s) == TrimLeft(s)
  {
    if pad == "" {
      assert pad + s == s;
    } else {
      assert (pad + s)[1..] == pad[1..] + s;
      TrimLeftPadding(pad[1..], s);
    }
  }

  lemma {:induction false} TrimRightPadding(s: string, pad: string)
    requires Blank(pad)
    ensures TrimRight(s + pad) == TrimRight(s)
  {
    if pad == "" {
      assert s + pad == s;
    } else {
      var p := pad[..|pad| - 1];
      assert (s + pad)[..|s + pad| - 1] == s + p;
      TrimRightPadding(s, p);
    }
  }

  /** Stripping removes blank padding around stripped text and nothing else. */
  lemma StripPadding(before: string, s: string, after: string)
    requires Blank(before) && Blank(after) && Stripped(s)
    ensures Strip(before + s + after) == s
  {
    assert before + s + after == before + (s + after);
    TrimLeftPadding(before, s + after);
    if s == "" {
      assert s + after == after;
      TrimLeftPadding(after, "");
      assert after + "" == after;
    } else {
      assert (s + after)[0] == s[0];
      TrimRightPadding(s, after);
    }
  }

  // ----- lines

  const NL: char := '\n'

  predicate SingleLine(s: string) { NL !in s }

  /** `s.split("\n")`. */
  function Lines(s: string): (r: seq<string>)
    ensures r != []
  {
    if s == "" then [""]
    else if s[0] == NL then [""] + Lines(s[1..])
    else
      var r := Lines(s[1..]);
      [[s[0]] + r[0]] + r[1..]
  }

  /** `"\n".join(lines)`. */
  function Unlines(lines: seq<string>): string {
    if lines == [] then "" else if |lines| == 1 then lines[0] else lines[0] + "\n" + Unlines(lines[1..])
  }

  lemma {:induction false} LinesOfSingle(s: string)
    requires SingleLine(s)
    ensures Lines(s) == [s]
  {
    if s != "" {
      LinesOfSingle(s[1..]);
      assert [s[0]] + s[1..] == s;
    }
  }

  /** A newline between two texts separates their lines. */
  lemma {:induction false} LinesOfJoined(s: string, t: string)
    ensures Lines(s + "\n" + t) == Lines(s) + Lines(t)
  {
    var u := s + "\n" + t;
    if s == "" {
      assert u[1..] == t;
    } else {
      assert u[0] == s[0] && u[1..] == s[1..] + "\n" + t;
      LinesOfJoined(s[1..], t);
    }
  }

  lemma {:induction false} LinesAreSingle(s: string)
    ensures forall i :: 0 <= i < |Lines(s)| ==> SingleLine(Lines(s)[i])
  {
    if s != "" {
      LinesAreSingle(s[1..]);
    }
  }

  lemma {:induction false} UnlinesOfLines(s: string)
    ensures Unlines(Lines(s)) == s
  {
    if s != "" {
      UnlinesOfLines(s[1..]);
      var r := Lines(s[1..]);
      if s[0] == NL {
        assert Lines(s)[1..] == r;
      } else if |r| > 1 {
        assert Lines(s)[1..] == r[1..];
        assert [s[0]] + r[0] + "\n" + Unlines(r[1..]) == [s[0]] + (r[0] + "\n" + Unlines(r[1..]));
      }
    }
  }

  lemma {:induction false} LinesOfUnlines(lines: seq<string>)
    requires lines != [] && forall i :: 0 <= i < |lines| ==> SingleLine(lines[i])
    ensures Lines(Unlines(lines)) == lines
  {
    LinesOfSingle(lines[0]);
    if |lines| > 1 {
      LinesOfUnlines(lines[1..]);
      LinesOfJoined(lines[0], Unlines(lines[1..]));
      assert [lines[0]] + lines[1..] == lines;
    }
  }

  /** Blank lines around a text disappear when the joined lines are stripped. */
  lemma StripFramed(s: string)
    requires Stripped(s)
    ensures Strip(Unlines([""] + Lines(s) + [""])) == s
  {
    LinesOfJoined("", s);
    LinesOfJoined("" + "\n" + s, "");
    var framed := "" + "\n" + s + "\n" + "";
    assert Lines(framed) == [""] + Lines(s) + [""];
    UnlinesOfLines(framed);
    assert framed == "\n" + s + "\n";
    StripPadding("\n", s, "\n");
  }

  // ----- searching

  predicate StartsWith(s: string, p: string) { |p| <= |s| && s[..|p|] == p }

  predicate OccursAt(s: string, p: string, i: int) { 0 <= i <= |s| - |p| && s[i..i + |p|] == p }

  /** `s.find(p, start)`, with `None` for -1. */
  function FindFrom(s: string, p: string, start: nat): (r: int)
    ensures r == -1 || (start <= r && OccursAt(s, p, r))
    ensures forall i :: start <= i && (r == -1 || i < r) ==> !OccursAt(s, p, i)
    decreases |s| - start
  {
    if start + |p| > |s| then -1
    else if OccursAt(s, p, start) then start
    else FindFrom(s, p, start + 1)
  }

  // ----- letters and digits

  predicate IsDigit(c: char) { '0' <= c <= '9' }

  function LowerChar(c: char): char { if 'A' <= c <= 'Z' then c + ' ' else c }

  /** `str.lower` on ASCII letters. */
  function Lower(s: string): (r: string)
    ensures |r| == |s|
  {
    if s == "" then "" else [LowerChar(s[0])] + Lower(s[1..])
  }
}
