/**
 The text contract of full-text search: how text is normalised before indexing, how a snippet is
 shown again, and how user text becomes a MATCH expression. The tokenizer of the index is taken to
 split the normalised text at whitespace.
 */
module FtsText {
  import opened Text

  /** Han, Hiragana and Katakana, Hangul. */
  predicate IsCjk(c: char) {
    || '\U{4E00}' <= c <= '\U{9FFF}'
    || '\U{3040}' <= c <= '\U{30FF}'
    || '\U{AC00}' <= c <= '\U{D7AF}'
  }

  /** A space on either side of every CJK character. */
  function Spaced(text: string): string {
    if text == "" then "" else (if IsCjk(text[0]) then [' ', text[0], ' '] else [text[0]]) + Spaced(text[1..])
  }

  /** Every run of whitespace becomes one space. */
  function Collapse(text: string): string
    decreases |text|
  {
    if text == "" then ""
    else if IsSpace(text[0]) then
      TrimLeftEnds(text[1..]);
      " " + Collapse(TrimLeft(text[1..]))
    else [text[0]] + Collapse(text[1..])
  }

  function Normalize(text: string): string { Strip(Collapse(Spaced(text))) }

  /** Whitespace after a CJK character is dropped. */
  function JoinAfterCjk(text: string): (r: string)
    decreases |text|
  {
    if text == "" then ""
    else if IsCjk(text[0]) then
      TrimLeftEnds(text[1..]);
      [text[0]] + JoinAfterCjk(TrimLeft(text[1..]))
    else [text[0]] + JoinAfterCjk(text[1..])
  }

  /** Whitespace before a CJK character is dropped. */
  function JoinBeforeCjk(text: string): string
    decreases |text|
  {
    if text == "" then ""
    else if IsSpace(text[0]) && BeforeCjk(text[1..]) then JoinBeforeCjk(text[1..])
    else [text[0]] + JoinBeforeCjk(text[1..])
  }

  predicate BeforeCjk(text: string) { TrimLeft(text) != "" && IsCjk(TrimLeft(text)[0]) }

  function Denormalize(text: string): string { JoinBeforeCjk(JoinAfterCjk(text)) }

  // ----- tokens

  /** `text.split()`. */
  function Words(text: string): (words: seq<string>)
    ensures text != "" && !IsSpace(text[0]) ==> words != []
  {
    if text == "" then []
    else if IsSpace(text[0]) then Words(text[1..])
    else if |text| == 1 || IsSpace(text[1]) then [[text[0]]] + Words(text[1..])
    else
      var rest := Words(text[1..]);
      [[text[0]] + rest[0]] + rest[1..]
  }

  function Unwords(words: seq<string>): string {
    if words == [] then "" else if |words| == 1 then words[0] else words[0] + " " + Unwords(words[1..])
  }

  predicate Joins(text: string) { text != "" && !IsSpace(text[0]) && !IsCjk(text[0]) }

  /** The tokens of a text: every CJK character alone, every other run of non-space characters together. */
  function Tokens(text: string): (ts: seq<string>)
    ensures Joins(text) ==> ts != []
  {
    if text == "" then []
    else if IsSpace(text[0]) then Tokens(text[1..])
    else if IsCjk(text[0]) || !Joins(text[1..]) then [[text[0]]] + Tokens(text[1..])
    else
      var rest := Tokens(text[1..]);
      [[text[0]] + rest[0]] + rest[1..]
  }

  /** A single CJK character, or characters that are neither CJK nor whitespace. */
  predicate IsToken(t: string) {
    || (|t| == 1 && IsCjk(t[0]))
    || (t != "" && forall i :: 0 <= i < |t| ==> !IsCjk(t[i]) && !IsSpace(t[i]))
  }

  predicate AllTokens(ts: seq<string>) { forall i :: 0 <= i < |ts| ==> IsToken(ts[i]) }

  lemma CjkIsNoSpace(c: char)
    requires IsCjk(c)
    ensures !IsSpace(c)
  {
  }

  lemma {:induction false} TokensAreTokens(text: string)
    ensures AllTokens(Tokens(text))
    ensures Joins(text) ==> !IsCjk(Tokens(text)[0][0])
  {
    if text != "" {
      TokensAreTokens(text[1..]);
      if !IsSpace(text[0]) && !IsCjk(text[0]) && Joins(text[1..]) {
        var rest := Tokens(text[1..]);
        assert IsToken(rest[0]) && !IsCjk(rest[0][0]);
        assert IsToken([text[0]] + rest[0]);
      }
    }
  }

  // ----- normalising is joining tokens with single spaces

  lemma {:induction false} WordsOfSpaced(text: string)
    ensures Words(Spaced(text)) == Tokens(text)
    ensures Joins(text) <==> Spaced(text) != "" && !IsSpace(Spaced(text)[0])
  {
    if text != "" {
      var c, rest := text[0], text[1..];
      WordsOfSpaced(rest);
      if IsCjk(c) {
        WordsOfSpacedCjk(c, Spaced(rest));
      } else {
        assert Spaced(text)[1..] == Spaced(rest);
      }
    }
  }

  lemma WordsOfSpacedCjk(c: char, after: string)
    requires IsCjk(c)
    ensures Words([' ', c, ' '] + after) == [[c]] + Words(after)
  {
    CjkIsNoSpace(c);
    var t, u, v := [' ', c, ' '] + after, [c, ' '] + after, [' '] + after;
    assert t[1..] == u && u[1..] == v && v[1..] == after;
    assert Words(v) == Words(after) && Words(u) == [[c]] + Words(v);
  }

  lemma {:induction false} WordsSkipSpace(text: string)
    ensures Words(TrimLeft(text)) == Words(text)
  {
    if text != "" && IsSpace(text[0]) {
      WordsSkipSpace(text[1..]);
    }
  }

  function Trailing(text: string): string { if text != "" && IsSpace(text[|text| - 1]) then " " else "" }

  /** The words of a text with single spaces between them, and one more where the text ends in whitespace. */
  lemma {:induction false} CollapseJoinsWords(text: string)
    requires text != "" && !IsSpace(text[0])
    ensures Collapse(text) == Unwords(Words(text)) + Trailing(text)
    decreases |text|
  {
    var c, rest := text[0], text[1..];
    if rest == "" {
      assert text == [c];
    } else if IsSpace(rest[0]) {
      var after := TrimLeft(rest[1..]);
      TrimLeftEnds(rest[1..]);
      WordsSkipSpace(rest[1..]);
      if after == "" {
        TrimmedAway(rest[1..]);
        CollapseLastWord(text);
      } else {
        CollapseJoinsWords(after);
        CollapseNextWord(text, after);
      }
    } else {
      CollapseJoinsWords(rest);
      CollapseLongerWord(text);
    }
  }

  lemma CollapseLongerWord(text: string)
    requires |text| > 1 && !IsSpace(text[0]) && !IsSpace(text[1])
    requires Collapse(text[1..]) == Unwords(Words(text[1..])) + Trailing(text[1..])
    ensures Collapse(text) == Unwords(Words(text)) + Trailing(text)
  {
    var rest := text[1..];
    UnwordsGrow(text[0], Words(rest));
    assert Words(text) == [[text[0]] + Words(rest)[0]] + Words(rest)[1..];
    assert Trailing(rest) == Trailing(text);
    Associate([text[0]], Unwords(Words(rest)), Trailing(rest));
  }

  lemma Associate(a: string, b: string, c: string)
    ensures a + (b + c) == (a + b) + c
  {
  }

  lemma CollapseLastWord(text: string)
    requires |text| > 1 && !IsSpace(text[0]) && IsSpace(text[1]) && TrimLeft(text[1..][1..]) == ""
    requires Words(text[1..][1..]) == [] && Blank(text[1..][1..])
    ensures Collapse(text) == Unwords(Words(text)) + Trailing(text)
  {
    var rest := text[1..];
    assert Collapse(rest) == " " + Collapse("");
    assert Words(text) == [[text[0]]];
    assert rest[1..] != "" ==> text[|text| - 1] == rest[1..][|rest[1..]| - 1];
  }

  lemma CollapseNextWord(text: string, after: string)
    requires |text| > 1 && !IsSpace(text[0]) && IsSpace(text[1]) && TrimLeft(text[1..][1..]) == after
    requires after != "" && after[|after| - 1] == text[|text| - 1]
    requires Words(text[1..][1..]) == Words(after) != []
    requires Collapse(after) == Unwords(Words(after)) + Trailing(after)
    ensures Collapse(text) == Unwords(Words(text)) + Trailing(text)
  {
    var rest := text[1..];
    assert Collapse(rest) == " " + Collapse(after);
    assert Words(text) == [[text[0]]] + Words(after);
    assert Words(text)[1..] == Words(after);
    Regroup([text[0]], " ", Unwords(Words(after)), Trailing(after));
  }

  lemma Regroup(a: string, b: string, c: string, d: string)
    ensures a + (b + (c + d)) == (a + b + c) + d
  {
  }

  lemma {:induction false} TrimmedAway(text: string)
    requires TrimLeft(text) == ""
    ensures Blank(text)
  {
    if text != "" {
      TrimmedAway(text[1..]);
    }
  }

  lemma UnwordsGrow(c: char, words: seq<string>)
    requires words != []
    ensures Unwords([[c] + words[0]] + words[1..]) == [c] + Unwords(words)
  {
    var grown := [[c] + words[0]] + words[1..];
    assert grown[1..] == words[1..];
    if |words| > 1 {
      assert [c] + words[0] + " " + Unwords(words[1..]) == [c] + (words[0] + " " + Unwords(words[1..]));
    }
  }

  predicate IsWord(t: string) { t != "" && forall j :: 0 <= j < |t| ==> !IsSpace(t[j]) }

  predicate AllWords(words: seq<string>) { forall i :: 0 <= i < |words| ==> IsWord(words[i]) }

  lemma {:induction false} UnwordsEnds(ws: seq<string>)
    requires AllWords(ws)
    ensures Stripped(Unwords(ws)) && (ws != [] ==> Unwords(ws) != "" && Unwords(ws)[0] == ws[0][0])
  {
    if |ws| > 1 {
      UnwordsEnds(ws[1..]);
    }
  }

  lemma TokensAreWords(ts: seq<string>)
    requires AllTokens(ts)
    ensures AllWords(ts)
  {
    forall i | 0 <= i < |ts| ensures IsWord(ts[i]) {
      assert IsToken(ts[i]);
      if IsCjk(ts[i][0]) {
        CjkIsNoSpace(ts[i][0]);
      }
    }
  }

  /** Normalising joins the tokens of the text with single spaces. */
  lemma NormalizeJoinsTokens(text: string)
    ensures Normalize(text) == Unwords(Tokens(text))
  {
    var spaced := Spaced(text);
    WordsOfSpaced(text);
    TokensAreTokens(text);
    TokensAreWords(Tokens(text));
    UnwordsEnds(Tokens(text));
    StrippedStays(Unwords(Tokens(text)));
    if spaced == "" {
    } else if IsSpace(spaced[0]) {
      var after := TrimLeft(spaced[1..]);
      TrimLeftEnds(spaced[1..]);
      WordsSkipSpace(spaced[1..]);
      CollapsedStrips(" ", after);
    } else {
      CollapsedStrips("", spaced);
      assert "" + Collapse(spaced) == Collapse(spaced);
    }
  }

  lemma CollapsedStrips(before: string, text: string)
    requires Blank(before) && AllWords(Words(text)) && (text != "" ==> !IsSpace(text[0]))
    ensures Strip(before + Collapse(text)) == Unwords(Words(text))
  {
    var joined := Unwords(Words(text));
    UnwordsEnds(Words(text));
    if text != "" {
      CollapseJoinsWords(text);
    }
    Associate(before, joined, Trailing(text));
    StripPadding(before, joined, Trailing(text));
  }
}
