/** What the normalised text guarantees to a search, and what the query compiler emits. */
module SearchLaws {
  import opened Wrappers
  import opened Text
  import opened FtsText

  // ----- idempotence

  lemma {:induction false} TokenThenSpace(t: string, after: string)
    requires IsToken(t) && (after == "" || IsSpace(after[0]))
    ensures Tokens(t + after) == [t] + Tokens(after)
  {
    var text := t + after;
    assert text[1..] == t[1..] + after;
    if IsCjk(t[0]) {
      CjkIsNoSpace(t[0]);
      assert t == [t[0]];
    } else if |t| == 1 {
      assert t == [t[0]];
    } else {
      assert IsToken(t[1..]);
      TokenThenSpace(t[1..], after);
      assert t == [t[0]] + t[1..];
    }
  }

  lemma {:induction false} TokensOfUnwords(ts: seq<string>)
    requires AllTokens(ts)
    ensures Tokens(Unwords(ts)) == ts
  {
    if |ts| == 1 {
      TokenThenSpace(ts[0], "");
      assert ts[0] + "" == ts[0];
    } else if |ts| > 1 {
      var rest := Unwords(ts[1..]);
      TokensOfUnwords(ts[1..]);
      TokenThenSpace(ts[0], " " + rest);
      assert ts[0] + " " + rest == ts[0] + (" " + rest);
      assert (" " + rest)[1..] == rest;
    }
  }

  lemma NormalizeIsIdempotent(text: string)
    ensures Normalize(Normalize(text)) == Normalize(text)
  {
    NormalizeJoinsTokens(text);
    NormalizeJoinsTokens(Normalize(text));
    TokensAreTokens(text);
    TokensOfUnwords(Tokens(text));
  }

  lemma {:induction false} WordsOfUnwords(words: seq<string>)
    requires AllWords(words)
    ensures Words(Unwords(words)) == words
  {
    if |words| == 1 {
      WordThenSpace(words[0], "");
      assert words[0] + "" == words[0];
    } else if |words| > 1 {
      var rest := Unwords(words[1..]);
      WordsOfUnwords(words[1..]);
      WordThenSpace(words[0], " " + rest);
      assert words[0] + " " + rest == words[0] + (" " + rest);
      assert (" " + rest)[1..] == rest;
    }
  }

  lemma {:induction false} WordThenSpace(w: string, after: string)
    requires IsWord(w) && (after == "" || IsSpace(after[0]))
    ensures Words(w + after) == [w] + Words(after)
  {
    assert (w + after)[1..] == w[1..] + after;
    if |w| > 1 {
      assert IsWord(w[1..]);
      WordThenSpace(w[1..], after);
      assert w == [w[0]] + w[1..];
    } else {
      assert w == [w[0]];
    }
  }

  /** What the index tokenizer sees of a normalised text. */
  lemma IndexedTokens(text: string)
    ensures Words(Normalize(text)) == Tokens(text)
  {
    NormalizeJoinsTokens(text);
    TokensAreTokens(text);
    TokensAreWords(Tokens(text));
    WordsOfUnwords(Tokens(text));
  }

  // ----- dropping whitespace beside CJK characters

  predicate Apart(a: char, b: char) { (IsCjk(a) && IsSpace(b)) || (IsSpace(a) && IsCjk(b)) }

  /** No whitespace stands beside a CJK character. */
  predicate Tight(text: string) { forall i :: 0 <= i < |text| - 1 ==> !Apart(text[i], text[i + 1]) }

  predicate NoSpaceAfterCjk(text: string) {
    forall i :: 0 <= i < |text| - 1 ==> IsCjk(text[i]) ==> !IsSpace(text[i + 1])
  }

  lemma {:induction false} TokensSkipSpace(text: string)
    ensures Tokens(TrimLeft(text)) == Tokens(text)
  {
    if text != "" && IsSpace(text[0]) {
      TokensSkipSpace(text[1..]);
    }
  }

  lemma {:induction false} JoinAfterKeepsTokens(text: string)
    ensures Tokens(JoinAfterCjk(text)) == Tokens(text) && NoSpaceAfterCjk(JoinAfterCjk(text))
    ensures text != "" ==> JoinAfterCjk(text) != "" && JoinAfterCjk(text)[0] == text[0]
    decreases |text|
  {
    if text != "" {
      var c, rest := text[0], text[1..];
      var next := if IsCjk(c) then TrimLeft(rest) else rest;
      TrimLeftEnds(rest);
      TokensSkipSpace(rest);
      JoinAfterKeepsTokens(next);
      assert JoinAfterCjk(text) == [c] + JoinAfterCjk(next);
      assert ([c] + JoinAfterCjk(next))[1..] == JoinAfterCjk(next);
      if IsCjk(c) {
        CjkIsNoSpace(c);
      }
    }
  }

  lemma {:induction false} JoinBeforeKeepsTokens(text: string)
    requires NoSpaceAfterCjk(text)
    ensures Tokens(JoinBeforeCjk(text)) == Tokens(text) && Tight(JoinBeforeCjk(text))
    ensures Joins(JoinBeforeCjk(text)) == Joins(text)
    ensures text != "" && !IsSpace(text[0]) ==> JoinBeforeCjk(text) != "" && JoinBeforeCjk(text)[0] == text[0]
    ensures text != "" && !BeforeCjk(text) ==> JoinBeforeCjk(text) != "" && JoinBeforeCjk(text)[0] == text[0]
  {
    if text != "" {
      var c, rest := text[0], text[1..];
      JoinBeforeKeepsTokens(rest);
      if !(IsSpace(c) && BeforeCjk(rest)) {
        var after := JoinBeforeCjk(rest);
        assert ([c] + after)[1..] == after;
        if rest != "" && IsCjk(c) {
          assert !IsSpace(text[1]);
        }
        if rest != "" && IsSpace(c) {
          assert after[0] == rest[0];
        }
      }
    }
  }

  lemma DenormalizeKeepsTokens(text: string)
    ensures Tokens(Denormalize(text)) == Tokens(text) && Tight(Denormalize(text))
  {
    JoinAfterKeepsTokens(text);
    JoinBeforeKeepsTokens(JoinAfterCjk(text));
  }

  // ----- showing a normalised text again

  predicate CjkToken(t: string) { t != "" && IsCjk(t[0]) }

  function Separator(a: string, b: string): string { if CjkToken(a) || CjkToken(b) then "" else " " }

  /** Tokens written out with a space only between two tokens that are not CJK. */
  function Glue(ts: seq<string>): string {
    if ts == [] then "" else if |ts| == 1 then ts[0] else ts[0] + Separator(ts[0], ts[1]) + Glue(ts[1..])
  }

  /** Stripped, single-spaced, and with no whitespace beside a CJK character. */
  predicate Canonical(text: string) {
    && Stripped(text) && Tight(text)
    && (forall i :: 0 <= i < |text| ==> IsSpace(text[i]) ==> text[i] == ' ')
    && (forall i :: 0 <= i < |text| - 1 ==> !(IsSpace(text[i]) && IsSpace(text[i + 1])))
  }

  lemma {:induction false} GlueIsCanonical(ts: seq<string>)
    requires AllTokens(ts)
    ensures Canonical(Glue(ts)) && (ts != [] ==> Glue(ts) != "" && Glue(ts)[0] == ts[0][0])
  {
    if |ts| == 1 {
      assert IsToken(ts[0]);
      if IsCjk(ts[0][0]) {
        CjkIsNoSpace(ts[0][0]);
      }
    } else if |ts| > 1 {
      GlueIsCanonical(ts[1..]);
      assert IsToken(ts[0]) && IsToken(ts[1]);
      GlueStep(ts[0], ts[1], Glue(ts[1..]));
    }
  }

  lemma GlueStep(a: string, b: string, rest: string)
    requires IsToken(a) && IsToken(b) && Canonical(rest) && rest != "" && rest[0] == b[0]
    ensures Canonical(a + Separator(a, b) + rest)
  {
    forall c: char | IsCjk(c) ensures !IsSpace(c) {
      CjkIsNoSpace(c);
    }
    var text := a + Separator(a, b) + rest;
    var n := |a + Separator(a, b)|;
    assert forall i :: 0 <= i < |a| ==> text[i] == a[i];
    assert forall i :: n <= i < |text| ==> text[i] == rest[i - n];
    assert text[n] == b[0] && !IsSpace(b[0]);
    assert Tight(text);
  }

  lemma {:induction false} GlueOfTokens(text: string)
    requires Canonical(text)
    ensures Glue(Tokens(text)) == text
  {
    if text != "" {
      var c, rest := text[0], text[1..];
      assert text == [c] + rest;
      if rest != "" && IsSpace(rest[0]) {
        var after := rest[1..];
        CanonicalAfterSpace(text);
        GlueOfTokens(after);
        assert Tokens(text) == [[c]] + Tokens(rest) && Tokens(rest) == Tokens(after);
        TokensAreTokens(after);
        assert !IsCjk(after[0]) && !IsCjk(c);
        assert Tokens(text)[1..] == Tokens(after);
        assert rest == " " + after && [c] + " " + after == text;
      } else {
        CanonicalTail(text);
        GlueOfTokens(rest);
        TokensAreTokens(rest);
        if !IsCjk(c) && Joins(rest) {
          GlueGrow(c, Tokens(rest));
        } else if rest != "" {
          TokensHead(rest);
          assert Tokens(text)[1..] == Tokens(rest);
          assert [c] + "" + rest == text;
        } else {
          assert Tokens(rest) == [];
        }
      }
    }
  }

  lemma TokensHead(text: string)
    requires text != "" && !IsSpace(text[0])
    ensures Tokens(text) != [] && Tokens(text)[0] != "" && Tokens(text)[0][0] == text[0]
  {
  }

  lemma GlueGrow(c: char, ts: seq<string>)
    requires ts != [] && !IsCjk(c) && !CjkToken(ts[0])
    ensures Glue([[c] + ts[0]] + ts[1..]) == [c] + Glue(ts)
  {
    var grown := [[c] + ts[0]] + ts[1..];
    assert grown[1..] == ts[1..];
    if |ts| > 1 {
      Associate([c], ts[0] + Separator(ts[0], ts[1]), Glue(ts[1..]));
      Associate([c], ts[0], Separator(ts[0], ts[1]));
    }
  }

  lemma CanonicalTail(text: string)
    requires Canonical(text) && |text| > 0 && (|text| > 1 ==> !IsSpace(text[1]))
    ensures Canonical(text[1..])
  {
    var rest := text[1..];
    assert forall i :: 0 <= i < |rest| ==> rest[i] == text[i + 1];
    assert forall i :: 0 <= i < |rest| - 1 ==> !Apart(rest[i], rest[i + 1]);
  }

  lemma CanonicalAfterSpace(text: string)
    requires Canonical(text) && |text| > 1 && IsSpace(text[1])
    ensures |text| > 2 && text[1] == ' ' && Canonical(text[1..][1..])
    ensures !IsCjk(text[0]) && !IsCjk(text[2]) && !IsSpace(text[2])
  {
    assert |text| > 2 by {
      assert !IsSpace(text[|text| - 1]);
    }
    assert !Apart(text[0], text[1]) && !Apart(text[1], text[2]);
    var rest := text[1..][1..];
    assert forall i :: 0 <= i < |rest| ==> rest[i] == text[i + 2];
    assert forall i :: 0 <= i < |rest| - 1 ==> !Apart(rest[i], rest[i + 1]);
  }

  /** What is shown of a normalised text: its tokens, with a space only between two words that are not CJK. */
  lemma DisplayedText(text: string)
    ensures Denormalize(Normalize(text)) == Glue(Tokens(text))
  {
    var ts := Tokens(text);
    NormalizeJoinsTokens(text);
    TokensAreTokens(text);
    TokensOfUnwords(ts);
    DenormalizeKeepsTokens(Normalize(text));
    DenormalizedIsCanonical(ts);
    GlueOfTokens(Denormalize(Normalize(text)));
  }

  predicate SingleSpaced(text: string) {
    && Stripped(text)
    && (forall i :: 0 <= i < |text| ==> IsSpace(text[i]) ==> text[i] == ' ')
    && (forall i :: 0 <= i < |text| - 1 ==> !(IsSpace(text[i]) && IsSpace(text[i + 1])))
  }

  lemma {:induction false} UnwordsIsSingleSpaced(words: seq<string>)
    requires AllWords(words)
    ensures SingleSpaced(Unwords(words)) && (words != [] ==> Unwords(words) != "" && Unwords(words)[0] == words[0][0])
  {
    if |words| == 1 {
      assert IsWord(words[0]);
    } else if |words| > 1 {
      UnwordsIsSingleSpaced(words[1..]);
      assert IsWord(words[0]) && IsWord(words[1]);
      var a, rest := words[0] + " ", Unwords(words[1..]);
      var text := a + rest;
      assert forall i :: 0 <= i < |a| ==> text[i] == a[i];
      assert forall i :: |a| <= i < |text| ==> text[i] == rest[i - |a|];
    }
  }

  lemma SpacingTail(text: string)
    requires SingleSpaced(text) && text != ""
    ensures |text| > 1 && !IsSpace(text[1]) ==> SingleSpaced(text[1..])
    ensures |text| > 1 && IsSpace(text[1]) ==>
      |text| > 2 && text[1] == ' ' && !IsSpace(text[2]) && SingleSpaced(text[1..][1..])
  {
    if |text| > 1 {
      var rest := text[1..];
      assert forall i :: 0 <= i < |rest| ==> rest[i] == text[i + 1];
      if IsSpace(text[1]) {
        assert !IsSpace(text[|text| - 1]);
        var after := rest[1..];
        assert forall i :: 0 <= i < |after| ==> after[i] == text[i + 2];
      }
    }
  }

  lemma SpacingGrows(c: char, rest: string)
    requires !IsSpace(c) && SingleSpaced(rest)
    ensures SingleSpaced([c] + rest) && (rest != "" ==> SingleSpaced([c] + ([' '] + rest)))
  {
  }

  lemma {:induction false} JoinAfterKeepsSpacing(text: string)
    requires SingleSpaced(text)
    ensures SingleSpaced(JoinAfterCjk(text))
    ensures text != "" ==> JoinAfterCjk(text) != "" && JoinAfterCjk(text)[0] == text[0]
    decreases |text|
  {
    if text != "" {
      var c, rest := text[0], text[1..];
      SpacingTail(text);
      if rest != "" && IsSpace(rest[0]) {
        var after := rest[1..];
        assert after[0] == text[2] && TrimLeft(rest) == after;
        JoinAfterKeepsSpacing(after);
        SpacingGrows(c, JoinAfterCjk(after));
        assert !IsCjk(rest[0]);
      } else {
        JoinAfterKeepsSpacing(rest);
        SpacingGrows(c, JoinAfterCjk(rest));
      }
    }
  }

  lemma DenormalizedIsCanonical(ts: seq<string>)
    requires AllTokens(ts)
    ensures Canonical(Denormalize(Unwords(ts)))
  {
    TokensAreWords(ts);
    UnwordsIsSingleSpaced(ts);
    JoinAfterKeepsSpacing(Unwords(ts));
    JoinBeforeKeepsSpacing(JoinAfterCjk(Unwords(ts)));
    DenormalizeKeepsTokens(Unwords(ts));
  }

  lemma {:induction false} JoinBeforeKeepsSpacing(text: string)
    requires SingleSpaced(text)
    ensures SingleSpaced(JoinBeforeCjk(text))
    ensures text != "" ==> JoinBeforeCjk(text) != "" && JoinBeforeCjk(text)[0] == text[0]
    decreases |text|
  {
    if text != "" {
      var c, rest := text[0], text[1..];
      SpacingTail(text);
      if rest != "" && IsSpace(rest[0]) {
        var after := rest[1..];
        assert after[0] == text[2] && TrimLeft(after) == after;
        JoinBeforeKeepsSpacing(after);
        SpacingGrows(c, JoinBeforeCjk(after));
        assert JoinBeforeCjk(rest) == if IsCjk(after[0]) then JoinBeforeCjk(after) else [' '] + JoinBeforeCjk(after);
      } else {
        JoinBeforeKeepsSpacing(rest);
        SpacingGrows(c, JoinBeforeCjk(rest));
      }
    }
  }

  /** Showing a normalised text gives the text back exactly when it was canonical. */
  lemma DisplayRestores(text: string)
    ensures Denormalize(Normalize(text)) == text <==> Canonical(text)
  {
    DisplayedText(text);
    TokensAreTokens(text);
    GlueIsCanonical(Tokens(text));
    if Canonical(text) {
      GlueOfTokens(text);
    }
  }

  // ----- a phrase of CJK characters

  predicate PartAt<T(==)>(s: seq<T>, part: seq<T>, k: nat) { k + |part| <= |s| && s[k..k + |part|] == part }

  ghost predicate Contains<T>(s: seq<T>, part: seq<T>) { exists k: nat :: PartAt(s, part, k) }

  /** A non-empty word of CJK characters only. */
  predicate PureCjk(word: string) { word != "" && forall i :: 0 <= i < |word| ==> IsCjk(word[i]) }

  function Characters(word: string): seq<string> { seq(|word|, i requires 0 <= i < |word| => [word[i]]) }

  lemma {:induction false} TokensOfCjk(word: string)
    requires forall i :: 0 <= i < |word| ==> IsCjk(word[i])
    ensures Tokens(word) == Characters(word)
  {
    if word != "" {
      CjkIsNoSpace(word[0]);
      TokensOfCjk(word[1..]);
      assert Characters(word) == [[word[0]]] + Characters(word[1..]);
    }
  }

  lemma ContainsStep<T>(s: seq<T>, part: seq<T>)
    requires s != []
    ensures Contains(s, part) <==> part <= s || Contains(s[1..], part)
  {
    if part <= s {
      assert PartAt(s, part, 0);
    }
    if k: nat :| PartAt(s[1..], part, k) {
      assert s[k + 1..k + 1 + |part|] == s[1..][k..k + |part|];
      assert PartAt(s, part, k + 1);
    }
    if k: nat :| PartAt(s, part, k) {
      if k > 0 {
        assert s[1..][k - 1..k - 1 + |part|] == s[k..k + |part|];
        assert PartAt(s[1..], part, k - 1);
      }
    }
  }

  lemma TightTail(text: string)
    requires Tight(text) && text != ""
    ensures Tight(text[1..])
  {
    var rest := text[1..];
    assert forall i :: 0 <= i < |rest| - 1 ==> !Apart(rest[i], rest[i + 1]);
  }

  lemma {:induction false} TightSpaceEndsNoCjk(text: string)
    requires Tight(text) && text != "" && IsSpace(text[0])
    ensures Tokens(text) != [] ==> !CjkToken(Tokens(text)[0])
  {
    if |text| > 1 {
      assert !Apart(text[0], text[1]);
      TightTail(text);
      if IsSpace(text[1]) {
        TightSpaceEndsNoCjk(text[1..]);
      } else {
        TokensAreTokens(text[1..]);
      }
    }
  }

  /** At the front of a tight text, the characters of a CJK word are tokens exactly when they are the text. */
  lemma {:induction false} PhraseAtFront(text: string, word: string)
    requires Tight(text) && PureCjk(word)
    ensures Characters(word) <= Tokens(text) <==> word <= text
  {
    CjkIsNoSpace(word[0]);
    TokensAreTokens(text);
    assert Characters(word)[0] == [word[0]] && CjkToken(Characters(word)[0]);
    if text == "" {
    } else if IsSpace(text[0]) {
      TightSpaceEndsNoCjk(text);
    } else if IsCjk(text[0]) {
      TightTail(text);
      assert Characters(word) == [[word[0]]] + Characters(word[1..]);
      assert Tokens(text)[1..] == Tokens(text[1..]);
      if |word| > 1 {
        PhraseAtFront(text[1..], word[1..]);
        PrefixStep(Tokens(text), Characters(word));
        PrefixStep(text, word);
      }
    } else {
      TokensHead(text);
    }
  }

  lemma PrefixStep<T>(s: seq<T>, part: seq<T>)
    requires s != [] && part != []
    ensures part <= s <==> part[0] == s[0] && part[1..] <= s[1..]
  {
    if part[0] == s[0] && part[1..] <= s[1..] {
      assert part == [part[0]] + part[1..];
      assert s[..|part|] == [s[0]] + s[1..][..|part| - 1];
    }
    if part <= s {
      assert part[1..] == s[1..][..|part| - 1];
    }
  }

  lemma {:induction false} PhraseInTight(text: string, word: string)
    requires Tight(text) && PureCjk(word)
    ensures Contains(Tokens(text), Characters(word)) <==> Contains(text, word)
  {
    var phrase := Characters(word);
    if text != "" {
      TightTail(text);
      PhraseInTight(text[1..], word);
      PhraseAtFront(text, word);
      PhraseAtFront(text[1..], word);
      ContainsStep(text, word);
      if IsSpace(text[0]) {
        CjkIsNoSpace(word[0]);
      } else {
        TokensHead(text);
        ContainsStep(Tokens(text), phrase);
        if !IsCjk(text[0]) && Joins(text[1..]) {
          var rest := Tokens(text[1..]);
          ContainsStep(rest, phrase);
          assert Tokens(text)[1..] == rest[1..];
          TokensAreTokens(text[1..]);
          assert phrase[0] == [word[0]] && !(phrase <= rest);
        } else {
          assert Tokens(text)[1..] == Tokens(text[1..]);
        }
      }
    }
  }

  /**
   A word of CJK characters is found as a phrase in the indexed form of a text exactly when it occurs
   in the text once the whitespace beside CJK characters is removed.
   */
  lemma CjkPhraseSearch(text: string, word: string)
    requires PureCjk(word)
    ensures Words(Normalize(word)) == Characters(word)
    ensures Contains(Words(Normalize(text)), Words(Normalize(word))) <==> Contains(Denormalize(text), word)
  {
    IndexedTokens(text);
    IndexedTokens(word);
    TokensOfCjk(word);
    DenormalizeKeepsTokens(text);
    PhraseInTight(Denormalize(text), word);
  }

  // ----- the query compiler

  /** A token that holds a letter, digit or underscore (`isWord` is `\w`), or a CJK character. */
  predicate Searchable(token: string, isWord: char -> bool) {
    exists i :: 0 <= i < |token| && (isWord(token[i]) || IsCjk(token[i]))
  }

  function Kept(tokens: seq<string>, isWord: char -> bool): seq<string> {
    if tokens == [] then []
    else
      var before, last := Kept(tokens[..|tokens| - 1], isWord), tokens[|tokens| - 1];
      if Searchable(last, isWord) then before + [last] else before
  }

  /** The phrases of a query: per word its searchable tokens, words without any left out. */
  function Phrases(words: seq<string>, isWord: char -> bool): seq<string> {
    if words == [] then []
    else
      var before := Phrases(words[..|words| - 1], isWord);
      var tokens := Kept(Words(Normalize(words[|words| - 1])), isWord);
      if tokens == [] then before else before + [Unwords(tokens)]
  }

  const QUOTE := '"'

  /** `"` doubled, as SQL strings have it. */
  function Doubled(s: string): string {
    if s == "" then "" else (if s[0] == QUOTE then [QUOTE, QUOTE] else [s[0]]) + Doubled(s[1..])
  }

  function Quoted(phrase: string): string { [QUOTE] + Doubled(phrase) + [QUOTE] }

  const AND := " AND "

  function Conjunction(phrases: seq<string>): string
    requires phrases != []
  {
    if |phrases| == 1 then Quoted(phrases[0]) else Quoted(phrases[0]) + AND + Conjunction(phrases[1..])
  }

  /** The MATCH expression of user text, or nothing when no token is searchable. */
  method BuildMatchQuery(query: string, isWord: char -> bool) returns (match_: Option<string>)
    ensures match_ == MatchOf(query, isWord)
  {
    var words := Words(query);
    var phrases: seq<string> := [];
    for k := 0 to |words|
      invariant phrases == Phrases(words[..k], isWord)
    {
      assert words[..k + 1][..k] == words[..k];
      var tokens := Kept(Words(Normalize(words[k])), isWord);
      if tokens != [] {
        phrases := phrases + [Unwords(tokens)];
      }
    }
    assert words[..|words|] == words;
    return if phrases == [] then None else Some(Conjunction(phrases));
  }

  function MatchOf(query: string, isWord: char -> bool): Option<string> {
    var phrases := Phrases(Words(query), isWord);
    if phrases == [] then None else Some(Conjunction(phrases))
  }

  // ----- reading a MATCH expression

  /** The rest of a quoted phrase: its text and what follows the closing quote. */
  function ReadPhrase(t: string): (r: Option<(string, string)>)
    ensures r.Some? ==> |r.value.1| < |t|
  {
    if t == "" then None
    else if t[0] != QUOTE then Before(t[0], ReadPhrase(t[1..]))
    else if |t| > 1 && t[1] == QUOTE then Before(QUOTE, ReadPhrase(t[2..]))
    else Some(("", t[1..]))
  }

  function Before(c: char, r: Option<(string, string)>): Option<(string, string)> {
    match r
    case Some((s, rest)) => Some(([c] + s, rest))
    case None => None
  }

  /** The phrases of a conjunction of quoted phrases, and `None` for any other expression. */
  function ReadMatch(t: string): Option<seq<string>>
    decreases |t|
  {
    if t == "" || t[0] != QUOTE then None
    else match ReadPhrase(t[1..])
      case None => None
      case Some((phrase, rest)) =>
        if rest == "" then Some([phrase])
        else if !StartsWith(rest, AND) then None
        else match ReadMatch(rest[|AND|..])
          case Some(phrases) => Some([phrase] + phrases)
          case None => None
  }

  lemma {:induction false} ReadDoubled(s: string, after: string)
    requires after == "" || after[0] != QUOTE
    ensures ReadPhrase(Doubled(s) + [QUOTE] + after) == Some((s, after))
  {
    var t := Doubled(s) + [QUOTE] + after;
    if s == "" {
      assert t[1..] == after;
    } else {
      var tail := Doubled(s[1..]) + [QUOTE] + after;
      ReadDoubled(s[1..], after);
      assert [s[0]] + s[1..] == s;
      if s[0] == QUOTE {
        assert t == [QUOTE, QUOTE] + tail && t[2..] == tail;
      } else {
        assert t == [s[0]] + tail && t[1..] == tail;
      }
    }
  }

  lemma ReadQuoted(phrase: string, after: string)
    requires after == "" || after[0] != QUOTE
    ensures (Quoted(phrase) + after)[0] == QUOTE
    ensures ReadPhrase((Quoted(phrase) + after)[1..]) == Some((phrase, after))
  {
    ReadDoubled(phrase, after);
    assert (Quoted(phrase) + after)[1..] == Doubled(phrase) + [QUOTE] + after;
  }

  lemma {:induction false} ReadConjunction(phrases: seq<string>)
    requires phrases != []
    ensures ReadMatch(Conjunction(phrases)) == Some(phrases)
  {
    var first, t := phrases[0], Conjunction(phrases);
    if |phrases| == 1 {
      ReadQuoted(first, "");
      assert Quoted(first) + "" == t;
      assert phrases == [first];
    } else {
      var rest := Conjunction(phrases[1..]);
      ReadConjunction(phrases[1..]);
      ReadQuoted(first, AND + rest);
      assert t == Quoted(first) + (AND + rest);
      AfterAnd(rest);
      assert phrases == [first] + phrases[1..];
    }
  }

  lemma AfterAnd(rest: string)
    ensures StartsWith(AND + rest, AND) && (AND + rest)[|AND|..] == rest
  {
  }

  /**
   Whatever the user types, the expression reads back as a conjunction of exactly the phrases of the
   query: quotes in the text never end a phrase early. There is no expression exactly when no word of
   the query has a searchable token.
   */
  lemma MatchReadsBack(query: string, isWord: char -> bool)
    ensures MatchOf(query, isWord).Some? ==>
      ReadMatch(MatchOf(query, isWord).value) == Some(Phrases(Words(query), isWord))
    ensures MatchOf(query, isWord).None? <==>
      forall word <- Words(query) :: Kept(Tokens(word), isWord) == []
  {
    var phrases := Phrases(Words(query), isWord);
    NoPhrases(Words(query), isWord);
    if phrases != [] {
      ReadConjunction(phrases);
    }
  }

  lemma {:induction false} NoPhrases(words: seq<string>, isWord: char -> bool)
    ensures Phrases(words, isWord) == [] <==> forall word <- words :: Kept(Tokens(word), isWord) == []
  {
    if words != [] {
      var front, last := words[..|words| - 1], words[|words| - 1];
      NoPhrases(front, isWord);
      IndexedTokens(last);
      assert words == front + [last];
    }
  }
}
