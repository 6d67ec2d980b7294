/** A line that equals a frozen heading inside a section: its section does not read back. */
module HeadingLoss {
  import opened Wrappers
  import opened Text
  import opened ReportFormat
  import opened ReportRoundTrip

  /** What lines take up in a text, line ends included. */
  function Weight(lines: seq<string>): nat {
    if lines == [] then 0 else Weight(lines[..|lines| - 1]) + |lines[|lines| - 1]| + 1
  }

  lemma {:induction false} WeightOfParts(a: seq<string>, b: seq<string>)
    ensures Weight(a + b) == Weight(a) + Weight(b)
  {
    if b == [] {
      assert a + b == a;
    } else {
      assert (a + b)[..|a + b| - 1] == a + b[..|b| - 1];
      WeightOfParts(a, b[..|b| - 1]);
    }
  }

  lemma {:induction false} WeightOfUnlines(lines: seq<string>)
    ensures lines != [] ==> |Unlines(lines)| + 1 == Weight(lines)
    ensures lines == [] ==> Unlines(lines) == ""
    decreases |lines|
  {
    if |lines| == 1 {
      assert Weight(lines) == Weight([]) + |lines[0]| + 1;
    } else if lines != [] {
      WeightOfUnlines(lines[1..]);
      WeightOfParts(lines[..1], lines[1..]);
      assert lines == lines[..1] + lines[1..];
      assert Weight(lines[..1]) == Weight([]) + |lines[0]| + 1;
    }
  }

  lemma MatchedIsHeading(line: string, s: Section)
    requires Matched(line) == Some(s)
    ensures line == Heading(s) && |line| >= 7
  {
    MatchedFromIsHeading(line, 0);
  }

  lemma {:induction false} MatchedFromIsHeading(line: string, k: nat)
    requires k <= |SECTIONS|
    ensures MatchedFrom(line, k).Some? ==> line == Heading(MatchedFrom(line, k).value)
    decreases |SECTIONS| - k
  {
    if k < |SECTIONS| {
      MatchedFromIsHeading(line, k + 1);
    }
  }

  /** What a section gathers from lines it began to gather weighs no more than they do, and less by any heading. */
  lemma {:induction false} GatheredWeight(scan: Scan, lines: seq<string>, s: Section)
    requires s in scan.chunks && scan.chunks[s] == []
    ensures var chunks := ReadLines(scan, lines).chunks;
      && s in chunks && Weight(chunks[s]) <= Weight(lines)
      && (!Plain(lines) ==> Weight(chunks[s]) + 8 <= Weight(lines))
  {
    if lines != [] {
      var front, line := lines[..|lines| - 1], lines[|lines| - 1];
      GatheredWeight(scan, front, s);
      LineWeight(ReadLines(scan, front), line, s);
      assert lines == front + [line];
      if Matched(line).Some? {
        MatchedIsHeading(line, Matched(line).value);
      } else {
        assert Plain(front) ==> Plain(lines);
      }
    }
  }

  /** One line adds at most its own weight to what a section holds, a heading nothing. */
  lemma LineWeight(scan: Scan, line: string, s: Section)
    requires s in scan.chunks
    ensures var chunks := ReadLine(scan, line).chunks;
      s in chunks && Weight(chunks[s]) <= Weight(scan.chunks[s]) + (if Matched(line).Some? then 0 else |line| + 1)
  {
    var held := scan.chunks[s];
    assert (held + [line])[..|held + [line]| - 1] == held;
  }

  lemma StripIsShorter(s: string)
    ensures |Strip(s)| <= |s|
  {
    TrimLeftEnds(s);
    TrimRightEnds(TrimLeft(s));
  }

  /** A section read from its own heading on, with another heading among its lines. */
  lemma SectionShrinks<D>(doc: Document<D>, before: seq<string>, s: Section)
    requires !Plain(Lines(Content(doc, s)))
    ensures var chunks := ReadLines(UNREAD, before + [Heading(s)] + FrameOf(doc, s)).chunks;
      s in chunks && |Strip(Unlines(chunks[s]))| < |Content(doc, s)|
  {
    var frame, c := FrameOf(doc, s), Content(doc, s);
    ReadLinesAppends(UNREAD, before, [Heading(s)]);
    ReadLinesAppends(UNREAD, before + [Heading(s)], frame);
    HeadingIsEntered(ReadLines(UNREAD, before), s);
    var start := ReadLines(UNREAD, before + [Heading(s)]);
    GatheredWeight(start, frame, s);
    FrameWeighs(c);
    FrameHasHeading(c);
    var chunk := ReadLines(start, frame).chunks[s];
    WeightOfUnlines(chunk);
    StripIsShorter(Unlines(chunk));
  }

  lemma FrameWeighs(c: string)
    ensures Weight([""] + Lines(c) + [""]) == |c| + 3
  {
    WeightOfParts([""] + Lines(c), [""]);
    WeightOfParts([""], Lines(c));
    assert Weight([""]) == Weight([]) + 0 + 1;
    WeightOfUnlines(Lines(c));
    UnlinesOfLines(c);
  }

  lemma FrameHasHeading(c: string)
    requires !Plain(Lines(c))
    ensures !Plain([""] + Lines(c) + [""])
  {
    var line :| line in Lines(c) && Matched(line).Some?;
    assert line in [""] + Lines(c) + [""];
  }

  lemma EmptyIsPlain()
    ensures Plain(Lines(""))
  {
    forall t: Section ensures "" != Heading(t) {
      assert Heading(t) != "";
    }
    UnmatchedFrom("", 0);
  }

  /** Sections without headings among their lines leave what an earlier one gathered alone. */
  lemma {:induction false} LaterSectionsLeaveIt<D>(doc: Document<D>, s: Section, k: nat, m: nat)
    requires k <= m <= |SECTIONS| && s in ReadLines(UNREAD, BodyLinesUpTo(doc, k)).chunks
    requires forall j | k <= j < m :: SECTIONS[j] != s && Plain(Lines(Content(doc, SECTIONS[j])))
    ensures s in ReadLines(UNREAD, BodyLinesUpTo(doc, m)).chunks
    ensures ReadLines(UNREAD, BodyLinesUpTo(doc, m)).chunks[s] == ReadLines(UNREAD, BodyLinesUpTo(doc, k)).chunks[s]
    decreases m
  {
    if k < m {
      LaterSectionsLeaveIt(doc, s, k, m - 1);
      if Printed(doc, SECTIONS[m - 1]) {
        LaterSectionLeavesIt(BodyLinesUpTo(doc, m - 1), SECTIONS[m - 1], Content(doc, SECTIONS[m - 1]), s);
      }
    }
  }

  lemma LaterSectionLeavesIt(before: seq<string>, t: Section, c: string, s: Section)
    requires t != s && Plain(Lines(c)) && s in ReadLines(UNREAD, before).chunks
    ensures var chunks := ReadLines(UNREAD, before + [Heading(t)] + ([""] + Lines(c) + [""])).chunks;
      s in chunks && chunks[s] == ReadLines(UNREAD, before).chunks[s]
  {
    PlainFrame(c);
    SectionIsGathered(before, t, [""] + Lines(c) + [""]);
  }

  lemma PlainFrame(c: string)
    requires Plain(Lines(c))
    ensures Plain([""] + Lines(c) + [""])
  {
    EmptyIsPlain();
    assert "" in Lines("");
  }

  /** The title line and the blank ones around it are gathered nowhere. */
  lemma TopIsSkipped<D>(doc: Document<D>)
    requires SingleLine(doc.title)
    ensures ReadLines(UNREAD, BodyLines(doc)) == ReadLines(UNREAD, BodyLinesUpTo(doc, |SECTIONS|))
  {
    TitleIsPlain(doc.title);
    EmptyIsPlain();
    var top := [""] + Lines("# " + doc.title) + [""];
    assert "" in Lines("");
    PlainLinesBeforeAnyHeading(top);
    ReadLinesAppends(UNREAD, top, BodyLinesUpTo(doc, |SECTIONS|));
  }

  /** The last section with a heading among its lines reads back as something shorter. */
  lemma LastOneShrinks<D>(doc: Document<D>, s: Section, k: nat)
    requires 0 < k <= |SECTIONS| && s == SECTIONS[k - 1] && SingleLine(doc.title)
    requires !Plain(Lines(Content(doc, s)))
    requires forall j | k <= j < |SECTIONS| :: Plain(Lines(Content(doc, SECTIONS[j])))
    ensures Gathered(ReadLines(UNREAD, BodyLines(doc)), s) != Content(doc, s)
  {
    EmptyIsPlain();
    SectionShrinks(doc, BodyLinesUpTo(doc, k - 1), s);
    forall j | k <= j < |SECTIONS| ensures SECTIONS[j] != s {
      SectionsDiffer(k - 1, j);
    }
    LaterSectionsLeaveIt(doc, s, k, |SECTIONS|);
    TopIsSkipped(doc);
  }

  ghost predicate HeadedBefore<D>(doc: Document<D>, k: nat)
    requires k <= |SECTIONS|
  {
    exists j: nat :: j < k && !Plain(Lines(Content(doc, SECTIONS[j])))
  }

  /** If some section has a heading among its lines, the last such section is lost. */
  lemma {:induction false} HeadingIsLost<D>(doc: Document<D>, k: nat) returns (s: Section)
    requires k <= |SECTIONS| && SingleLine(doc.title) && HeadedBefore(doc, k)
    requires forall j | k <= j < |SECTIONS| :: Plain(Lines(Content(doc, SECTIONS[j])))
    ensures !Plain(Lines(Content(doc, s))) && Gathered(ReadLines(UNREAD, BodyLines(doc)), s) != Content(doc, s)
  {
    if Plain(Lines(Content(doc, SECTIONS[k - 1]))) {
      s := HeadingIsLost(doc, k - 1);
    } else {
      s := SECTIONS[k - 1];
      LastOneShrinks(doc, s, k);
    }
  }
}
