/** Exactly which reports are recovered from what is printed of them. */
module ReportRecovery {
  import opened Wrappers
  import opened Text
  import opened ReportFormat
  import opened ReportRoundTrip
  import opened ReportLaws
  import HeadingLoss

  /** No line of a section equals one of the frozen headings, the address in the link section aside. */
  ghost predicate SectionsHeadingFree<D>(doc: Document<D>) {
    forall s: Section | s != OriginalLink :: Plain(Lines(Content(doc, s)))
  }

  /** Bullets of single-line items are no headings. */
  lemma BulletsArePlain(items: seq<string>)
    requires LineLike(items)
    ensures Plain(Lines(Unlines(Bullets(items))))
  {
    if items == [] {
      assert Bullets(items) == [];
      HeadingLoss.EmptyIsPlain();
    } else {
      LinesOfBullets(items);
      forall i | 0 <= i < |items| ensures Matched(Bullets(items)[i]).None? {
        BulletIsPlain(items[i]);
      }
    }
  }

  lemma BulletIsPlain(item: string)
    ensures Matched("- " + item).None?
  {
    forall s: Section ensures Heading(s) != "- " + item {
      assert Heading(s)[0] == '#';
    }
    UnmatchedFrom("- " + item, 0);
  }

  /** A document that reads back has no heading among the lines of its sections. */
  lemma ReadBackIsHeadingFree<D>(doc: Document<D>)
    requires Recoverable(doc) && Plain(Lines(doc.sourceUrl))
    requires WithSections(doc, ReadLines(UNREAD, BodyLines(doc))) == doc
    ensures SectionsHeadingFree(doc)
  {
    if !SectionsHeadingFree(doc) {
      var t: Section :| t != OriginalLink && !Plain(Lines(Content(doc, t)));
      assert SECTIONS[Position(t)] == t;
      assert HeadingLoss.HeadedBefore(doc, |SECTIONS|);
      var s := HeadingLoss.HeadingIsLost(doc, |SECTIONS|);
      BulletsArePlain(doc.keyTakeaways);
      LostSectionShows(doc, ReadLines(UNREAD, BodyLines(doc)), s);
    }
  }

  lemma LostSectionShows<D>(doc: Document<D>, scan: Scan, s: Section)
    requires s != OriginalLink && s != KeyTakeaways && Gathered(scan, s) != Content(doc, s)
    ensures WithSections(doc, scan) != doc
  {
  }

  lemma LinkAndSections<D>(doc: Document<D>)
    requires SectionsHeadingFree(doc) && Plain(Lines(doc.sourceUrl))
    ensures HeadingFree(doc)
  {
    forall s: Section ensures Plain(Lines(Content(doc, s))) {
      assert s == OriginalLink ==> Content(doc, s) == doc.sourceUrl;
    }
  }

  /**
   Reading a printed report gives the report back exactly when it is in the reader's normal form, its last
   takeaway is not empty, and no line of its sections equals a heading. The only assumption is that the
   address holds no heading line; it is printed under its own heading but read from the frontmatter.
   */
  lemma RoundTrip<D(!new)>(doc: Document<D>, lib: Library<D>)
    requires Lawful(lib) && SchemaValid(doc) && Plain(Lines(doc.sourceUrl))
    ensures Parse(Render(doc, lib), lib) == Report(Parsed(doc, HasAnalysis(doc), {})) <==>
      && Recoverable(doc) && doc.platform == lib.lower(doc.platform) && SectionsHeadingFree(doc)
      && (doc.keyTakeaways != [] ==> doc.keyTakeaways[|doc.keyTakeaways| - 1] != "")
  {
    if Parse(Render(doc, lib), lib) == Report(Parsed(doc, HasAnalysis(doc), {})) {
      AcceptedReportsAreSound(Render(doc, lib), lib);
      PrintedReads(doc, lib);
      ReadBackIsHeadingFree(doc);
    }
    if Recoverable(doc) && doc.platform == lib.lower(doc.platform) && SectionsHeadingFree(doc) {
      LinkAndSections(doc);
      PlainReportsReadBack(doc, lib);
    }
  }
}
