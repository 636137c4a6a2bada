/** Which section each block of parseArticle's document ends up in. The list
    items and the prose of every section are compared, section by section,
    with reference definitions written over the lines: each heading line opens
    an entry, and each item or prose line after it extends the latest entry. */
module Sections {
  import opened Text
  import opened Article

  // ---------------------------------------------------------------------------
  // Reference definitions over the lines
  // ---------------------------------------------------------------------------

  /** `secs` with `x` added at the end of its last entry. */
  function AppendToLast(secs: seq<seq<string>>, x: string): seq<seq<string>>
    requires secs != []
  {
    secs[..|secs| - 1] + [secs[|secs| - 1] + [x]]
  }

  /** One entry per heading line, in order: the items of the list-item lines
      after that heading and before the next one, each with its marker removed
      and trimmed. */
  function ItemsPerHeading(lines: seq<string>, headings: seq<string>): seq<seq<string>>
  {
    if lines == [] then []
    else NextItemsPerHeading(ItemsPerHeading(lines[..|lines| - 1], headings), lines[|lines| - 1], headings)
  }

  function NextItemsPerHeading(secs: seq<seq<string>>, raw: string, headings: seq<string>): seq<seq<string>>
  {
    if IsHeadingLine(raw, headings) then secs + [[]]
    else if IsListItemLine(raw, headings) && secs != [] then AppendToLast(secs, Trim(raw[|ListMarker|..]))
    else secs
  }

  /** One entry per heading line, in order: the trimmed texts of the prose
      lines after that heading and before the next one. */
  function ProsePerHeading(lines: seq<string>, headings: seq<string>): seq<seq<string>>
  {
    if lines == [] then []
    else NextProsePerHeading(ProsePerHeading(lines[..|lines| - 1], headings), lines[|lines| - 1], headings)
  }

  function NextProsePerHeading(secs: seq<seq<string>>, raw: string, headings: seq<string>): seq<seq<string>>
  {
    if IsHeadingLine(raw, headings) then secs + [[]]
    else if IsProseLine(raw, headings) && secs != [] then AppendToLast(secs, LineText(raw))
    else secs
  }

  // ---------------------------------------------------------------------------
  // The same, read off the sections and the parser's buffers
  // ---------------------------------------------------------------------------

  /** The list items of each section, section by section. */
  function ItemsPerSection(sections: seq<Section>): (r: seq<seq<string>>)
    ensures |r| == |sections|
    ensures forall j :: 0 <= j < |sections| ==> r[j] == BlockItems(sections[j].blocks)
  {
    if sections == [] then []
    else ItemsPerSection(sections[..|sections| - 1]) + [BlockItems(sections[|sections| - 1].blocks)]
  }

  /** The paragraph texts of each section, section by section. */
  function TextsPerSection(sections: seq<Section>): (r: seq<seq<string>>)
    ensures |r| == |sections|
    ensures forall j :: 0 <= j < |sections| ==> r[j] == BlockTexts(sections[j].blocks)
  {
    if sections == [] then []
    else TextsPerSection(sections[..|sections| - 1]) + [BlockTexts(sections[|sections| - 1].blocks)]
  }

  /** The items of the current section, the open list's included. */
  function LastItems(st: ParseState): seq<string>
    requires st.sections != []
  {
    BlockItems(st.sections[|st.sections| - 1].blocks) + Pending(st.list)
  }

  /** The texts of the current section, the buffered lines included. */
  function LastTexts(st: ParseState): seq<string>
    requires st.sections != []
  {
    BlockTexts(st.sections[|st.sections| - 1].blocks) + st.paragraph
  }

  /** The items of each section, counting the open list as the current
      section's. */
  function OpenItems(st: ParseState): seq<seq<string>>
  {
    if st.sections == [] then [] else ItemsPerSection(st.sections[..|st.sections| - 1]) + [LastItems(st)]
  }

  /** The texts of each section, counting the buffer as the current
      section's. */
  function OpenTexts(st: ParseState): seq<seq<string>>
  {
    if st.sections == [] then [] else TextsPerSection(st.sections[..|st.sections| - 1]) + [LastTexts(st)]
  }

  /** Two lists of texts that are empty together and join to the same text. */
  predicate JoinEq(a: seq<string>, b: seq<string>)
  {
    (a == [] <==> b == []) && Join(a, " ") == Join(b, " ")
  }

  /** JoinEq entry by entry. */
  predicate AllJoinEq(xss: seq<seq<string>>, yss: seq<seq<string>>)
  {
    |xss| == |yss| && forall j :: 0 <= j < |xss| ==> JoinEq(xss[j], yss[j])
  }

  /** Section by section, the items are `secItems` and the texts join as
      `secProse` does. */
  ghost predicate SectionInv(st: ParseState, secItems: seq<seq<string>>, secProse: seq<seq<string>>)
  {
    OpenItems(st) == secItems && AllJoinEq(OpenTexts(st), secProse)
  }

  // ---------------------------------------------------------------------------
  // Lemmas: sequences of entries
  // ---------------------------------------------------------------------------

  lemma AppendToLastOf(prefix: seq<seq<string>>, last: seq<string>, x: string)
    ensures AppendToLast(prefix + [last], x) == prefix + [last + [x]]
  {
    assert (prefix + [last])[..|prefix|] == prefix;
  }

  /** Replacing the last entry by one that joins the same keeps AllJoinEq. */
  lemma ReplaceLast(prefix: seq<seq<string>>, x: seq<string>, y: seq<string>, refs: seq<seq<string>>)
    requires AllJoinEq(prefix + [x], refs) && JoinEq(y, x)
    ensures AllJoinEq(prefix + [y], refs)
  {
    assert forall j :: 0 <= j < |prefix| ==> (prefix + [y])[j] == (prefix + [x])[j];
  }

  /** Adding the same text to both last entries keeps AllJoinEq. */
  lemma ExtendLast(prefix: seq<seq<string>>, x: seq<string>, refs: seq<seq<string>>, t: string)
    requires AllJoinEq(prefix + [x], refs)
    ensures refs != [] && AllJoinEq(prefix + [x + [t]], AppendToLast(refs, t))
  {
    var n := |prefix|;
    ProseJoin(x, refs[n], t);
    var a, b := prefix + [x + [t]], AppendToLast(refs, t);
    forall j | 0 <= j < |a| ensures JoinEq(a[j], b[j]) {
      if j < n {
        assert a[j] == (prefix + [x])[j] && b[j] == refs[j];
      }
    }
  }

  /** A new empty entry on both sides keeps AllJoinEq. */
  lemma AddEmpty(xss: seq<seq<string>>, yss: seq<seq<string>>)
    requires AllJoinEq(xss, yss)
    ensures AllJoinEq(xss + [[]], yss + [[]])
  {
    assert forall j :: 0 <= j < |xss| ==> (xss + [[]])[j] == xss[j] && (yss + [[]])[j] == yss[j];
  }

  // ---------------------------------------------------------------------------
  // Lemmas: one step of the loop, section by section
  // ---------------------------------------------------------------------------

  /** flushParagraph changes only the current section, and only by the one
      paragraph it emits. */
  lemma FlushParagraphLast(st: ParseState)
    requires st.sections != [] && NonEmptyTrimmed(st.paragraph)
    ensures var f := FlushParagraph(st); var n := |st.sections|;
      && |f.sections| == n && f.sections[..n - 1] == st.sections[..n - 1]
      && BlockItems(f.sections[n - 1].blocks) == BlockItems(st.sections[n - 1].blocks)
      && BlockTexts(f.sections[n - 1].blocks) == BlockTexts(st.sections[n - 1].blocks) + Emitted(st.paragraph)
  {
    FlushParagraphRewrite(st);
    var p := Paragraph(Join(st.paragraph, " "));
    PushToCurrentShape(st.sections, p);
    BlockItemsAppend(st.sections[|st.sections| - 1].blocks, p);
  }

  /** flushList changes only the current section, and only by the list it
      emits. */
  lemma FlushListLast(st: ParseState)
    requires st.sections != []
    ensures var f := FlushList(st); var n := |st.sections|;
      && |f.sections| == n && f.sections[..n - 1] == st.sections[..n - 1]
      && LastItems(f) == LastItems(st) && LastTexts(f) == LastTexts(st)
  {
    var f := FlushList(st);
    var last := st.sections[|st.sections| - 1];
    var b := List(Pending(st.list));
    PushToCurrentShape(st.sections, b);
    BlockItemsAppend(last.blocks, b);
    AppendEmpty(BlockItems(f.sections[|f.sections| - 1].blocks), Pending(f.list));
  }

  /** A boundary keeps the items of every section and the join of its texts. */
  lemma BoundarySections(st: ParseState, secItems: seq<seq<string>>, secProse: seq<seq<string>>)
    requires NonEmptyTrimmed(st.paragraph) && SectionInv(st, secItems, secProse)
    ensures SectionInv(Boundary(st), secItems, secProse)
  {
    if st.sections != [] {
      var f := FlushParagraph(st);
      var last := st.sections[|st.sections| - 1];
      FlushParagraphLast(st);
      FlushParagraphFacts(st);
      FlushListLast(f);
      AppendEmpty(BlockTexts(f.sections[|f.sections| - 1].blocks), f.paragraph);
      EmittedJoin(BlockTexts(last.blocks), st.paragraph);
      ReplaceLast(TextsPerSection(st.sections[..|st.sections| - 1]), LastTexts(st), LastTexts(Boundary(st)), secProse);
    }
  }

  /** With both buffers empty, the open view is the sections themselves. */
  lemma ClosedView(st: ParseState)
    requires st.paragraph == [] && st.list == None
    ensures OpenItems(st) == ItemsPerSection(st.sections)
    ensures OpenTexts(st) == TextsPerSection(st.sections)
  {
    if st.sections != [] {
      AppendEmpty(BlockItems(st.sections[|st.sections| - 1].blocks), Pending(st.list));
      AppendEmpty(BlockTexts(st.sections[|st.sections| - 1].blocks), st.paragraph);
    }
  }

  /** A heading adds one empty entry after those of the boundary before it. */
  lemma HeadingSections(st: ParseState, secItems: seq<seq<string>>, secProse: seq<seq<string>>, t: string)
    requires BuffersInv(st) && SectionInv(st, secItems, secProse)
    ensures SectionInv(EnsureSection(st, t), secItems + [[]], secProse + [[]])
  {
    var b := Boundary(st);
    var e := EnsureSection(st, t);
    BoundarySections(st, secItems, secProse);
    BoundaryBuffers(st);
    ClosedView(b);
    assert e.sections[..|e.sections| - 1] == b.sections;
    AppendEmpty(BlockItems([]), Pending(e.list));
    AppendEmpty(BlockTexts([]), e.paragraph);
    AddEmpty(OpenTexts(b), secProse);
  }

  /** An item line after a heading adds its item to the current section's. */
  lemma ItemSections(st: ParseState, secItems: seq<seq<string>>, secProse: seq<seq<string>>, item: string)
    requires BuffersInv(st) && SectionInv(st, secItems, secProse) && st.sections != []
    ensures secItems != [] && SectionInv(AddItem(st, item), AppendToLast(secItems, item), secProse)
  {
    var a := AddItem(st, item);
    var n := |st.sections|;
    var last := st.sections[n - 1];
    AddItemShape(st, item);
    AppendAssoc(BlockItems(last.blocks), Pending(st.list), [item]);
    AppendToLastOf(ItemsPerSection(st.sections[..n - 1]), LastItems(st), item);
    if st.list.None? {
      FlushParagraphLast(st);
      AppendEmpty(BlockItems(last.blocks), Pending(st.list));
      AppendEmpty(BlockTexts(a.sections[n - 1].blocks), a.paragraph);
      EmittedJoin(BlockTexts(last.blocks), st.paragraph);
      ReplaceLast(TextsPerSection(st.sections[..n - 1]), LastTexts(st), LastTexts(a), secProse);
    }
  }

  /** A prose line after a heading adds its text to the current section's. */
  lemma ProseSections(st: ParseState, secItems: seq<seq<string>>, secProse: seq<seq<string>>, t: string)
    requires SectionInv(st, secItems, secProse) && st.sections != []
    ensures secProse != [] && SectionInv(AddProse(st, t), secItems, AppendToLast(secProse, t))
  {
    var n := |st.sections|;
    AppendAssoc(BlockTexts(st.sections[n - 1].blocks), st.paragraph, [t]);
    ExtendLast(TextsPerSection(st.sections[..n - 1]), LastTexts(st), secProse, t);
  }

  /** Before any section is open the entries stay empty whatever the line. */
  lemma NoSectionYet(st: ParseState, raw: string, headings: seq<string>)
    requires BuffersInv(st) && st.sections == [] && !IsHeadingLine(raw, headings)
    ensures Step(st, raw, headings).sections == []
  {
    BoundaryShape(st, [], [], []);
    if Classify(raw, headings).ItemLine? {
      AddItemShape(st, Classify(raw, headings).item);
      FlushParagraphFacts(st);
    }
  }

  /** One step of the loop keeps SectionInv, with what that line adds to the
      entries. */
  lemma SectionStepKeeps(st: ParseState, secItems: seq<seq<string>>, secProse: seq<seq<string>>, raw: string, headings: seq<string>)
    requires BuffersInv(st) && SectionInv(st, secItems, secProse)
    ensures SectionInv(Step(st, raw, headings), NextItemsPerHeading(secItems, raw, headings),
                       NextProsePerHeading(secProse, raw, headings))
  {
    var k := Classify(raw, headings);
    if k.HeadingLine? {
      HeadingSections(st, secItems, secProse, k.heading);
    } else if st.sections == [] {
      NoSectionYet(st, raw, headings);
    } else if k.Blank? {
      BoundarySections(st, secItems, secProse);
    } else if k.ItemLine? {
      ItemSections(st, secItems, secProse, k.item);
    } else {
      ProseSections(st, secItems, secProse, k.text);
    }
  }

  /** The loop keeps SectionInv over every prefix of the lines. */
  lemma {:induction false} RunSections(lines: seq<string>, headings: seq<string>)
    ensures SectionInv(Run(lines, headings), ItemsPerHeading(lines, headings), ProsePerHeading(lines, headings))
  {
    if lines != [] {
      var init := lines[..|lines| - 1];
      RunSections(init, headings);
      RunInvariant(init, headings);
      SectionStepKeeps(Run(init, headings), ItemsPerHeading(init, headings), ProsePerHeading(init, headings),
                       lines[|lines| - 1], headings);
    }
  }

  // ---------------------------------------------------------------------------
  // The document parseArticle returns
  // ---------------------------------------------------------------------------

  /** With at least one heading line, section j holds exactly the items of the
      list-item lines between heading j and the next heading, in order, and
      its paragraph texts join to those of the prose lines between them. */
  lemma ParseSectionContent(raw: string, headings: seq<string>)
    ensures var lines := Split(raw, '\n'); var doc := Parse(raw, headings);
      HeadingTitles(lines, headings) != [] ==>
        && ItemsPerSection(doc.sections) == ItemsPerHeading(lines, headings)
        && AllJoinEq(TextsPerSection(doc.sections), ProsePerHeading(lines, headings))
  {
    var lines := Split(raw, '\n');
    var st := Run(lines, headings);
    RunSections(lines, headings);
    RunInvariant(lines, headings);
    FinishIsBoundary(st);
    BoundarySections(st, ItemsPerHeading(lines, headings), ProsePerHeading(lines, headings));
    ParseShape(raw, headings);
    ClosedView(Finish(st));
  }
}
