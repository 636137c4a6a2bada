/** Properties of parseArticle that are about single situations rather than
    the whole document: the order of the flushes, what happens to content
    before the first heading, and the order in which lines are classified. */
module Properties {
  import opened Text
  import opened Article

  /** With a section open, buffered prose and an open list, a boundary emits
      the paragraph first and the list after it, both into the current
      section, and touches no other section. */
  lemma FlushOrder(st: ParseState)
    requires st.sections != [] && st.paragraph != [] && NonEmptyTrimmed(st.paragraph)
    requires st.list.Some? && st.list.value != []
    ensures var n := |st.sections|; var r := Boundary(st).sections; var last := st.sections[n - 1];
      && |r| == n && r[..n - 1] == st.sections[..n - 1]
      && r[n - 1] == Section(last.title, last.blocks + [Paragraph(Join(st.paragraph, " ")), List(st.list.value)])
    ensures Boundary(st).paragraph == [] && Boundary(st).list == None
  {
    var n := |st.sections|;
    var last := st.sections[n - 1];
    var para := Paragraph(Join(st.paragraph, " "));
    FlushParagraphRewrite(st);
    var p := PushToCurrent(st.sections, para);
    PushToCurrentShape(st.sections, para);
    PushToCurrentShape(p, List(st.list.value));
    assert last.blocks + [para] + [List(st.list.value)] == last.blocks + [para, List(st.list.value)];
  }

  /** Before any section is open a boundary keeps nothing: whatever was
      buffered is dropped and the state is the initial one again. */
  lemma BoundaryBeforeFirstHeading(st: ParseState)
    requires st.sections == []
    ensures Boundary(st) == Init()
  {
    assert PushToCurrent([], Paragraph(ParagraphText(st.paragraph))) == [];
  }

  /** Before any section is open the first heading starts from a clean state:
      its section is the only one, has no blocks, and no buffer survives. */
  lemma FirstHeadingDropsBuffers(st: ParseState, heading: string)
    requires st.sections == []
    ensures EnsureSection(st, heading) == ParseState([Section(heading, [])], [], None)
  {
    BoundaryBeforeFirstHeading(st);
  }

  /** The heading test comes before the list-item test: an indented item line
      whose text is a known heading opens a section instead. */
  lemma HeadingBeatsListItem(raw: string, headings: seq<string>)
    requires StartsWith(raw, ListMarker)
    requires Trim(raw[|ListMarker|..]) != [] && Trim(raw[|ListMarker|..]) in headings
    ensures Classify(raw, headings) == HeadingLine(Trim(raw[|ListMarker|..]))
    ensures !IsListItemLine(raw, headings)
  {
    assert raw[0] == ListMarker[0] != DashMarker[0];
    TrimAfterTrimEnd(raw[|ListMarker|..]);
  }

  /** The line "    - Conclusion" opens the section "Conclusion". */
  lemma IndentedConclusionIsHeading()
    ensures Classify("    - Conclusion", KnownHeadings) == HeadingLine("Conclusion")
  {
    var raw := "    - Conclusion";
    assert raw[|ListMarker|..] == "Conclusion";
    TrimOfTrimmed("Conclusion");
    HeadingBeatsListItem(raw, KnownHeadings);
  }

  /** A trimmed table entry that starts with neither dash marker, written
      alone on a line, opens its own section. */
  lemma HeadingLineOpens(h: string, headings: seq<string>)
    requires h != [] && Trimmed(h) && h in headings
    requires !StartsWith(h, DashMarker) && !StartsWith(h, ListMarker)
    ensures Classify(h, headings) == HeadingLine(h)
  {
    TrimOfTrimmed(h);
  }

  /** A figure label is buffered exactly like any other prose line. */
  lemma FigureLikeProse(st: ParseState, raw: string, headings: seq<string>)
    requires IsProseLine(raw, headings)
    ensures Step(st, raw, headings) == AddProse(st, LineText(raw))
    ensures Step(st, raw, headings).list == st.list && Step(st, raw, headings).sections == st.sections
  {
  }
}
