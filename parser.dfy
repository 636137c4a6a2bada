/** parseArticle as the source writes it: a loop over the cleaned lines that
    updates the parser's mutable state in place through flushParagraph,
    flushList and ensureSection. Each method is proved against the step
    functions of module Article, and the whole loop against Article.Parse. */
module Parser {
  import opened Text
  import opened Article
  import opened Sections

  /** The variables parseArticle's closures share: the sections array, the
      paragraph buffer and the list buffer (None for null). The section
      `current` points to is always the last one pushed, so it is not a field
      of its own. */
  class ParserState {
    var sections: seq<Section>
    var paragraphBuffer: seq<string>
    var listBuffer: Option<seq<string>>

    function State(): ParseState
      reads this
    {
      ParseState(sections, paragraphBuffer, listBuffer)
    }

    constructor ()
      ensures State() == Init()
    {
      sections := [];
      paragraphBuffer := [];
      listBuffer := None;
    }

    /** flushParagraph: the buffered lines, trimmed, joined with single spaces
        and trimmed again, become a paragraph of the current section when the
        text is not empty; the buffer is cleared either way. */
    method FlushParagraph()
      modifies this
      ensures State() == Article.FlushParagraph(old(State()))
    {
      var text := Trim(Join(TrimAll(paragraphBuffer), " "));
      if text != [] && sections != [] {
        var current := sections[|sections| - 1];
        sections := sections[..|sections| - 1] + [Section(current.title, current.blocks + [Paragraph(text)])];
      }
      paragraphBuffer := [];
    }

    /** flushList: an open, non-empty list becomes a list block of the current
        section; the list buffer is closed either way. */
    method FlushList()
      modifies this
      ensures State() == Article.FlushList(old(State()))
    {
      if listBuffer.Some? && |listBuffer.value| > 0 && sections != [] {
        var current := sections[|sections| - 1];
        sections := sections[..|sections| - 1] + [Section(current.title, current.blocks + [List(listBuffer.value)])];
      }
      listBuffer := None;
    }

    /** ensureSection: both buffers flushed, then a new empty section titled
        `heading` is pushed and becomes current. */
    method EnsureSection(heading: string)
      modifies this
      ensures State() == Article.EnsureSection(old(State()), heading)
    {
      FlushParagraph();
      FlushList();
      sections := sections + [Section(heading, [])];
    }

    /** The body of parseArticle's loop for one line: `line` is its cleaned
        form, `rawLine` the line as split. The tests come in the source's
        order: blank, known heading, indented list item, figure label, prose. */
    method ProcessLine(rawLine: string, line: string, headings: seq<string>)
      requires line == CleanLine(rawLine)
      modifies this
      ensures State() == Step(old(State()), rawLine, headings)
    {
      var t := Trim(line);

      if |t| == 0 {
        FlushParagraph();
        FlushList();
        return;
      }

      if t in headings {
        EnsureSection(t);
        return;
      }

      if StartsWith(rawLine, ListMarker) {
        var item := Trim(StripDashPrefix(rawLine));
        if listBuffer.None? {
          FlushParagraph();
          listBuffer := Some([]);
        }
        listBuffer := Some(listBuffer.value + [item]);
        return;
      }

      if IsFigureLabel(t) {
        paragraphBuffer := paragraphBuffer + [t];
        return;
      }

      paragraphBuffer := paragraphBuffer + [t];
    }
  }

  /** parseArticle with the heading table as a parameter. */
  method ParseArticle(raw: string, headings: seq<string>) returns (doc: Document)
    ensures doc == Parse(raw, headings)
    ensures |doc.sections| >= 1
    ensures HeadingTitles(Split(raw, '\n'), headings) != [] ==> Titles(doc.sections) == HeadingTitles(Split(raw, '\n'), headings)
    ensures WellFormedSections(doc.sections)
    ensures AllItems(doc.sections) == ItemsAfterHeading(Split(raw, '\n'), headings)
    ensures Join(AllTexts(doc.sections), " ") == Join(ProseAfterHeading(Split(raw, '\n'), headings), " ")
    ensures HeadingTitles(Split(raw, '\n'), headings) != [] ==>
      && ItemsPerSection(doc.sections) == ItemsPerHeading(Split(raw, '\n'), headings)
      && AllJoinEq(TextsPerSection(doc.sections), ProsePerHeading(Split(raw, '\n'), headings))
  {
    var lines := Split(raw, '\n');
    var cleaned := Clean(lines);

    var title := DefaultTitle;
    var firstNonEmpty := FirstNonBlank(cleaned);
    if firstNonEmpty.Some? {
      title := Trim(cleaned[firstNonEmpty.value]);
    }
    assert title == Title(cleaned);

    var p := new ParserState();
    for i := 0 to |cleaned|
      invariant p.State() == Run(lines[..i], headings)
    {
      RunStep(lines, i, headings);
      p.ProcessLine(lines[i], cleaned[i], headings);
    }
    AllOfLines(lines);

    if |p.paragraphBuffer| > 0 {
      p.FlushParagraph();
    }
    if p.listBuffer.Some? {
      p.FlushList();
    }
    assert p.State() == Finish(Run(lines, headings));

    if |p.sections| == 0 {
      // sections is empty here, so pushing the fallback section makes it the only one
      var buffer := p.paragraphBuffer;
      var blocks := if |buffer| > 0 then [Paragraph(Join(buffer, " "))] else [];
      p.sections := [Section(title, blocks)];
    }

    ParseShape(raw, headings);
    doc := Document(title, p.sections);
    assert doc.title == Parse(raw, headings).title && doc.sections == Parse(raw, headings).sections;
    ParseSections(raw, headings);
    ParseWellFormed(raw, headings);
    ParseItems(raw, headings);
    ParseProse(raw, headings);
    ParseSectionContent(raw, headings);
  }
}
