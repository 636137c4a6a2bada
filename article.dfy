/** The article model of app/page.tsx: the block, section and document
    values, the line classification parseArticle applies, and one step of its
    main loop as a function on the parser's accumulation state. The loop itself
    is in module Parser; this module states and proves what the loop computes. */
module Article {
  import opened Text

  datatype Option<T> = None | Some(value: T)

  /** ArticleBlock. The heading variant is part of the type; the parser never
      produces it (see WellFormedBlock). */
  datatype Block =
    | Heading(text: string)
    | Paragraph(text: string)
    | List(items: seq<string>)

  /** ArticleSection. */
  datatype Section = Section(title: string, blocks: seq<Block>)

  /** What parseArticle returns. */
  datatype Document = Document(title: string, sections: seq<Section>)

  /** KNOWN_HEADINGS: the lines that open a section. */
  const KnownHeadings: seq<string> := [
    "Understanding LLMs and Multimodal AI: Generating Accurate Responses to Prompts",
    "Processing Text Prompts with Transformers (Tokenization, Embeddings & Attention)",
    "Training LLMs: From Massive Datasets to Fine-Tuning and RLHF",
    "How LLMs Achieve Accuracy and Relevance in Responses",
    "From Unimodal to Multimodal: Integrating Text, Images, Audio, and More",
    "Generative AI Across Modalities: Examples",
    "Conclusion",
    "Sources:"
  ]

  const DefaultTitle: string := "Article"
  const DashMarker: string := "- "
  const ListMarker: string := "    - "
  const FigurePrefix: string := "figure:"

  // ---------------------------------------------------------------------------
  // Preprocessing
  // ---------------------------------------------------------------------------

  /** stripDashPrefix: one "- " or one "    - " marker dropped from the front;
      any other line unchanged. The result is always a suffix of the line. */
  function StripDashPrefix(line: string): (r: string)
    ensures StartsWith(line, DashMarker) ==> line == DashMarker + r
    ensures StartsWith(line, ListMarker) ==> line == ListMarker + r
    ensures !StartsWith(line, DashMarker) && !StartsWith(line, ListMarker) ==> r == line
    ensures |r| <= |line| && r == line[|line| - |r|..]
  {
    if StartsWith(line, DashMarker) then
      assert line[0] == '-';
      line[|DashMarker|..]
    else if StartsWith(line, ListMarker) then line[|ListMarker|..]
    else line
  }

  /** The cleaned form of a raw line: marker stripped, then trimEnd. */
  function CleanLine(raw: string): string
  {
    TrimEnd(StripDashPrefix(raw))
  }

  function Clean(lines: seq<string>): (cleaned: seq<string>)
    ensures |cleaned| == |lines|
    ensures forall i :: 0 <= i < |lines| ==> cleaned[i] == CleanLine(lines[i])
  {
    seq(|lines|, i requires 0 <= i < |lines| => CleanLine(lines[i]))
  }

  /** The text a line is classified by: its cleaned form, trimmed. */
  function LineText(raw: string): string
  {
    Trim(CleanLine(raw))
  }

  /** Cleaning strips the marker, then removes exactly the trailing whitespace:
      the cleaned line is a prefix of the stripped line, what is cut off is all
      whitespace, and the cleaned line does not end in whitespace. */
  lemma CleanLineSpec(raw: string)
    ensures var s, c := StripDashPrefix(raw), CleanLine(raw);
      && |c| <= |s| && s == c + s[|c|..] && AllSpace(s[|c|..])
      && (c == [] || !IsSpace(c[|c| - 1]))
  {
    TrimEndSpec(StripDashPrefix(raw));
  }

  /** The text a line is classified by has whitespace at neither end, and is
      empty exactly when the cleaned line is all whitespace. */
  lemma LineTextSpec(raw: string)
    ensures Trimmed(LineText(raw))
    ensures LineText(raw) == [] <==> AllSpace(CleanLine(raw))
  {
    TrimSpec(CleanLine(raw));
  }

  /** Line k is the first cleaned line that is not all whitespace. */
  predicate FirstNonBlankAt(cleaned: seq<string>, k: int)
  {
    0 <= k < |cleaned| && Trim(cleaned[k]) != [] && forall j :: 0 <= j < k ==> Trim(cleaned[j]) == []
  }

  /** cleaned.find(l => l.trim().length > 0), as the position of the line it
      finds: the first cleaned line that is not all whitespace, if any. */
  function FirstNonBlank(cleaned: seq<string>): (r: Option<nat>)
    ensures r.None? <==> forall i :: 0 <= i < |cleaned| ==> Trim(cleaned[i]) == []
    ensures r.Some? ==> FirstNonBlankAt(cleaned, r.value)
  {
    if cleaned == [] then None
    else if Trim(cleaned[0]) != [] then Some(0)
    else
      var r := FirstNonBlank(cleaned[1..]);
      FirstNonBlankShift(cleaned);
      if r.Some? then Some(r.value + 1) else None
  }

  lemma FirstNonBlankShift(cleaned: seq<string>)
    requires cleaned != [] && Trim(cleaned[0]) == []
    ensures forall k :: FirstNonBlankAt(cleaned[1..], k) ==> FirstNonBlankAt(cleaned, k + 1)
    ensures (forall i :: 0 <= i < |cleaned| ==> Trim(cleaned[i]) == []) <==>
      (forall i :: 0 <= i < |cleaned[1..]| ==> Trim(cleaned[1..][i]) == [])
  {
    var tail := cleaned[1..];
    forall k | FirstNonBlankAt(tail, k) ensures FirstNonBlankAt(cleaned, k + 1) {
      assert cleaned[k + 1] == tail[k];
      forall j | 0 <= j < k + 1 ensures Trim(cleaned[j]) == [] {
        if j > 0 { assert cleaned[j] == tail[j - 1]; }
      }
    }
    if forall i :: 0 <= i < |tail| ==> Trim(tail[i]) == [] {
      forall i | 0 <= i < |cleaned| ensures Trim(cleaned[i]) == [] {
        if i > 0 { assert cleaned[i] == tail[i - 1]; }
      }
    }
  }

  /** The document title: the first non-blank cleaned line, trimmed, or
      "Article" when every line is blank. Never empty. */
  function Title(cleaned: seq<string>): (title: string)
    ensures title != []
    ensures (forall i :: 0 <= i < |cleaned| ==> Trim(cleaned[i]) == []) ==> title == DefaultTitle
    ensures forall k :: FirstNonBlankAt(cleaned, k) ==> title == Trim(cleaned[k])
  {
    match FirstNonBlank(cleaned)
    case Some(k) => Trim(cleaned[k])
    case None => DefaultTitle
  }

  // ---------------------------------------------------------------------------
  // Line classification
  // ---------------------------------------------------------------------------

  function LowerAscii(c: char): char
  {
    if 'A' <= c <= 'Z' then (c as int - 'A' as int + 'a' as int) as char else c
  }

  /** /^Figure:/i: the text starts with "Figure:" in any letter case. */
  predicate IsFigureLabel(t: string)
  {
    |FigurePrefix| <= |t| && forall i :: 0 <= i < |FigurePrefix| ==> LowerAscii(t[i]) == FigurePrefix[i]
  }

  /** A line that opens a section: its text is exactly a known heading. */
  predicate IsHeadingLine(raw: string, headings: seq<string>)
  {
    LineText(raw) != [] && LineText(raw) in headings
  }

  /** A line that adds a list item: not blank, not a heading, and the RAW line
      starts with the four-space-indented marker. */
  predicate IsListItemLine(raw: string, headings: seq<string>)
  {
    LineText(raw) != [] && LineText(raw) !in headings && StartsWith(raw, ListMarker)
  }

  /** A line that is buffered as paragraph text: any other non-blank line. */
  predicate IsProseLine(raw: string, headings: seq<string>)
  {
    LineText(raw) != [] && LineText(raw) !in headings && !StartsWith(raw, ListMarker)
  }

  datatype LineKind =
    | Blank
    | HeadingLine(heading: string)
    | ItemLine(item: string)
    | FigureLine(text: string)
    | ProseLine(text: string)

  /** The branch parseArticle's loop body takes for one line, tested in the
      source's order: blank, known heading, indented list item, figure label,
      anything else. */
  function Classify(raw: string, headings: seq<string>): (k: LineKind)
    ensures k.Blank? <==> LineText(raw) == []
    ensures k.HeadingLine? <==> IsHeadingLine(raw, headings)
    ensures k.ItemLine? <==> IsListItemLine(raw, headings)
    ensures k.FigureLine? || k.ProseLine? <==> IsProseLine(raw, headings)
    ensures k.FigureLine? <==> IsProseLine(raw, headings) && IsFigureLabel(LineText(raw))
    ensures k.HeadingLine? ==> k.heading == LineText(raw)
    ensures k.ItemLine? ==> k.item == LineText(raw) == Trim(raw[|ListMarker|..])
    ensures k.FigureLine? || k.ProseLine? ==> k.text == LineText(raw)
  {
    var t := LineText(raw);
    if t == [] then Blank
    else if t in headings then HeadingLine(t)
    else if StartsWith(raw, ListMarker) then
      TrimAfterTrimEnd(StripDashPrefix(raw));
      ItemLine(Trim(StripDashPrefix(raw)))
    else if IsFigureLabel(t) then FigureLine(t)
    else ProseLine(t)
  }

  // ---------------------------------------------------------------------------
  // The parser's accumulation state and one step of its loop
  // ---------------------------------------------------------------------------

  /** The sections pushed so far (the section `current` refers to is the last
      one: each section is pushed when it becomes current), the pending
      paragraph lines, and the pending list (None when no list is open). */
  datatype ParseState = ParseState(sections: seq<Section>, paragraph: seq<string>, list: Option<seq<string>>)

  function Init(): ParseState
  {
    ParseState([], [], None)
  }

  /** current?.blocks.push(b): appends to the last section; pushed nowhere when
      no section has been opened. */
  function PushToCurrent(sections: seq<Section>, b: Block): seq<Section>
  {
    if sections == [] then []
    else
      var last := sections[|sections| - 1];
      sections[..|sections| - 1] + [Section(last.title, last.blocks + [b])]
  }

  function TrimAll(lines: seq<string>): seq<string>
  {
    seq(|lines|, i requires 0 <= i < |lines| => Trim(lines[i]))
  }

  /** The text flushParagraph emits: the buffered lines trimmed, joined with
      single spaces, trimmed again. */
  function ParagraphText(buffer: seq<string>): string
  {
    Trim(Join(TrimAll(buffer), " "))
  }

  /** flushParagraph. */
  function FlushParagraph(st: ParseState): ParseState
  {
    var text := ParagraphText(st.paragraph);
    st.(sections := if text != [] then PushToCurrent(st.sections, Paragraph(text)) else st.sections,
        paragraph := [])
  }

  /** flushList. */
  function FlushList(st: ParseState): ParseState
  {
    st.(sections := if st.list.Some? && |st.list.value| > 0 then PushToCurrent(st.sections, List(st.list.value))
                     else st.sections,
        list := None)
  }

  /** A boundary: flushParagraph, then flushList. */
  function Boundary(st: ParseState): ParseState
  {
    FlushList(FlushParagraph(st))
  }

  /** ensureSection. */
  function EnsureSection(st: ParseState, heading: string): ParseState
  {
    var flushed := Boundary(st);
    flushed.(sections := flushed.sections + [Section(heading, [])])
  }

  /** An indented list item: a list is opened, after flushing the paragraph
      buffer, only when none is open; the item is appended to it. */
  function AddItem(st: ParseState, item: string): ParseState
  {
    var withList := if st.list.None? then FlushParagraph(st).(list := Some([])) else st;
    withList.(list := Some(withList.list.value + [item]))
  }

  /** A prose or figure-label line: appended to the paragraph buffer; an open
      list stays open. */
  function AddProse(st: ParseState, t: string): ParseState
  {
    st.(paragraph := st.paragraph + [t])
  }

  /** One iteration of the loop over the lines. */
  function Step(st: ParseState, raw: string, headings: seq<string>): ParseState
  {
    match Classify(raw, headings)
    case Blank => Boundary(st)
    case HeadingLine(t) => EnsureSection(st, t)
    case ItemLine(item) => AddItem(st, item)
    case FigureLine(t) => AddProse(st, t)
    case ProseLine(t) => AddProse(st, t)
  }

  /** The state after the loop has processed `lines`, in order. */
  function Run(lines: seq<string>, headings: seq<string>): ParseState
  {
    if lines == [] then Init()
    else Step(Run(lines[..|lines| - 1], headings), lines[|lines| - 1], headings)
  }

  /** The flushes after the loop. */
  function Finish(st: ParseState): ParseState
  {
    var s := if |st.paragraph| > 0 then FlushParagraph(st) else st;
    if s.list.Some? then FlushList(s) else s
  }

  /** parseArticle, as a function of the raw text and the heading table. */
  function Parse(raw: string, headings: seq<string>): Document
  {
    var lines := Split(raw, '\n');
    var title := Title(Clean(lines));
    var st := Finish(Run(lines, headings));
    var sections :=
      if |st.sections| == 0 then
        [Section(title, if |st.paragraph| > 0 then [Paragraph(Join(st.paragraph, " "))] else [])]
      else st.sections;
    Document(title, sections)
  }

  // ---------------------------------------------------------------------------
  // Reference definitions of what the document should contain
  // ---------------------------------------------------------------------------

  /** The texts of the heading lines, in order. */
  function HeadingTitles(lines: seq<string>, headings: seq<string>): seq<string>
  {
    if lines == [] then []
    else NextTitles(HeadingTitles(lines[..|lines| - 1], headings), lines[|lines| - 1], headings)
  }

  /** The item texts of the list-item lines that come after some heading line:
      each the raw line with the marker removed, trimmed. */
  function ItemsAfterHeading(lines: seq<string>, headings: seq<string>): seq<string>
  {
    if lines == [] then []
    else
      var init := lines[..|lines| - 1];
      NextItems(ItemsAfterHeading(init, headings), HeadingTitles(init, headings), lines[|lines| - 1], headings)
  }

  /** The trimmed texts of the prose lines (figure labels included) that come
      after some heading line. */
  function ProseAfterHeading(lines: seq<string>, headings: seq<string>): seq<string>
  {
    if lines == [] then []
    else
      var init := lines[..|lines| - 1];
      NextProse(ProseAfterHeading(init, headings), HeadingTitles(init, headings), lines[|lines| - 1], headings)
  }

  /** A heading line adds its text to the titles. */
  function NextTitles(titles: seq<string>, raw: string, headings: seq<string>): seq<string>
  {
    if IsHeadingLine(raw, headings) then titles + [LineText(raw)] else titles
  }

  /** A list-item line after some heading adds its item. */
  function NextItems(items: seq<string>, titles: seq<string>, raw: string, headings: seq<string>): seq<string>
  {
    if IsListItemLine(raw, headings) && titles != [] then items + [Trim(raw[|ListMarker|..])] else items
  }

  /** A prose line after some heading adds its trimmed text. */
  function NextProse(prose: seq<string>, titles: seq<string>, raw: string, headings: seq<string>): seq<string>
  {
    if IsProseLine(raw, headings) && titles != [] then prose + [LineText(raw)] else prose
  }

  function Titles(sections: seq<Section>): (titles: seq<string>)
    ensures |titles| == |sections|
    ensures forall i :: 0 <= i < |sections| ==> titles[i] == sections[i].title
  {
    seq(|sections|, i requires 0 <= i < |sections| => sections[i].title)
  }

  function BlockItems(blocks: seq<Block>): seq<string>
  {
    if blocks == [] then []
    else
      var b := blocks[|blocks| - 1];
      if b.List? then BlockItems(blocks[..|blocks| - 1]) + b.items else BlockItems(blocks[..|blocks| - 1])
  }

  /** Every list item of the document, in reading order. */
  function AllItems(sections: seq<Section>): seq<string>
  {
    if sections == [] then []
    else AllItems(sections[..|sections| - 1]) + BlockItems(sections[|sections| - 1].blocks)
  }

  function BlockTexts(blocks: seq<Block>): seq<string>
  {
    if blocks == [] then []
    else
      var b := blocks[|blocks| - 1];
      if b.Paragraph? then BlockTexts(blocks[..|blocks| - 1]) + [b.text] else BlockTexts(blocks[..|blocks| - 1])
  }

  /** Every paragraph text of the document, in reading order. */
  function AllTexts(sections: seq<Section>): seq<string>
  {
    if sections == [] then []
    else AllTexts(sections[..|sections| - 1]) + BlockTexts(sections[|sections| - 1].blocks)
  }

  function Pending(list: Option<seq<string>>): seq<string>
  {
    if list.Some? then list.value else []
  }

  predicate NonEmptyTrimmed(xs: seq<string>)
  {
    forall i :: 0 <= i < |xs| ==> xs[i] != [] && Trimmed(xs[i])
  }

  /** A block the parser may emit: a paragraph with non-empty trimmed text, or
      a list of at least one item, every item non-empty and trimmed. */
  predicate WellFormedBlock(b: Block)
  {
    match b
    case Heading(_) => false
    case Paragraph(text) => text != [] && Trimmed(text)
    case List(items) => items != [] && NonEmptyTrimmed(items)
  }

  predicate WellFormedSections(sections: seq<Section>)
  {
    forall i, j :: 0 <= i < |sections| && 0 <= j < |sections[i].blocks| ==> WellFormedBlock(sections[i].blocks[j])
  }

  /** Every list item emitted into the sections so far, then the open list's. */
  function Items(st: ParseState): seq<string>
  {
    AllItems(st.sections) + Pending(st.list)
  }

  /** Every paragraph text emitted so far, then the buffered lines. */
  function Texts(st: ParseState): seq<string>
  {
    AllTexts(st.sections) + st.paragraph
  }

  /** The sections are exactly the heading titles seen, in order; before the
      first heading nothing has been kept. */
  ghost predicate ShapeInv(st: ParseState, titles: seq<string>, items: seq<string>, prose: seq<string>)
  {
    && Titles(st.sections) == titles
    && (st.sections == [] ==> items == [] && prose == [])
  }

  /** Every emitted block is well formed; the buffers hold non-empty trimmed
      text and an open list is never empty. */
  ghost predicate BuffersInv(st: ParseState)
  {
    && WellFormedSections(st.sections)
    && NonEmptyTrimmed(st.paragraph)
    && (st.list.Some? ==> st.list.value != [] && NonEmptyTrimmed(st.list.value))
  }

  /** Once a section is open, the items emitted and pending are `items`. */
  ghost predicate ItemsInv(st: ParseState, items: seq<string>)
  {
    st.sections != [] ==> Items(st) == items
  }

  /** Once a section is open, the texts emitted and pending are `prose`, as
      far as their single-space join shows. */
  ghost predicate ProseInv(st: ParseState, prose: seq<string>)
  {
    st.sections != [] ==> (Texts(st) == [] <==> prose == []) && Join(Texts(st), " ") == Join(prose, " ")
  }

  /** What holds of the parser's state once it has seen the heading titles
      `titles`, and the list items `items` and prose `prose` that follow the
      first heading. */
  ghost predicate StateInv(st: ParseState, titles: seq<string>, items: seq<string>, prose: seq<string>)
  {
    ShapeInv(st, titles, items, prose) && BuffersInv(st) && ItemsInv(st, items) && ProseInv(st, prose)
  }

  /** StateInv for the state after the loop has processed `lines`. */
  ghost predicate RunInv(st: ParseState, lines: seq<string>, headings: seq<string>)
  {
    StateInv(st, HeadingTitles(lines, headings), ItemsAfterHeading(lines, headings), ProseAfterHeading(lines, headings))
  }

  // ---------------------------------------------------------------------------
  // Lemmas: the buffers and their flushes
  // ---------------------------------------------------------------------------

  /** A buffer of non-empty trimmed lines flushes to exactly their join with
      single spaces, which is empty only when the buffer is. */
  lemma ParagraphTextOfBuffer(buffer: seq<string>)
    requires NonEmptyTrimmed(buffer)
    ensures ParagraphText(buffer) == Join(buffer, " ")
    ensures ParagraphText(buffer) == [] <==> buffer == []
    ensures Trimmed(ParagraphText(buffer))
  {
    forall i | 0 <= i < |buffer| ensures Trim(buffer[i]) == buffer[i] {
      TrimOfTrimmed(buffer[i]);
    }
    assert TrimAll(buffer) == buffer;
    if buffer != [] {
      JoinEnds(buffer, " ");
      TrimOfTrimmed(Join(buffer, " "));
    }
  }

  lemma {:induction false} BlockItemsAppend(blocks: seq<Block>, b: Block)
    ensures BlockItems(blocks + [b]) == if b.List? then BlockItems(blocks) + b.items else BlockItems(blocks)
    ensures BlockTexts(blocks + [b]) == if b.Paragraph? then BlockTexts(blocks) + [b.text] else BlockTexts(blocks)
  {
    assert (blocks + [b])[..|blocks|] == blocks;
  }

  /** Appending to the open section adds the block's content at the end of
      the document and changes no title; with no section open nothing
      changes. */
  lemma PushToCurrentFacts(sections: seq<Section>, b: Block)
    ensures |PushToCurrent(sections, b)| == |sections|
    ensures Titles(PushToCurrent(sections, b)) == Titles(sections)
    ensures sections != [] ==> AllItems(PushToCurrent(sections, b)) == (if b.List? then AllItems(sections) + b.items else AllItems(sections))
    ensures sections != [] ==> AllTexts(PushToCurrent(sections, b)) == (if b.Paragraph? then AllTexts(sections) + [b.text] else AllTexts(sections))
    ensures WellFormedSections(sections) && WellFormedBlock(b) ==> WellFormedSections(PushToCurrent(sections, b))
  {
    if sections != [] {
      PushToCurrentShape(sections, b);
      PushToCurrentTitles(sections, b);
      PushToCurrentContent(sections, b);
      if WellFormedSections(sections) && WellFormedBlock(b) {
        PushToCurrentWellFormed(sections, b);
      }
    }
  }

  lemma PushToCurrentShape(sections: seq<Section>, b: Block)
    requires sections != []
    ensures var n := |sections|; var r := PushToCurrent(sections, b);
      |r| == n && r[..n - 1] == sections[..n - 1] &&
      r[n - 1] == Section(sections[n - 1].title, sections[n - 1].blocks + [b])
  {
  }

  lemma PushToCurrentTitles(sections: seq<Section>, b: Block)
    requires sections != []
    ensures Titles(PushToCurrent(sections, b)) == Titles(sections)
  {
    PushToCurrentShape(sections, b);
    var r := PushToCurrent(sections, b);
    forall i | 0 <= i < |r| ensures r[i].title == sections[i].title {
      if i < |r| - 1 { assert r[i] == r[..|r| - 1][i]; }
    }
  }

  lemma PushToCurrentContent(sections: seq<Section>, b: Block)
    requires sections != []
    ensures AllItems(PushToCurrent(sections, b)) == (if b.List? then AllItems(sections) + b.items else AllItems(sections))
    ensures AllTexts(PushToCurrent(sections, b)) == (if b.Paragraph? then AllTexts(sections) + [b.text] else AllTexts(sections))
  {
    PushToCurrentShape(sections, b);
    var n := |sections|;
    var r := PushToCurrent(sections, b);
    BlockItemsAppend(sections[n - 1].blocks, b);
    assert AllItems(r) == AllItems(sections[..n - 1]) + BlockItems(sections[n - 1].blocks + [b]);
    assert AllTexts(r) == AllTexts(sections[..n - 1]) + BlockTexts(sections[n - 1].blocks + [b]);
  }

  lemma PushToCurrentWellFormed(sections: seq<Section>, b: Block)
    requires sections != []
    requires WellFormedSections(sections) && WellFormedBlock(b)
    ensures WellFormedSections(PushToCurrent(sections, b))
  {
    var n := |sections|;
    var last := sections[n - 1];
    var r := PushToCurrent(sections, b);
    assert |r| == n;
    forall i, j | 0 <= i < n && 0 <= j < |r[i].blocks| ensures WellFormedBlock(r[i].blocks[j]) {
      if i < n - 1 {
        assert r[i] == sections[i];
      } else if j < |last.blocks| {
        assert r[i].blocks[j] == last.blocks[j];
      } else {
        assert r[i].blocks[j] == b;
      }
    }
  }

  /** Opening a new, empty section adds its title and no content. */
  lemma NewSectionFacts(sections: seq<Section>, heading: string)
    ensures Titles(sections + [Section(heading, [])]) == Titles(sections) + [heading]
    ensures AllItems(sections + [Section(heading, [])]) == AllItems(sections)
    ensures AllTexts(sections + [Section(heading, [])]) == AllTexts(sections)
    ensures WellFormedSections(sections) ==> WellFormedSections(sections + [Section(heading, [])])
  {
    assert (sections + [Section(heading, [])])[..|sections|] == sections;
  }

  // AppendEmpty, AppendAssoc and AllOfLines restate sequence facts Dafny
  // knows; calling them keeps the heavier proofs below cheap.

  lemma AppendEmpty<T>(xs: seq<T>, empty: seq<T>)
    requires empty == []
    ensures xs + empty == xs
  {
  }

  lemma AppendAssoc<T>(a: seq<T>, b: seq<T>, c: seq<T>)
    ensures (a + b) + c == a + (b + c)
  {
  }

  /** The paragraph a buffer flushes to, as a sequence of at most one text. */
  function Emitted(buffer: seq<string>): seq<string>
  {
    if buffer == [] then [] else [Join(buffer, " ")]
  }

  /** Emitting the buffer as one paragraph leaves the single-space join of all
      texts as it was. */
  lemma EmittedJoin(texts: seq<string>, buffer: seq<string>)
    ensures Join(texts + Emitted(buffer), " ") == Join(texts + buffer, " ")
    ensures texts + Emitted(buffer) == [] <==> texts + buffer == []
  {
    if buffer == [] {
      assert texts + Emitted(buffer) == texts + buffer;
    } else {
      JoinFlatten(texts, buffer, " ");
    }
  }

  /** With trimmed, non-empty lines in the buffer, flushParagraph pushes their
      single-space join, or nothing when the buffer is empty. */
  lemma FlushParagraphRewrite(st: ParseState)
    requires NonEmptyTrimmed(st.paragraph)
    ensures FlushParagraph(st) ==
      st.(sections := if st.paragraph != [] then PushToCurrent(st.sections, Paragraph(Join(st.paragraph, " "))) else st.sections,
          paragraph := [])
  {
    ParagraphTextOfBuffer(st.paragraph);
  }

  lemma FlushParagraphFacts(st: ParseState)
    requires NonEmptyTrimmed(st.paragraph)
    ensures FlushParagraph(st).paragraph == [] && FlushParagraph(st).list == st.list
    ensures |FlushParagraph(st).sections| == |st.sections|
    ensures Titles(FlushParagraph(st).sections) == Titles(st.sections)
    ensures WellFormedSections(st.sections) ==> WellFormedSections(FlushParagraph(st).sections)
    ensures st.sections != [] ==> AllItems(FlushParagraph(st).sections) == AllItems(st.sections)
    ensures st.sections != [] ==> AllTexts(FlushParagraph(st).sections) == AllTexts(st.sections) + Emitted(st.paragraph)
  {
    FlushParagraphRewrite(st);
    ParagraphTextOfBuffer(st.paragraph);
    PushToCurrentFacts(st.sections, Paragraph(Join(st.paragraph, " ")));
  }

  lemma FlushListFacts(st: ParseState)
    requires st.list.Some? ==> st.list.value != [] && NonEmptyTrimmed(st.list.value)
    ensures FlushList(st).list == None && FlushList(st).paragraph == st.paragraph
    ensures |FlushList(st).sections| == |st.sections|
    ensures Titles(FlushList(st).sections) == Titles(st.sections)
    ensures WellFormedSections(st.sections) ==> WellFormedSections(FlushList(st).sections)
    ensures st.sections != [] ==> AllTexts(FlushList(st).sections) == AllTexts(st.sections)
    ensures st.sections != [] ==> AllItems(FlushList(st).sections) == AllItems(st.sections) + Pending(st.list)
  {
    PushToCurrentFacts(st.sections, List(Pending(st.list)));
  }

  /** A boundary (blank line, heading or end of input) flushes both buffers
      and keeps the invariant with nothing new seen. */
  lemma BoundaryKeeps(st: ParseState, titles: seq<string>, items: seq<string>, prose: seq<string>)
    requires StateInv(st, titles, items, prose)
    ensures StateInv(Boundary(st), titles, items, prose)
    ensures Boundary(st).paragraph == [] && Boundary(st).list == None
  {
    BoundaryShape(st, titles, items, prose);
    BoundaryBuffers(st);
    BoundaryItems(st, items);
    BoundaryProse(st, prose);
  }

  lemma BoundaryShape(st: ParseState, titles: seq<string>, items: seq<string>, prose: seq<string>)
    requires BuffersInv(st) && ShapeInv(st, titles, items, prose)
    ensures ShapeInv(Boundary(st), titles, items, prose)
  {
    FlushParagraphFacts(st);
    FlushListFacts(FlushParagraph(st));
  }

  lemma BoundaryBuffers(st: ParseState)
    requires BuffersInv(st)
    ensures BuffersInv(Boundary(st)) && Boundary(st).paragraph == [] && Boundary(st).list == None
  {
    FlushParagraphFacts(st);
    FlushListFacts(FlushParagraph(st));
  }

  lemma BoundaryItems(st: ParseState, items: seq<string>)
    requires BuffersInv(st) && ItemsInv(st, items)
    ensures ItemsInv(Boundary(st), items)
  {
    FlushParagraphFacts(st);
    FlushListFacts(FlushParagraph(st));
  }

  lemma BoundaryTexts(st: ParseState)
    requires BuffersInv(st) && st.sections != []
    ensures Boundary(st).sections != []
    ensures Texts(Boundary(st)) == AllTexts(st.sections) + Emitted(st.paragraph)
  {
    FlushParagraphFacts(st);
    FlushListFacts(FlushParagraph(st));
    AppendEmpty(AllTexts(Boundary(st).sections), Boundary(st).paragraph);
  }

  lemma BoundaryProse(st: ParseState, prose: seq<string>)
    requires BuffersInv(st) && ProseInv(st, prose)
    ensures ProseInv(Boundary(st), prose)
  {
    if st.sections != [] {
      BoundaryTexts(st);
      EmittedJoin(AllTexts(st.sections), st.paragraph);
    } else {
      BoundaryShape(st, [], [], []);
    }
  }

  /** After ensureSection nothing is pending: the new section is empty. */
  lemma HeadingContent(st: ParseState, t: string)
    requires BuffersInv(st)
    ensures Items(EnsureSection(st, t)) == AllItems(Boundary(st).sections)
    ensures Texts(EnsureSection(st, t)) == AllTexts(Boundary(st).sections)
    ensures EnsureSection(st, t).paragraph == [] && EnsureSection(st, t).list == None
    ensures |EnsureSection(st, t).sections| == |st.sections| + 1
    ensures EnsureSection(st, t).sections[|st.sections|] == Section(t, [])
  {
    FlushParagraphFacts(st);
    FlushListFacts(FlushParagraph(st));
    BoundaryBuffers(st);
    var e := EnsureSection(st, t);
    NewSectionFacts(Boundary(st).sections, t);
    AppendEmpty(AllItems(e.sections), Pending(e.list));
    AppendEmpty(AllTexts(e.sections), e.paragraph);
  }

  lemma HeadingKeeps(st: ParseState, titles: seq<string>, items: seq<string>, prose: seq<string>, t: string)
    requires StateInv(st, titles, items, prose)
    ensures StateInv(EnsureSection(st, t), titles + [t], items, prose)
  {
    BoundaryKeeps(st, titles, items, prose);
    NewSectionFacts(Boundary(st).sections, t);
    HeadingContent(st, t);
    var b := Boundary(st);
    if b.sections == [] {
      assert AllItems(b.sections) == [] && AllTexts(b.sections) == [];
    } else {
      AppendEmpty(AllItems(b.sections), Pending(b.list));
      AppendEmpty(AllTexts(b.sections), b.paragraph);
    }
  }

  /** An item line extends the open list, or opens one after flushing the
      paragraph buffer. */
  lemma AddItemShape(st: ParseState, item: string)
    requires NonEmptyTrimmed(st.paragraph)
    ensures AddItem(st, item).list == Some(Pending(st.list) + [item])
    ensures st.list.Some? ==> AddItem(st, item).sections == st.sections && AddItem(st, item).paragraph == st.paragraph
    ensures st.list.None? ==> AddItem(st, item).sections == FlushParagraph(st).sections && AddItem(st, item).paragraph == []
  {
    FlushParagraphFacts(st);
  }

  lemma ItemBuffers(st: ParseState, item: string)
    requires BuffersInv(st)
    requires item != [] && Trimmed(item)
    ensures BuffersInv(AddItem(st, item))
  {
    AddItemShape(st, item);
    FlushParagraphFacts(st);
    NonEmptyTrimmedAppend(Pending(st.list), item);
  }

  lemma NonEmptyTrimmedAppend(xs: seq<string>, x: string)
    requires NonEmptyTrimmed(xs) && x != [] && Trimmed(x)
    ensures NonEmptyTrimmed(xs + [x])
  {
  }

  lemma ItemShape(st: ParseState, titles: seq<string>, items: seq<string>, prose: seq<string>, item: string)
    requires BuffersInv(st) && ShapeInv(st, titles, items, prose)
    ensures ShapeInv(AddItem(st, item), titles, (if titles != [] then items + [item] else items), prose)
  {
    AddItemShape(st, item);
    FlushParagraphFacts(st);
  }

  lemma ItemItems(st: ParseState, items: seq<string>, item: string)
    requires BuffersInv(st) && ItemsInv(st, items) && st.sections != []
    ensures AddItem(st, item).sections != []
    ensures Items(AddItem(st, item)) == items + [item]
  {
    AddItemShape(st, item);
    FlushParagraphFacts(st);
    AppendAssoc(AllItems(st.sections), Pending(st.list), [item]);
  }

  lemma ItemTexts(st: ParseState, item: string)
    requires BuffersInv(st) && st.sections != []
    ensures Texts(AddItem(st, item)) == AllTexts(st.sections) + (if st.list.None? then Emitted(st.paragraph) else st.paragraph)
  {
    AddItemShape(st, item);
    FlushParagraphFacts(st);
    if st.list.None? {
      AppendEmpty(AllTexts(AddItem(st, item).sections), AddItem(st, item).paragraph);
    }
  }

  lemma ItemProse(st: ParseState, prose: seq<string>, item: string)
    requires BuffersInv(st) && ProseInv(st, prose)
    ensures ProseInv(AddItem(st, item), prose)
  {
    AddItemShape(st, item);
    FlushParagraphFacts(st);
    if st.sections != [] {
      ItemTexts(st, item);
      EmittedJoin(AllTexts(st.sections), st.paragraph);
    }
  }

  lemma ItemKeeps(st: ParseState, titles: seq<string>, items: seq<string>, prose: seq<string>, item: string)
    requires StateInv(st, titles, items, prose)
    requires item != [] && Trimmed(item)
    ensures StateInv(AddItem(st, item), titles, (if titles != [] then items + [item] else items), prose)
  {
    ItemShape(st, titles, items, prose, item);
    ItemBuffers(st, item);
    ItemProse(st, prose, item);
    if st.sections != [] {
      ItemItems(st, items, item);
    }
  }

  lemma ProseKeeps(st: ParseState, titles: seq<string>, items: seq<string>, prose: seq<string>, t: string)
    requires StateInv(st, titles, items, prose)
    requires t != [] && Trimmed(t)
    ensures StateInv(AddProse(st, t), titles, items, (if titles != [] then prose + [t] else prose))
  {
    AppendAssoc(AllTexts(st.sections), st.paragraph, [t]);
    if st.sections != [] {
      ProseJoin(Texts(st), prose, t);
    }
  }

  /** Two lists whose joins agree, and which are empty together, still agree
      once the same text is appended to both. */
  lemma ProseJoin(x: seq<string>, prose: seq<string>, t: string)
    requires (x == [] <==> prose == []) && Join(x, " ") == Join(prose, " ")
    ensures x + [t] != [] && prose + [t] != []
    ensures Join(x + [t], " ") == Join(prose + [t], " ")
  {
    JoinAppend(x, t, " ");
    JoinAppend(prose, t, " ");
  }

  // ---------------------------------------------------------------------------
  // Lemmas: one step of the loop
  // ---------------------------------------------------------------------------

  /** One step of the loop keeps the invariant, with what the line adds to
      the titles, items and prose. */
  lemma StepKeeps(st: ParseState, titles: seq<string>, items: seq<string>, prose: seq<string>, raw: string, headings: seq<string>)
    requires StateInv(st, titles, items, prose)
    ensures StateInv(Step(st, raw, headings), NextTitles(titles, raw, headings),
                     NextItems(items, titles, raw, headings), NextProse(prose, titles, raw, headings))
  {
    TrimSpec(CleanLine(raw));
    var k := Classify(raw, headings);
    if k.Blank? {
      BoundaryKeeps(st, titles, items, prose);
    } else if k.HeadingLine? {
      HeadingKeeps(st, titles, items, prose, k.heading);
    } else if k.ItemLine? {
      ItemKeeps(st, titles, items, prose, k.item);
    } else {
      ProseKeeps(st, titles, items, prose, k.text);
    }
  }

  /** The loop runs Step once more for each further line. */
  lemma RunStep(lines: seq<string>, i: nat, headings: seq<string>)
    requires i < |lines|
    ensures Run(lines[..i + 1], headings) == Step(Run(lines[..i], headings), lines[i], headings)
  {
    assert lines[..i + 1][..i] == lines[..i];
  }

  /** Stated as a lemma to keep sequence reasoning out of the loop's proof. */
  lemma AllOfLines(lines: seq<string>)
    ensures lines[..|lines|] == lines
  {
  }

  /** The loop keeps RunInv over every prefix of the lines. */
  lemma {:induction false} RunInvariant(lines: seq<string>, headings: seq<string>)
    ensures RunInv(Run(lines, headings), lines, headings)
  {
    if lines != [] {
      var init := lines[..|lines| - 1];
      RunInvariant(init, headings);
      StepKeeps(Run(init, headings), HeadingTitles(init, headings), ItemsAfterHeading(init, headings),
                ProseAfterHeading(init, headings), lines[|lines| - 1], headings);
    }
  }

  /** The conditional flushes after the loop are the same as a boundary. */
  lemma FinishIsBoundary(st: ParseState)
    ensures Finish(st) == Boundary(st)
  {
    if st.paragraph == [] {
      assert ParagraphText([]) == [];
      assert FlushParagraph(st) == st;
    }
  }

  /** After the final flushes both buffers are empty, and RunInv holds. */
  lemma FinalState(lines: seq<string>, headings: seq<string>)
    ensures var f := Finish(Run(lines, headings));
      RunInv(f, lines, headings) && f.paragraph == [] && f.list == None
  {
    RunInvariant(lines, headings);
    FinishIsBoundary(Run(lines, headings));
    BoundaryKeeps(Run(lines, headings), HeadingTitles(lines, headings),
                  ItemsAfterHeading(lines, headings), ProseAfterHeading(lines, headings));
  }

  // ---------------------------------------------------------------------------
  // The document parseArticle returns
  // ---------------------------------------------------------------------------

  /** The document is the final state's sections, or the fallback section when
      no heading occurred; the final state has both buffers empty. */
  lemma ParseShape(raw: string, headings: seq<string>)
    ensures var lines := Split(raw, '\n'); var st := Finish(Run(lines, headings));
      && RunInv(st, lines, headings) && st.paragraph == [] && st.list == None
      && Parse(raw, headings).title == Title(Clean(lines))
      && Parse(raw, headings).sections == (if st.sections == [] then [Section(Title(Clean(lines)), [])] else st.sections)
  {
    FinalState(Split(raw, '\n'), headings);
  }

  /** One section per heading line, titled with its trimmed text, in order; with
      no heading line, exactly one section, titled with the document title and
      holding no blocks. Hence there is always at least one section. */
  lemma ParseSections(raw: string, headings: seq<string>)
    ensures var doc := Parse(raw, headings); var titles := HeadingTitles(Split(raw, '\n'), headings);
      && |doc.sections| >= 1
      && (titles != [] ==> Titles(doc.sections) == titles)
      && (titles == [] ==> doc.sections == [Section(doc.title, [])])
  {
    ParseShape(raw, headings);
  }

  /** Every block of the document is a paragraph with non-empty trimmed text or
      a list of at least one item, each non-empty and trimmed; no heading block
      is produced. */
  lemma ParseWellFormed(raw: string, headings: seq<string>)
    ensures WellFormedSections(Parse(raw, headings).sections)
  {
    ParseShape(raw, headings);
  }

  /** The list items of the document, in order, are exactly the list-item lines
      after the first heading, each with its marker removed and trimmed. */
  lemma ParseItems(raw: string, headings: seq<string>)
    ensures AllItems(Parse(raw, headings).sections) == ItemsAfterHeading(Split(raw, '\n'), headings)
  {
    var lines := Split(raw, '\n');
    var st := Finish(Run(lines, headings));
    ParseShape(raw, headings);
    if st.sections != [] {
      AppendEmpty(AllItems(st.sections), Pending(st.list));
    } else {
      NewSectionFacts([], Title(Clean(lines)));
    }
  }

  /** The paragraph texts of the document, joined with single spaces, are the
      trimmed prose lines after the first heading joined the same way: no prose
      line after a heading is lost, none is repeated, the order is kept. */
  lemma ParseProse(raw: string, headings: seq<string>)
    ensures Join(AllTexts(Parse(raw, headings).sections), " ") == Join(ProseAfterHeading(Split(raw, '\n'), headings), " ")
  {
    var lines := Split(raw, '\n');
    var st := Finish(Run(lines, headings));
    ParseShape(raw, headings);
    if st.sections != [] {
      AppendEmpty(AllTexts(st.sections), st.paragraph);
    } else {
      NewSectionFacts([], Title(Clean(lines)));
    }
  }
}
