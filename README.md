# Article parser model

This project models the plain-text article parser of the article page in
`app/page.tsx`. `parseArticle` turns a raw text into a document: a title
and an ordered list of sections, each holding paragraph and list blocks.

It works in one pass:
- It splits the text on line feeds.
- It cleans each line: one dash marker is stripped and trailing whitespace is removed.
- It takes the title from the first non-blank cleaned line.
- It walks the lines with three pieces of mutable state.
  - `current` is the open section.
  - `paragraphBuffer` holds pending prose lines.
  - `listBuffer` holds the pending list, or is null when no list is open.
- Each line is blank, a known heading, an indented list item (tested on the raw line), or prose.

Five files make up the model.

- `text.dfy` (module `Text`) holds the JavaScript string built-ins the parser uses.
  - `trim` and `trimEnd` use the ECMAScript whitespace set.
  - `startsWith`, `split` on one character, and `join`.
- `article.dfy` (module `Article`) holds two things.
  - The values: `Block` (ArticleBlock), `Section` (ArticleSection), `Document`, the heading table `KnownHeadings`, `StripDashPrefix` and the title derivation.
  - The loop as pure functions: `Classify` the line, take one `Step` on the accumulation state, `Run` over the lines, `Finish` with the final flushes, and `Parse` for the whole document.
  - It also proves what the document contains, against reference definitions written directly over the lines: `HeadingTitles`, `ItemsAfterHeading` and `ProseAfterHeading`.
- `parser.dfy` (module `Parser`) is the imperative form of the source.
  - The closures share four variables: `sections`, `current`, `paragraphBuffer` and `listBuffer`. A class `ParserState` has the fields `sections`, `paragraphBuffer` and `listBuffer`, and its methods update them in place. `current` is not a field: it is always the last section, as explained below.
  - The method `ParseArticle` runs the `for` loop over the cleaned lines.
  - Each method is proved equal to its step function, and the loop is proved equal to `Article.Parse`.
- `sections.dfy` (module `Sections`) proves which section each block lands in.
  - The reference definitions `ItemsPerHeading` and `ProsePerHeading` give one entry per heading line.
  - Each entry holds the items, or the prose, of the lines between that heading and the next.
  - The document is compared with them section by section.
- `properties.dfy` (module `Properties`) holds properties of single situations.
  - The order of the flushes.
  - Content before the first heading.
  - The order in which a line's tests are tried.

The heading table is a parameter of `Parse` and `ParseArticle`. The source's own table is the constant `Article.KnownHeadings`.

The section `current` points to is always the last one in `sections`, because every section is pushed the moment it becomes current. The model therefore represents `current` as "the last section", and `current?.blocks.push(b)` as replacing that last section. With no section open, nothing is pushed.

Two behaviours of the code are modelled as written.
- **Content before the first heading is dropped.** It is flushed with the buffers, but `current` is null, so it is attached nowhere.
  - `ParseItems` and `ParseProse` state this.
  - So do `BoundaryBeforeFirstHeading` and `FirstHeadingDropsBuffers`.
- **The fallback section is always empty.** The comment at app/page.tsx:122 says the fallback creates "a single section with all paragraphs", and lines 126-128 wrap the paragraph buffer in a paragraph. But the final flush at line 119 has already emptied that buffer, so the fallback section has no blocks. The model does what the code does.
  - `ParseShape` and `ParseSections` prove that this section has no blocks.

## Model

| member | source | states |
|---|---|---|
| `Article.StripDashPrefix` | app/page.tsx:38-42 | A line starting with "- " loses exactly those 2 characters. A line starting with the indented marker "    - " loses exactly those 6. Any other line is unchanged. The result is always a suffix of the line. |
| `Article.Clean` | app/page.tsx:46 | One cleaned line per raw line, in order. Line i is `CleanLine` of raw line i; `CleanLineSpec` says what that is. |
| `Article.CleanLine` | app/page.tsx:46 | The cleaned form of one line. Its contract is the lemma `CleanLineSpec`. |
| `Article.CleanLineSpec` | app/page.tsx:46 | The cleaned line is the marker-stripped line with exactly its trailing whitespace cut off. It is a prefix of the stripped line, what is cut off is all whitespace, and it does not end in whitespace. |
| `Article.LineText` | app/page.tsx:79 | The trimmed cleaned line that the blank, heading and figure tests use (app/page.tsx:79-109). The item test uses the raw line instead, and `Article.Classify` proves that the item text equals this text. Its contract is the lemma `LineTextSpec`. |
| `Article.LineTextSpec` | app/page.tsx:79 | That text has whitespace at neither end. It is empty exactly when the cleaned line is all whitespace. |
| `Article.IsFigureLabel` | app/page.tsx:109 | `/^Figure:/i`. What the figure branch does with it is stated by `Article.Classify` and `Properties.FigureLikeProse`. |
| `Text.TrimEnd` | app/page.tsx:46 | String.prototype.trimEnd. Its contract is the lemma `Text.TrimEndSpec`. |
| `Text.TrimStart` | app/page.tsx:79 | Leading whitespace removed, the first half of trim. Its contract is the lemma `Text.TrimStartSpec`. |
| `Text.Trim` | app/page.tsx:79 | String.prototype.trim, defined as `TrimStart(TrimEnd(s))`. `Text.TrimEndSpec` and `Text.TrimStartSpec` pin down each half, so together they determine the result. `Text.TrimSpec` adds that it has whitespace at neither end and is empty exactly for an all-whitespace text. |
| `Text.StartsWith` | app/page.tsx:97 | String.prototype.startsWith. What both marker tests give follows in `Article.StripDashPrefix` and `Article.Classify`. |
| `Text.Join` | app/page.tsx:59 | Array.prototype.join. `Text.SplitJoin`, `Text.JoinFlatten` and `Text.JoinEnds` state what it does. |
| `Text.TrimEndSpec` | app/page.tsx:46 | trimEnd keeps a prefix of the line. Everything it drops is whitespace, and what it keeps does not end in whitespace. |
| `Text.TrimStartSpec` | app/page.tsx:79 | The leading half of trim keeps a suffix of the line. Everything it drops is whitespace, and what it keeps does not start with whitespace. |
| `Text.TrimSpec` | app/page.tsx:79 | The trimmed text has whitespace at neither end. It is empty exactly when the line is all whitespace, which is the blank-line test. |
| `Text.TrimAfterTrimEnd` | app/page.tsx:98 | Trimming a trimEnd-ed text equals trimming the original. So the list item computed from the raw line equals the trimmed cleaned text. |
| `Text.Split` | app/page.tsx:45 | split on the line feed yields at least one line, and no line contains a line feed. |
| `Text.SplitJoin` | app/page.tsx:45 | Joining the lines back with the line feed gives the raw text, so no character is lost or added by the split. |
| `Text.JoinFlatten` | app/page.tsx:59 | Joining a list in which a group is replaced by its own single-space join gives the same text as joining the members in place. |
| `Text.JoinEnds` | app/page.tsx:59 | Join of non-empty parts starts with the first part's first character and ends with the last part's last character. |
| `Article.FirstNonBlank` | app/page.tsx:50 | The position `find` stops at: absent exactly when every cleaned line trims to empty. Otherwise it is the first cleaned line whose trim is non-empty. |
| `Article.Title` | app/page.tsx:48-51 | The title is the trimmed first non-blank cleaned line, or "Article" when every line is blank. It is never empty. |
| `Article.Classify` | app/page.tsx:77-116 | The branch a line takes, each as an if-and-only-if. Blank exactly when the trimmed cleaned text is empty. A heading exactly when that text is in the table. An item exactly when it is neither and the raw line starts with the indented marker. A figure label exactly when it is none of these and the text starts with "Figure:" in any case. Prose otherwise. Each carries the text the source uses. |
| `Article.KnownHeadings` | app/page.tsx:27-36 | The source's heading table: eight titles, in the source's order. It is the `headings` argument of `Parse` and `ParseArticle`. `Properties.HeadingLineOpens` states when an entry written alone on a line opens its section, and `Properties.IndentedConclusionIsHeading` shows this for the entry "Conclusion". |
| `Properties.HeadingLineOpens` | app/page.tsx:89-92 | A non-empty table entry with no whitespace at either end and no dash marker, written alone on a line, is classified as a heading with itself as the title. |
| `Text.IsSpace` | app/page.tsx:46 | The characters trim and trimEnd remove (the same set at line 79): the ECMAScript WhiteSpace and LineTerminator code points. `Text.TrimEndSpec`, `Text.TrimStartSpec` and `Text.TrimSpec` state what is removed in its terms. |
| `Article.Init` | app/page.tsx:53-56 | The state before the loop: no sections, an empty paragraph buffer, no list open. `Properties.BoundaryBeforeFirstHeading` states that a boundary with no section open returns to it, and `Parser.ParserState.constructor` builds it in place. |
| `Article.TrimAll` | app/page.tsx:59 | `paragraphBuffer.map(s => s.trim())`. Its effect on a buffer of trimmed lines is stated by `Article.ParagraphTextOfBuffer`. |
| `Article.ParagraphText` | app/page.tsx:59 | The text flushParagraph builds: each buffered line trimmed, joined with one space, and trimmed again. `Article.ParagraphTextOfBuffer` states that for buffered lines, which are already trimmed and non-empty, it is exactly their single-space join and is empty only for an empty buffer. |
| `Article.Boundary` | app/page.tsx:83-84 | The `flushParagraph(); flushList()` pair, used by a blank line, by ensureSection at lines 71-72 and, in effect, at the end of the loop. `Article.BoundaryKeeps`, `Properties.FlushOrder` and `Article.FinishIsBoundary` state what it does. |
| `Article.PushToCurrent` | app/page.tsx:60 | `current?.blocks.push`. `Article.PushToCurrentFacts` and `Article.PushToCurrentShape` state what it does. |
| `Article.FlushParagraph` | app/page.tsx:58-62 | The flushParagraph closure. `Article.FlushParagraphRewrite` and `Article.FlushParagraphFacts` state what it does. |
| `Article.FlushList` | app/page.tsx:63-68 | The flushList closure. `Article.FlushListFacts` states what it does. |
| `Article.EnsureSection` | app/page.tsx:70-75 | The ensureSection closure. `Article.HeadingContent` and `Article.HeadingKeeps` state what it does. |
| `Article.AddItem` | app/page.tsx:97-105 | The item branch. `Article.AddItemShape` and `Article.ItemKeeps` state what it does. |
| `Article.AddProse` | app/page.tsx:110 | The figure and prose branches, which both append to the buffer. `Article.ProseKeeps` and `Properties.FigureLikeProse` state what it does. |
| `Article.Step` | app/page.tsx:78-115 | One loop iteration on the accumulation state. `Article.StepKeeps` and `Sections.SectionStepKeeps` state what it does. |
| `Article.Run` | app/page.tsx:77 | The loop over the lines. `Article.RunInvariant` and `Sections.RunSections` state what it does. |
| `Article.Finish` | app/page.tsx:119-120 | The final flushes. `Article.FinishIsBoundary` and `Article.FinalState` state what they do. |
| `Article.Parse` | app/page.tsx:44-138 | parseArticle, fallback included. Its properties are `Article.ParseShape`, `Article.ParseSections`, `Article.ParseWellFormed`, `Article.ParseItems`, `Article.ParseProse` and `Sections.ParseSectionContent`. |
| `Article.ParagraphTextOfBuffer` | app/page.tsx:59 | A buffer of non-empty trimmed lines flushes to exactly their single-space join. That join is trimmed and is empty only when the buffer is. |
| `Article.PushToCurrentFacts` | app/page.tsx:60 | Pushing a block onto the current section changes no section count or title. It adds the block's items or text at the end of the document's content. It keeps every block well formed. With no section open nothing changes. |
| `Article.PushToCurrentShape` | app/page.tsx:65 | Only the last section changes, and it gains the block at the end of its blocks. |
| `Article.PushToCurrentTitles` | app/page.tsx:60 | Pushing a block keeps every section title. |
| `Article.PushToCurrentContent` | app/page.tsx:65 | Pushing a list adds its items at the end of the document's items. Pushing a paragraph adds its text at the end of the document's texts. |
| `Article.PushToCurrentWellFormed` | app/page.tsx:60 | Pushing a well-formed block keeps every block of the document well formed. |
| `Article.NewSectionFacts` | app/page.tsx:73-74 | Pushing a new empty section adds its title at the end and adds no content. |
| `Article.EmittedJoin` | app/page.tsx:59 | Replacing the buffered lines by the one paragraph they flush to leaves the single-space join of all texts unchanged. |
| `Article.FlushParagraphRewrite` | app/page.tsx:58-62 | flushParagraph pushes the single-space join of the buffered lines onto the current section when the buffer is not empty, and clears the buffer. |
| `Article.FlushParagraphFacts` | app/page.tsx:58-62 | After flushParagraph the buffer is empty and the list is untouched. The section count, the titles and well-formedness are kept. Once a section is open, the items are kept and the document's texts gain exactly the flushed paragraph. Before that, the paragraph is discarded. |
| `Article.FlushListFacts` | app/page.tsx:63-68 | After flushList no list is open and the paragraph buffer is untouched. The section count, the titles and well-formedness are kept. Once a section is open, the texts are kept and the document's items gain exactly the pending items. Before that, the list is discarded. |
| `Article.BoundaryKeeps` | app/page.tsx:82-85 | A blank line flushes both buffers and keeps the parser invariant with nothing new seen. |
| `Article.BoundaryShape` | app/page.tsx:82-85 | A boundary keeps the section titles. |
| `Article.BoundaryBuffers` | app/page.tsx:82-85 | After a boundary both buffers are empty and every block is well formed. |
| `Article.BoundaryItems` | app/page.tsx:63-68 | Once a section is open, a boundary moves the pending list items into the document without losing or adding any. |
| `Article.BoundaryTexts` | app/page.tsx:58-62 | Once a section is open, after a boundary the document's texts are those before it plus the one paragraph the buffer flushed to. |
| `Article.BoundaryProse` | app/page.tsx:82-85 | Once a section is open, a boundary keeps the single-space join of the emitted and buffered texts. |
| `Article.HeadingContent` | app/page.tsx:70-75 | After ensureSection the paragraph buffer is empty and no list is open. There is one more section than before, and the new last section has the heading as its title and no blocks. The document's items and texts, pending ones included, are those of the sections after the two flushes. |
| `Article.HeadingKeeps` | app/page.tsx:89-92 | A heading line keeps the parser invariant and adds its text to the section titles. |
| `Article.AddItemShape` | app/page.tsx:97-105 | An item is appended to the open list. A list is opened, after flushing the paragraph buffer, only when none is open. With a list already open the sections and the paragraph buffer are untouched. |
| `Article.ItemBuffers` | app/page.tsx:97-105 | After an item line the open list is non-empty and every item in it is non-empty and trimmed. |
| `Article.ItemShape` | app/page.tsx:97-105 | An item line keeps the section titles. |
| `Article.ItemItems` | app/page.tsx:104 | Once a section is open, an item line adds exactly its item at the end of the document's items. |
| `Article.ItemTexts` | app/page.tsx:100-103 | Once a section is open, opening a list flushes the paragraph buffer into the document's texts, and extending an open list leaves the texts unchanged. |
| `Article.ItemProse` | app/page.tsx:97-105 | Once a section is open, an item line keeps the single-space join of the emitted and buffered texts. |
| `Article.ItemKeeps` | app/page.tsx:97-105 | An item line keeps the parser invariant and adds its item once a section is open. |
| `Article.ProseKeeps` | app/page.tsx:108-115 | A prose or figure line keeps the parser invariant and adds its text once a section is open. |
| `Article.ProseJoin` | app/page.tsx:115 | Appending the same line to two text lists keeps their single-space joins equal. |
| `Article.StepKeeps` | app/page.tsx:77-116 | One iteration keeps the parser invariant, with what that line adds to the titles, items and prose. |
| `Article.RunStep` | app/page.tsx:77 | Running the loop over one more line is one more step. |
| `Article.RunInvariant` | app/page.tsx:77-116 | After any prefix of the lines, four things hold. The sections are exactly the heading lines seen, in order. Every block is well formed. Once a section is open, the items emitted or pending are the item lines after the first heading. Once a section is open, the texts' join is the prose after the first heading, joined the same way. |
| `Article.FinishIsBoundary` | app/page.tsx:119-120 | The two conditional flushes after the loop act exactly like a blank line. |
| `Article.FinalState` | app/page.tsx:118-120 | After the final flushes both buffers are empty and the invariant holds. |
| `Article.ParseShape` | app/page.tsx:119-130 | The document's sections are those of the final state. When no section was opened, they are the fallback section alone, titled with the document title and with no blocks, because the buffer was already flushed. |
| `Article.ParseSections` | app/page.tsx:123-130 | There is always at least one section. With heading lines there is one section per heading line, titled with its trimmed text, in order. Without any, there is exactly one section with the document title and no blocks. |
| `Article.ParseWellFormed` | app/page.tsx:17-21 | Every block of the document is a paragraph with non-empty trimmed text or a list with at least one item, each non-empty and trimmed. No heading block is ever produced. |
| `Article.ParseItems` | app/page.tsx:97-105 | The document's list items, in order, are exactly the item lines after the first heading, each with its marker removed and trimmed. Items met before any heading are lost. |
| `Article.ParseProse` | app/page.tsx:108-115 | The document's paragraph texts, joined with single spaces, are the trimmed prose lines after the first heading joined the same way. None is lost or repeated and the order is kept. Prose before any heading is lost. |
| `Parser.ParserState.constructor` | app/page.tsx:53-56 | No sections, an empty paragraph buffer, no list open. |
| `Parser.ParserState.FlushParagraph` | app/page.tsx:58-62 | The in-place flushParagraph leaves exactly the state `Article.FlushParagraph` describes. |
| `Parser.ParserState.FlushList` | app/page.tsx:63-68 | The in-place flushList leaves exactly the state `Article.FlushList` describes. |
| `Parser.ParserState.EnsureSection` | app/page.tsx:70-75 | The in-place ensureSection leaves exactly the state `Article.EnsureSection` describes. |
| `Parser.ParserState.ProcessLine` | app/page.tsx:78-115 | One loop body, with its early continues, leaves exactly the state of one `Article.Step` on that line. |
| `Parser.ParseArticle` | app/page.tsx:44-138 | The loop's result is `Article.Parse`. There is at least one section, and every block is well formed. When there are heading lines, the sections are titled by them. Its items are the item lines after the first heading, and its texts join to the prose after the first heading. When there are heading lines, each section holds the items of the lines after its heading and before the next one, and its texts join to their prose. |
| `Sections.ItemsPerSection` | app/page.tsx:22-25 | Entry j is the list items of section j. |
| `Sections.TextsPerSection` | app/page.tsx:22-25 | Entry j is the paragraph texts of section j. |
| `Sections.AppendToLastOf` | app/page.tsx:104 | Adding an item to the last entry changes that entry only. |
| `Sections.ReplaceLast` | app/page.tsx:59 | Replacing the current section's texts by texts with the same join keeps every section's join. |
| `Sections.ExtendLast` | app/page.tsx:115 | Appending a prose line to the current section's texts and to the last reference entry keeps every section's join equal. |
| `Sections.AddEmpty` | app/page.tsx:73-74 | A new empty section on both sides keeps every section's join equal. |
| `Sections.FlushParagraphLast` | app/page.tsx:58-62 | flushParagraph changes only the current section. Its items stay the same, and its texts gain exactly the flushed paragraph. |
| `Sections.FlushListLast` | app/page.tsx:63-68 | flushList changes only the current section. Its items, counting the open list, and its texts stay the same. |
| `Sections.BoundarySections` | app/page.tsx:82-85 | A boundary keeps each section's items and the join of each section's texts. |
| `Sections.ClosedView` | app/page.tsx:119-120 | With both buffers empty, the per-section view of the parser's state is the sections' own content. |
| `Sections.HeadingSections` | app/page.tsx:89-92 | A heading line adds one empty entry for its section after the flushed state's entries. |
| `Sections.ItemSections` | app/page.tsx:97-105 | An item line after a heading adds its item to the current section alone. Opening the list flushes the paragraph into that same section. |
| `Sections.ProseSections` | app/page.tsx:108-115 | A prose line after a heading adds its text to the current section alone. |
| `Sections.NoSectionYet` | app/page.tsx:58-68 | Before any heading, a non-heading line leaves the document without sections. |
| `Sections.SectionStepKeeps` | app/page.tsx:77-116 | One iteration keeps the per-section invariant, with what that line adds to the heading entries. |
| `Sections.RunSections` | app/page.tsx:77-116 | After any prefix of the lines, section by section, two things hold. The items, counting the open list, are those of the item lines after that section's heading. The texts, counting the buffer, join to those of its prose lines. |
| `Sections.ParseSectionContent` | app/page.tsx:44-138 | With heading lines, section j holds exactly the items of the item lines between heading j and the next heading, in order. Its paragraph texts join to the trimmed prose lines between them. |
| `Properties.FlushOrder` | app/page.tsx:70-72 | With a section open, prose buffered and a list open, a boundary appends the paragraph and then the list to the current section. No other section changes. |
| `Properties.BoundaryBeforeFirstHeading` | app/page.tsx:58-68 | Before any section is open, a boundary discards both buffers and returns to the initial state. |
| `Properties.FirstHeadingDropsBuffers` | app/page.tsx:70-75 | Before any section is open, the first heading leaves just its own empty section and no pending content. |
| `Properties.HeadingBeatsListItem` | app/page.tsx:89-97 | An indented item line whose trimmed text is a known heading opens that section. It is not a list item. |
| `Properties.IndentedConclusionIsHeading` | app/page.tsx:89-97 | The line "    - Conclusion" opens the section "Conclusion". |
| `Properties.FigureLikeProse` | app/page.tsx:108-115 | A figure label line, like any prose line, only appends its trimmed text to the paragraph buffer. The open list and the sections are untouched. |

## Left out

- Reading `input.txt` and substituting an empty string on failure (app/page.tsx:141-147) is file I/O. The model starts from the raw text.
- The JSX rendering and the caller's emptiness check (app/page.tsx:150-233) are user-interface code, not parsing.
- The animation components, the download button, the audio table, the footer, the layout and the second article page are not part of this model. They are animation-library wiring, DOM and network calls, or static markup.
- The test at app/page.tsx:133-135 has an empty body. It changes nothing and is not modelled.
- Whitespace for trim and trimEnd is modelled as the concrete ECMAScript WhiteSpace and LineTerminator set. The model has no Unicode normalisation or encoding, and it treats a carriage return like any other whitespace, as trimEnd does.
- The figure-label test `/^Figure:/i` is modelled with ASCII case folding. The pattern holds only ASCII letters, so the two agree.
- `ParseProse`: this is weaker than the exact grouping of prose into paragraphs. It states the paragraph texts only up to their single-space join, not where each paragraph begins and ends. The grouping itself is given by `FlushOrder` and `FlushParagraphRewrite`.
- `Sections.ParseSectionContent`: this states each section's paragraph texts only up to their single-space join, for the same reason as `ParseProse`. It states each section's list items exactly as a flattened sequence, not how consecutive items are grouped into `List` blocks. That grouping is stated only step by step, by `AddItemShape`, `FlushListFacts` and `FlushOrder`.
- A paragraph is not always a run of consecutive prose lines. A prose line met while a list is open goes to the paragraph buffer, and the list stays open. At the next boundary the paragraph is emitted before the list (app/page.tsx:110-115, 119-120), and the model does the same.
- `Article.KnownHeadings`: that each of the eight entries, written alone on a line, opens its section is stated by `Properties.HeadingLineOpens` for any trimmed entry without a dash marker. It is not proved entry by entry, except for "Conclusion", because the verifier does not read characters deep inside long string literals.
