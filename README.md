# live-docx: the HTML-to-DOCX block translator

This project models the Word export of the live-docx editor. The editor's
content arrives as a parsed HTML tree. The translator walks that tree and
produces the records the `docx` library turns into a document:

- text runs carrying bold, italic, underline, strike-through, monospace and a
  colour;
- paragraphs carrying a heading level, an alignment, list numbering, a left
  indent and spacing;
- tables with rows and cells.

The model also covers:

- the two numbering schemes the lists refer to;
- the fallback that keeps an empty document from having no paragraph;
- the file-name sanitiser used by both downloads.

The tree is the datatype `Dom.Node`. A node is a text node, or an element with:

- its tag, `style`, `class` and `href` attributes (absent ones are "");
- two values the browser computes for it: the computed `color` and the
  computed `text-align`;
- its children.

The computed values are given with the tree rather than derived from a
cascade. A list item's working copy is detached from the document, so the
browser computes nothing for it or for anything inside it. `Dom.Detach`
models this by setting both computed values to "" throughout the copy.

The modules follow the parts of `components/DownloadButtons.tsx`:

- helpers:
  - `Wrappers`: `Option` and JavaScript's `||` on strings;
  - `Strings`: the string built-ins the code relies on, with JavaScript's `\s`
    set, ASCII case mapping, `trim`, `split`/`join`, and the
    white-space-collapsing and newline-normalising `replace` calls;
- pure code:
  - `Css`: `extractCssProp` and `cssColorToHex`;
  - `Style`: `parseInlineMarks` and `getAlignment`;
  - `Dom`: the tree, with removal of nested lists and detachment of a copy;
  - `Docx`: the output records and the numbering constants;
  - `Title`: `safeTitle`;
- imperative code:
  - `Runs`: `mkRuns`;
  - `Paragraphs`: `pushParagraph`;
  - `Lists`: `processList`;
  - `Tables`: `buildTable`;
  - `Walker`: `walk`, `htmlToDocxBlocks` and the `downloadDocx` fallback;
- `RunFacts`: properties of the runs.

Each imperative part is two things:

- a method with a `while` loop, mirroring the code's `forEach`;
- a recursive function giving the same result.

The method's postcondition ties it to the function, for example
`Runs.MkRuns`, `Tables.BuildCell` and `Walker.Walk`. The properties are then
lemmas about the functions.

Two places where the design description and the code disagree (the model
follows the code):

- The description has the off-screen host removed on every path. The code
  removes it only after a successful walk: the removal at
  `components/DownloadButtons.tsx:561` is not in a `finally` block.
- The description says computed style is consulted only for colour. The code
  also falls back to the computed `text-align` (lines 144-151). `Style.GetAlignment`
  models that fallback.

## Model

| member | source | states |
|---|---|---|
| Title.Sanitize | components/DownloadButtons.tsx:47 | the result uses only ASCII letters, digits, `_` and `-`, is no longer than its input, and is empty exactly when the input is |
| Title.Cut | components/DownloadButtons.tsx:47 | `slice(0, n)`: the prefix of the text of length min(length, n) |
| Title.SafeTitleShape | components/DownloadButtons.tsx:46-49 | every file name is 1 to 80 characters, all from `[A-Za-z0-9_-]` |
| Title.EmptyTitle | components/DownloadButtons.tsx:47 | an empty title gives the file name "document" |
| Title.NameUnchanged | components/DownloadButtons.tsx:47 | text made only of name characters is left unchanged by the replacement |
| Title.CleanTitleKept | components/DownloadButtons.tsx:46-49 | a non-empty clean title of at most 80 characters is its own file name |
| Title.SafeTitleIdempotent | components/DownloadButtons.tsx:46-49 | sanitising a file name again changes nothing |
| Title.RunBecomesOneUnderscore | components/DownloadButtons.tsx:47 | a maximal run of other characters, however long, between name characters becomes exactly one `_` |
| Title.NamePrefixKept | components/DownloadButtons.tsx:47 | a clean prefix is kept as is, whatever follows it |
| Title.ColonSeparated | components/DownloadButtons.tsx:46-49 | two clean words around ": " are joined by a single `_` |
| Title.LongTitleCut | components/DownloadButtons.tsx:46-49 | a clean title longer than 80 characters is cut to its first 80 |
| Css.ExtractCssPropLeftmost | components/DownloadButtons.tsx:60-64 | the property is absent exactly when no position matches the name followed by optional spaces, `:` and at least one character before the next `;`; otherwise the value comes from the leftmost match, which may sit inside a longer name such as `background-color`, is trimmed, and stops before the next `;` |
| Css.ExtractFromLeftmost | components/DownloadButtons.tsx:61-63 | the same statement for a search starting at any position |
| Css.CssColorToHex | components/DownloadButtons.tsx:66-121 | a colour resolves to nothing or to exactly six upper-case hex digits, and never fails |
| Css.HexNotationValueOf | components/DownloadButtons.tsx:72-81 | `#` with 3 or 6 hex digits in either case resolves to the digits upper-cased, a 3-digit form having each digit doubled |
| Css.HexRoundTrip | components/DownloadButtons.tsx:72-81 | `#` followed by a canonical code resolves to that code |
| Css.RgbNotation | components/DownloadButtons.tsx:83-92 | `rgb(a,b,c)` with decimal channels resolves to the channels, each clamped to 255, as two hex digits each |
| Css.RgbRoundTrip | components/DownloadButtons.tsx:83-92 | writing three bytes as `rgb()` decimals and resolving gives their hex code, and so does resolving that code's `#` form |
| Css.DecimalRoundTrip | components/DownloadButtons.tsx:87 | the decimal digits of a number read back as that number |
| Css.RgbaNotation | components/DownloadButtons.tsx:94-108 | `rgba()` resolves to nothing when its alpha is zero, and otherwise exactly as `rgb()` with the same channels |
| Css.RgbaResolves | components/DownloadButtons.tsx:94-108 | `rgba()` resolves to nothing when its alpha is zero, and otherwise to its channels clamped to 255, as hex |
| Css.Clamp255 | components/DownloadButtons.tsx:87 | a clamped channel is below 256 |
| Css.HexByte | components/DownloadButtons.tsx:89 | a byte is written as two upper-case hex digits |
| Css.ColorExamples | components/DownloadButtons.tsx:66-121 | `#fff`, `rgb(255,255,255)` and `white` all give FFFFFF; `rgb(300,0,0)` gives FF0000; `rgba(0,0,0,0)` gives nothing; `rgba(0,0,255,0.5)` gives 0000FF |
| Style.StyleColor | components/DownloadButtons.tsx:182-184 | an inline colour that resolves is six upper-case hex digits |
| Style.AddTagMarks | components/DownloadButtons.tsx:160-164 | a tag only adds marks: every mark already set stays set, and the colour is untouched |
| Style.AddStyleMarks | components/DownloadButtons.tsx:166-185 | inline style only adds marks and leaves `code` alone; the colour becomes the style's resolved colour when there is one and is kept otherwise |
| Style.ParseInlineMarks | components/DownloadButtons.tsx:156-188 | the marks are a superset of the base marks; the colour is the element's own resolved inline colour, else the inherited one; a well-formed colour stays well-formed |
| Style.ParseInlineMarksExact | components/DownloadButtons.tsx:156-188 | each mark is set exactly when the base has it, the tag asks for it, or the lower-cased style asks for it |
| Style.ExtractCssPropEmpty | components/DownloadButtons.tsx:167 | an empty style attribute has no properties |
| Style.AlignmentPrecedence | components/DownloadButtons.tsx:123-152 | alignment is center, else right, else justify, else left from style or class, in that order; then the computed value |
| Style.ExplicitAlignmentWins | components/DownloadButtons.tsx:127-142 | once style or class asks for an alignment, the computed value has no effect |
| Style.ComputedAlignmentWords | components/DownloadButtons.tsx:144-151 | the computed fallback is unset exactly when the lower-cased value contains none of `center`, `right`, `justify`, `left`, `start`; a value containing only `start` gives left |
| Docx.PlainRun | components/DownloadButtons.tsx:424 | the placeholder run has its text, no formatting and no colour |
| Docx.PlainParagraph | components/DownloadButtons.tsx:494-500 | a paragraph of just its runs, with no heading, alignment, numbering, indent or spacing |
| Docx.EmptyParagraph | components/DownloadButtons.tsx:424 | the placeholder paragraph is one empty plain run |
| Docx.MkTable | components/DownloadButtons.tsx:430-446 | a table of the rows, 100 percent wide, with 1-point CCCCCC outer and DDDDDD inner borders |
| Docx.Paras | components/DownloadButtons.tsx:514-552 | paragraphs pushed onto the block list become blocks one for one, in order |
| Docx.ParasConcat | components/DownloadButtons.tsx:514-552 | pushing two groups of paragraphs is pushing them one after the other |
| Docx.SchemeOf | components/DownloadButtons.tsx:585-648 | each list kind has its numbering scheme, under its reference name |
| Docx.NumberingShape | components/DownloadButtons.tsx:585-648 | each scheme has three levels; level i is left-aligned with indent 720*(i+1) and hanging 360, and numbered levels read "%1.", "%2.", "%3." |
| Docx.LevelDefinedIff | components/DownloadButtons.tsx:585-648 | a numbering level is defined exactly when it is below 3 |
| Dom.HeadingLevel | components/DownloadButtons.tsx:520 | a heading tag's level is its digit, 1 to 6 |
| Dom.StripLists | components/DownloadButtons.tsx:339-342 | removing nested lists keeps the node's kind, tag, style and class |
| Dom.StripListsComplete | components/DownloadButtons.tsx:340-342 | after removal no `UL` or `OL` is left anywhere below the item |
| Dom.Detach | components/DownloadButtons.tsx:339 | a detached copy keeps tag and attributes, and its computed colour and alignment are absent |
| Dom.DetachKeepsText | components/DownloadButtons.tsx:339 | a detached copy has the same text content |
| Dom.DetachKeepsNoLists | components/DownloadButtons.tsx:339 | detaching a list-free subtree keeps it list-free |
| Runs.StyledRun | components/DownloadButtons.tsx:230-241 | a text run takes its text, every mark and the colour it is given |
| Runs.LinkRun | components/DownloadButtons.tsx:266-279 | a link is one underlined, non-monospace run of its text content, else its `href`, with the link's bold, italic and strike |
| Runs.ChildRunsElem | components/DownloadButtons.tsx:244-283 | a `BR` child gives one break; an `A` gives its link run; any other element gives the runs of its children, under its marks and default colour |
| Runs.PushLineRuns | components/DownloadButtons.tsx:214-229 | the loop appends the `PRE` line runs: a break before every line but the first, and a run per non-empty line |
| Runs.PushTextRuns | components/DownloadButtons.tsx:197-243 | the runs of one text node are appended to those so far |
| Runs.MkRuns | components/DownloadButtons.tsx:192-288 | the loop over the children yields exactly the runs `RunsOf` defines |
| RunFacts.RunColorShaped | components/DownloadButtons.tsx:207-211 | a run's colour is six upper-case hex digits |
| RunFacts.RunColorFallback | components/DownloadButtons.tsx:207-211 | with no inline colour and no default, a run is black, 000000 |
| RunFacts.NextDefaultShaped | components/DownloadButtons.tsx:254-259 | the default colour passed to the children stays six upper-case hex digits |
| RunFacts.RunsOfShaped | components/DownloadButtons.tsx:192-288 | every text run of an element carries a six-digit upper-case hex colour |
| RunFacts.RunsOfKeep | components/DownloadButtons.tsx:244-283 | marks only accumulate downwards: every run below carries the bold, italic, underline and strike marks set above it (not monospace, which a link run drops) |
| RunFacts.InheritedColor | components/DownloadButtons.tsx:254-259 | an explicit inline colour above reaches every text run below when no element below sets an inline colour, whatever the computed colours below are |
| RunFacts.InnermostColorWins | components/DownloadButtons.tsx:182-184 | an element's own inline colour is the colour of its runs, overriding any outer inline colour |
| RunFacts.TextOutsidePre | components/DownloadButtons.tsx:230-242 | outside `PRE`, an empty text gives no run; any other text gives exactly one run of the text with white-space runs collapsed to one space, untrimmed |
| RunFacts.LineRunsBreaks | components/DownloadButtons.tsx:214-215 | the line runs hold one break fewer than there are lines |
| RunFacts.LineRunsTexts | components/DownloadButtons.tsx:216-228 | the texts of the line runs are the non-empty lines, in order |
| RunFacts.TextInPre | components/DownloadButtons.tsx:213-229 | under its `PRE` parent, a text with k newlines gives exactly k breaks and one run per non-empty line |
| RunFacts.PreSplitIsNarrow | components/DownloadButtons.tsx:198-204 | text inside a `SPAN` inside the `PRE` is not split at newlines and is collapsed instead |
| RunFacts.BreakAndLink | components/DownloadButtons.tsx:261-279 | `BR` gives exactly one break; `A` gives exactly one underlined run, whatever its children are beyond their text |
| RunFacts.PreMonospace | components/DownloadButtons.tsx:307 | a `PRE` handed to the paragraph builder gives runs in the ordinary font, while a `PRE` inside an element gives monospace runs |
| RunFacts.BoldItalicExample | components/DownloadButtons.tsx:160-161 | `<p><b><i>x</i></b></p>` gives one run that is both bold and italic |
| Paragraphs.PushParagraph | components/DownloadButtons.tsx:290-320 | the method appends exactly what `ParaFor` describes |
| Paragraphs.ParaForCount | components/DownloadButtons.tsx:307-308 | an element gives at most one paragraph, none exactly when it yields no runs, holding all of its runs |
| Paragraphs.ParaForOptions | components/DownloadButtons.tsx:309-318 | the paragraph has the given heading and numbering, spacing 200 after, the given alignment else the element's own, and an indent exactly when a non-zero one was given |
| Paragraphs.ParaDefaultShaped | components/DownloadButtons.tsx:301-306 | the paragraph's default colour is the element's computed colour, else the caller's, else 000000, always six upper-case hex digits |
| Paragraphs.ParaForShaped | components/DownloadButtons.tsx:301-307 | every run of the paragraph has a six-digit hex colour |
| Paragraphs.ParaIgnoresOwnTag | components/DownloadButtons.tsx:307 | the element's own tag and style add no marks to its paragraph |
| Lists.RefOf | components/DownloadButtons.tsx:332-333 | a `UL` uses the bullet scheme and any other list the numbered one |
| Lists.ItemOpts | components/DownloadButtons.tsx:344-346 | an item's paragraph is numbered with its list's scheme at the raw depth, with nothing else set |
| Lists.ItemMain | components/DownloadButtons.tsx:339-342 | the item's copy keeps its tag and has no list anywhere below it |
| Lists.ProcessList | components/DownloadButtons.tsx:326-355 | the loop appends exactly the paragraphs `ListParas` defines |
| Lists.PushItem | components/DownloadButtons.tsx:336-353 | one item appends its own paragraph, then its direct sub-lists |
| Lists.PushNestedLists | components/DownloadButtons.tsx:348-353 | the item's direct-child lists are appended, one level deeper, in order |
| Lists.ListNumbered | components/DownloadButtons.tsx:326-355 | every paragraph a list gives is numbered at its depth or deeper |
| Lists.ListShaped | components/DownloadButtons.tsx:326-355 | every run in a list's paragraphs has a six-digit hex colour |
| Lists.DeepListsUndefined | components/DownloadButtons.tsx:345 | the depth is not clamped: from depth 3 on, paragraphs refer to numbering levels the schemes do not define |
| Lists.ItemsAtOwnLevel | components/DownloadButtons.tsx:335-346 | the paragraphs at a list's own depth are exactly the items' own paragraphs (`OwnParas`), in item order, at most one per item, each on that list's scheme |
| Lists.ListAtOwnLevel | components/DownloadButtons.tsx:335-346 | a list's paragraphs at its own level are exactly its direct `LI` items' own paragraphs in order, at most one per item, all on its own scheme |
| Lists.NoDirectListsNoNested | components/DownloadButtons.tsx:348-353 | an item with no direct-child list contributes nothing below its own paragraph |
| Lists.DeeperListsDropped | components/DownloadButtons.tsx:339-353 | lists nested deeper than a direct child of the item give no paragraphs: the item is just its own list-free paragraph |
| Lists.ItemIgnoresComputedStyle | components/DownloadButtons.tsx:339 | the item's computed colour and alignment are never used, because its copy is detached |
| Lists.NestedListExample | components/DownloadButtons.tsx:326-355 | `<ul><li>A<ul><li>B</li></ul></li><li>C</li></ul>` gives A at level 0, B at level 1, then C at level 0 |
| Lists.ItemOwnParagraph | components/DownloadButtons.tsx:339-346 | an item starting with visible text gives a paragraph of its own |
| Lists.ItemLeaf | components/DownloadButtons.tsx:336-346 | a plain text item gives exactly one paragraph, numbered with its scheme and depth |
| Tables.TrsOf | components/DownloadButtons.tsx:362-366 | the rows picked from a section are `TR` elements |
| Tables.RowElems | components/DownloadButtons.tsx:362-366 | every row of a table is a `TR` element |
| Tables.CellElems | components/DownloadButtons.tsx:369-371 | every cell of a row is a `TH` or `TD` element |
| Tables.RowElemsSound | components/DownloadButtons.tsx:362-366 | each row is a direct child of the table or of one of its `THEAD`/`TBODY`/`TFOOT` children |
| Tables.RowElemsComplete | components/DownloadButtons.tsx:362-366 | every direct `TR` child of the table is a row |
| Tables.PlainRows | components/DownloadButtons.tsx:362-366 | a table made only of `TR` children has exactly those rows, in order |
| Tables.SectionOrder | components/DownloadButtons.tsx:362-366 | with a head and a body, the head's rows come first, then the body's |
| Tables.BlockOpts | components/DownloadButtons.tsx:388-408 | a block child of a cell keeps its heading level and its own alignment, and gets no indent or numbering |
| Tables.CellParas | components/DownloadButtons.tsx:373-426 | a cell always holds at least one paragraph |
| Tables.HasBlockIff | components/DownloadButtons.tsx:376-415 | a cell has a block exactly when some direct child is `P`, `DIV`, `PRE`, a heading, `UL` or `OL` |
| Tables.NoBlockNoParas | components/DownloadButtons.tsx:377-415 | children with no block give no block paragraphs |
| Tables.PushCellChild | components/DownloadButtons.tsx:377-415 | one child appends its paragraphs and reports whether it is a block |
| Tables.BuildCell | components/DownloadButtons.tsx:373-426 | the loop over a cell's children builds exactly the cell `CellParas` describes |
| Tables.BuildRow | components/DownloadButtons.tsx:368-429 | the loop builds the row of all the row's cells, in order |
| Tables.BuildTable | components/DownloadButtons.tsx:358-447 | the loop builds the table of all its rows, in order |
| Tables.TableShape | components/DownloadButtons.tsx:428-446 | the table has one row per selected row and one cell per selected cell, in order |
| Tables.InlineCell | components/DownloadButtons.tsx:417-425 | a cell with no block child is one paragraph of the whole cell, or the placeholder when it has no runs |
| Tables.InlineBesideBlocksDropped | components/DownloadButtons.tsx:377-419 | once a cell has a block child, adding a further non-block child changes nothing |
| Tables.EmptyBlocksGivePlaceholder | components/DownloadButtons.tsx:421-425 | block children that give no paragraph leave the single empty placeholder paragraph |
| Tables.CellListAtTopLevel | components/DownloadButtons.tsx:410-413 | a list in a cell is flattened from depth 0 |
| Tables.CellHeading | components/DownloadButtons.tsx:388-403 | a heading in a cell gives one paragraph with the heading's level |
| Tables.CellParasShaped | components/DownloadButtons.tsx:373-426 | every run in a cell has a six-digit hex colour, except the uncoloured `TextRun("")` of the empty-cell placeholder (:424) |
| Tables.TableOfShaped | components/DownloadButtons.tsx:358-447 | every run in every cell of a table has a six-digit hex colour, except the uncoloured empty-cell placeholder's run (:424) |
| Walker.GlobalDefault | components/DownloadButtons.tsx:473-476 | the document colour is the host's computed colour, else the page body's, else 000000, always six upper-case hex digits |
| Walker.HostRoot | components/DownloadButtons.tsx:466-470 | the host root is an element with the host's computed colour holding the body's children |
| Walker.WalkOpts | components/DownloadButtons.tsx:519-552 | a heading gets its level; a block quote that is not a heading gets a 720 indent; all get their own alignment and no numbering |
| Walker.PushTextBlock | components/DownloadButtons.tsx:482-503 | a text node reached by the walk appends the block `TextBlocks` describes |
| Walker.WalkChild | components/DownloadButtons.tsx:481-556 | one child appends exactly its blocks |
| Walker.Walk | components/DownloadButtons.tsx:480-557 | the recursive walk appends exactly the blocks `WalkBlocks` defines |
| Walker.HtmlToDocxBlocks | components/DownloadButtons.tsx:449-563 | the translator returns the blocks of the host root's walk |
| Walker.DownloadBlocks | components/DownloadButtons.tsx:572-575 | the document is never empty: it has the translated blocks, or exactly one empty paragraph when there are none |
| Walker.TextParagraph | components/DownloadButtons.tsx:482-503 | a bare text node gives a block exactly when it is not all white space; that block is one paragraph of one unformatted run of the trimmed text |
| Walker.ChildrenBlocksConcat | components/DownloadButtons.tsx:481 | children's blocks follow one another in document order |
| Walker.TransparentWrapper | components/DownloadButtons.tsx:554-555 | an element the walk does not translate gives exactly what its children would give in its place |
| Walker.TopLevelBoldLost | components/DownloadButtons.tsx:482-501 | bold text straight under the body gives a plain paragraph without bold |
| Walker.BlankBody | components/DownloadButtons.tsx:484-485 | a body of white-space text only gives no blocks |
| Walker.ParagraphTag | components/DownloadButtons.tsx:519-552 | a heading, block quote, `P`, `DIV`, `PRE` or `SPAN` gives at most one paragraph, holding all its runs, with heading level, 720 block-quote indent and spacing 200 |
| Walker.ListAtTopLevel | components/DownloadButtons.tsx:514-517 | a list met by the walk gives only numbered paragraphs, from depth 0, at most one per item at level 0 on its own scheme |
| Walker.TableIsOneBlock | components/DownloadButtons.tsx:509-512 | a table met by the walk gives exactly one table block |
| Walker.DocumentShaped | components/DownloadButtons.tsx:449-563 | every text run in the whole document, in paragraphs and in table cells, has a six-digit upper-case hex colour, except the uncoloured run of an empty table cell's placeholder paragraph (:424) |

## Left out

- The React component is not modelled because it is user interface only. This covers hooks, busy flags, the root listener, the buttons and their icons.
- The editor's HTML export is not modelled because it is a call into the editor library. The model starts from the parsed tree.
- `DOMParser`, `importNode` and the off-screen host are not modelled because they are browser machinery. Attaching the host to the page and removing it are left out too. The walker takes the body's children and the two computed colours it reads as inputs.
- `getComputedStyle` is not modelled because it needs a CSS cascade. Its results are given as the computed colour and computed alignment of each element.
- `cloneNode` and `remove` in `processList` are values here, not in-place edits. `Dom.Detach` makes a copy, and `Dom.StripLists` is the copy without nested lists. This follows from modelling the tree as a datatype, and it is why object identity and aliasing are not captured.
- Comment nodes and other non-element nodes are not modelled. The tree has only text and element nodes.
- The `docx` objects, `Packer.toBlob`, `saveAs` and the WordprocessingML output are not modelled because they are serialisation and I/O. Only the records handed to them are modelled. The default document font, Calibri at 22 half-points, is not modelled either; it is a constant no translation step reads.
- The PDF download is not modelled because it loads fonts and images asynchronously and calls an external renderer.
- Case mapping is ASCII only. That is enough for tags, CSS keywords and hex digits.
- `Number()` is modelled on decimal digit strings only. Any other font weight is treated as not a number. An `rgba` alpha is zero exactly when all of its digits are `0`.
- Named colours resolve only when written in lower case. `cssColorToHex` lower-cases its input first, so this loses nothing.
- Strings are sequences of characters, so `slice(0, 80)` counts characters, not UTF-16 code units.
- The shared output arrays are modelled as sequences that each method extends and returns. A list or paragraph pushed straight onto the walker's `out` array is modelled as the paragraphs built on their own and then appended as blocks.
- The removal of the host when the walk throws is not modelled. No step of the model can fail.
- The other editor components, the toolbar and the template pages are not modelled because they are user interface.
- The empty-cell placeholder paragraph (`new TextRun("")`, line 424) carries no colour; the colour properties of cells and documents exempt exactly that paragraph.
- `NamedColor`: a key that `NAMED` only inherits from `Object.prototype` (such as `constructor`) is not modelled; the source would then call `toUpperCase` on a function and throw, while the model answers `None`.
