/**
 * The abstract records the translator hands to the `docx` library: runs,
 * paragraphs, tables and the top-level blocks of the document, together with
 * the static document settings (default run font, the two numbering schemes,
 * table borders). Serialisation to a WordprocessingML package is not modelled.
 */
module Docx {
  import opened Wrappers

  /**
   * A run: a line break, or text with its formatting. `mono` is the Consolas
   * font at size 20 (half-points) that code gets; `color` is absent when the
   * run carries no colour of its own.
   */
  datatype Run =
    | Break
    | TextRun(text: string, bold: bool, ital: bool, underline: bool, strike: bool,
              mono: bool, color: Option<string>)

  /** A run with only text: no formatting and no colour (`new TextRun("")`). */
  function PlainRun(text: string): (r: Run)
    ensures r.TextRun? && r.text == text && r.color.None?
    ensures !r.bold && !r.ital && !r.underline && !r.strike && !r.mono
  {
    TextRun(text, false, false, false, false, false, None)
  }

  datatype Align = Left | Center | Right | Justified

  /** The two numbering schemes, by reference name. */
  datatype ListRef = Bullet | Number

  function RefName(r: ListRef): string {
    match r
    case Bullet => "bullet-list"
    case Number => "number-list"
  }

  datatype Numbering = Numbering(reference: ListRef, level: nat)

  /**
   * A paragraph: its runs, a heading level 1..6, alignment, a list numbering,
   * a left indent in twentieths of a point, and the spacing after it.
   */
  datatype Paragraph = Paragraph(runs: seq<Run>, heading: Option<nat>, alignment: Option<Align>,
                                 numbering: Option<Numbering>, indentLeft: Option<int>,
                                 spacingAfter: Option<nat>)

  /** A paragraph holding the given runs and nothing else. */
  function PlainParagraph(runs: seq<Run>): (p: Paragraph)
    ensures p.runs == runs && p.heading.None? && p.alignment.None? && p.numbering.None?
    ensures p.indentLeft.None? && p.spacingAfter.None?
  {
    Paragraph(runs, None, None, None, None, None)
  }

  /** The paragraph that stands for "nothing here": one run with empty text. */
  function EmptyParagraph(): (p: Paragraph)
    ensures p.runs == [PlainRun("")]
  {
    PlainParagraph([PlainRun("")])
  }

  datatype Border = Border(size: nat, color: string)

  datatype Cell = Cell(paras: seq<Paragraph>)
  datatype Row = Row(cells: seq<Cell>)

  /** A table: its rows, its width in percent, and the outer and inner single-line borders. */
  datatype Table = Table(rows: seq<Row>, widthPercent: nat, outer: Border, inside: Border)

  /** Every table gets the same full-width layout, light grey outside and lighter grey inside. */
  function MkTable(rows: seq<Row>): (t: Table)
    ensures t.rows == rows && t.widthPercent == 100
    ensures t.outer == Border(1, "CCCCCC") && t.inside == Border(1, "DDDDDD")
  {
    Table(rows, 100, Border(1, "CCCCCC"), Border(1, "DDDDDD"))
  }

  datatype Block = Para(p: Paragraph) | Tbl(t: Table)

  /** Paragraphs as top-level blocks, in order. */
  function Paras(ps: seq<Paragraph>): (bs: seq<Block>)
    ensures |bs| == |ps| && forall i :: 0 <= i < |ps| ==> bs[i] == Para(ps[i])
  {
    seq(|ps|, i requires 0 <= i < |ps| => Para(ps[i]))
  }

  lemma ParasConcat(a: seq<Paragraph>, b: seq<Paragraph>)
    ensures Paras(a + b) == Paras(a) + Paras(b)
  {
  }

  // ---------------------------------------------------------------------------
  // Document settings
  // ---------------------------------------------------------------------------

  datatype LevelFormat = BulletFormat | DecimalFormat

  /** One numbering level: its index, format, marker text and hanging indent. */
  datatype Level = Level(level: nat, format: LevelFormat, text: string, alignment: Align,
                         indentLeft: nat, hanging: nat)

  datatype Scheme = Scheme(reference: ListRef, levels: seq<Level>)

  function BulletLevels(): seq<Level> {
    [Level(0, BulletFormat, "•", Left, 720, 360),
     Level(1, BulletFormat, "◦", Left, 1440, 360),
     Level(2, BulletFormat, "▪", Left, 2160, 360)]
  }

  function NumberLevels(): seq<Level> {
    [Level(0, DecimalFormat, "%1.", Left, 720, 360),
     Level(1, DecimalFormat, "%2.", Left, 1440, 360),
     Level(2, DecimalFormat, "%3.", Left, 2160, 360)]
  }

  /** The numbering configuration of the document: a bullet scheme and a decimal scheme. */
  function NumberingConfig(): seq<Scheme> {
    [Scheme(Bullet, BulletLevels()), Scheme(Number, NumberLevels())]
  }

  /** The scheme a reference names. */
  function SchemeOf(r: ListRef): (s: Scheme)
    ensures s in NumberingConfig() && s.reference == r
  {
    var c := NumberingConfig();
    assert c[0] in c && c[1] in c;
    match r
    case Bullet => c[0]
    case Number => c[1]
  }

  /** The numbering format a scheme's levels use: bullets for one, decimals for the other. */
  function FormatOf(r: ListRef): LevelFormat {
    if r == Bullet then BulletFormat else DecimalFormat
  }

  /**
   * Both schemes have exactly three levels. Level `i` sits at index `i`, is indented
   * 720 * (i + 1) twips with a 360 twip hanging indent, is left aligned, and uses its
   * scheme's format; the decimal scheme's marker for level `i` is "%(i+1).".
   */
  lemma NumberingShape(r: ListRef, i: nat)
    requires i < 3
    ensures |SchemeOf(r).levels| == 3
    ensures SchemeOf(r).levels[i] == Level(i, FormatOf(r), SchemeOf(r).levels[i].text, Left, 720 * (i + 1), 360)
    ensures r == Number ==> SchemeOf(r).levels[i].text == "%" + [('1' as int + i) as char] + "."
  {
  }

  /** A numbering level the document defines: levels 0, 1 and 2 only. */
  predicate LevelDefined(n: Numbering) {
    exists l :: l in SchemeOf(n.reference).levels && l.level == n.level
  }

  lemma LevelDefinedIff(n: Numbering)
    ensures LevelDefined(n) <==> n.level < 3
  {
    var ls := SchemeOf(n.reference).levels;
    if n.level < 3 {
      NumberingShape(n.reference, n.level);
      assert ls[n.level] in ls;
    } else {
      forall l | l in ls ensures l.level != n.level {
        var i :| 0 <= i < 3 && ls[i] == l;
        NumberingShape(n.reference, i);
      }
    }
  }
}
