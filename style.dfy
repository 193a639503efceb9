/**
 * Inline formatting and alignment read from one element: `parseInlineMarks`
 * (the marks a run inherits, extended by the element's tag and inline style)
 * and `getAlignment` (inline style, then class names, then the computed
 * `textAlign`).
 */
module Style {
  import opened Wrappers
  import opened Strings
  import opened Css
  import opened Docx

  /** The formatting a run accumulates on the way down; `color` is six hex digits when present. */
  datatype Marks = Marks(bold: bool, ital: bool, underline: bool, strike: bool, code: bool,
                         color: Option<string>)

  function NoMarks(): (m: Marks)
    ensures !m.bold && !m.ital && !m.underline && !m.strike && !m.code && m.color.None?
  {
    Marks(false, false, false, false, false, None)
  }

  /** Every mark set in `a` is set in `b`, and a colour in `a` means a colour in `b`. */
  predicate Included(a: Marks, b: Marks) {
    (a.bold ==> b.bold) && (a.ital ==> b.ital) && (a.underline ==> b.underline)
    && (a.strike ==> b.strike) && (a.code ==> b.code) && (a.color.Some? ==> b.color.Some?)
  }

  /** A colour, if any, has the canonical six-digit shape. */
  predicate ColorShaped(m: Marks) {
    m.color.Some? ==> IsHex6(m.color.value)
  }

  // ---------------------------------------------------------------------------
  // parseInlineMarks
  // ---------------------------------------------------------------------------

  predicate BoldTag(tag: string) { tag == "B" || tag == "STRONG" }
  predicate ItalicTag(tag: string) { tag == "I" || tag == "EM" }
  predicate UnderlineTag(tag: string) { tag == "U" }
  predicate StrikeTag(tag: string) { tag == "S" || tag == "DEL" || tag == "STRIKE" }
  predicate CodeTag(tag: string) { tag == "CODE" || tag == "PRE" }

  /** A property value as the translator tests it: found, and not "". */
  function Prop(style: string, prop: string): Option<string> {
    var v := ExtractCssProp(style, prop);
    if v.Some? && v.value != "" then v else None
  }

  /** `font-weight` says bold: it mentions "bold", or it is a number of at least 600. */
  predicate StyleBold(s: string) {
    var fw := Prop(s, "font-weight");
    fw.Some? && (Contains(fw.value, "bold") || (IsDigits(fw.value) && DecimalValue(fw.value) >= 600))
  }

  predicate StyleItalic(s: string) {
    var fs := Prop(s, "font-style");
    fs.Some? && Contains(fs.value, "italic")
  }

  predicate StyleUnderline(s: string) {
    var td := Prop(s, "text-decoration");
    td.Some? && Contains(Lower(td.value), "underline")
  }

  predicate StyleStrike(s: string) {
    var td := Prop(s, "text-decoration");
    td.Some? && (Contains(Lower(td.value), "line-through") || Contains(Lower(td.value), "strikethrough"))
  }

  /**
   * The inline colour: the value of the first "color:" in the style, which may
   * be the tail of another property such as "background-color:".
   */
  function StyleColor(s: string): (r: Option<string>)
    ensures r.Some? ==> IsHex6(r.value)
  {
    var raw := ExtractCssProp(s, "color");
    CssColorToHex(raw.GetOr(""))
  }

  /** The marks a tag adds. */
  function AddTagMarks(tag: string, m: Marks): (r: Marks)
    ensures Included(m, r) && r.color == m.color
  {
    m.(bold := m.bold || BoldTag(tag), ital := m.ital || ItalicTag(tag),
       underline := m.underline || UnderlineTag(tag),
       strike := m.strike || StrikeTag(tag), code := m.code || CodeTag(tag))
  }

  /** The marks a non-empty lower-cased inline style adds; its colour replaces the one in `m`. */
  function AddStyleMarks(s: string, m: Marks): (r: Marks)
    ensures Included(m, r) && r.code == m.code
    ensures r.color == if StyleColor(s).Some? then StyleColor(s) else m.color
  {
    var c := StyleColor(s);
    m.(bold := m.bold || StyleBold(s), ital := m.ital || StyleItalic(s),
       underline := m.underline || StyleUnderline(s),
       strike := m.strike || StyleStrike(s),
       color := if c.Some? then c else m.color)
  }

  /**
   * `parseInlineMarks(el, base)`: a copy of `base` with the marks the tag and
   * the lower-cased inline style add. A mark is never cleared, and an inline
   * colour replaces the inherited one.
   */
  function ParseInlineMarks(tag: string, style: string, base: Marks): (r: Marks)
    ensures Included(base, r)
    ensures r.color == if StyleColor(Lower(style)).Some? then StyleColor(Lower(style)) else base.color
    ensures ColorShaped(base) ==> ColorShaped(r)
  {
    var tagged := AddTagMarks(tag, base);
    var s := Lower(style);
    if s == "" then ExtractCssPropEmpty("color"); tagged
    else AddStyleMarks(s, tagged)
  }

  /** Each mark is set exactly when the base, the tag or the inline style sets it. */
  lemma ParseInlineMarksExact(tag: string, style: string, base: Marks)
    ensures var r, s := ParseInlineMarks(tag, style, base), Lower(style);
      && (r.bold <==> base.bold || BoldTag(tag) || StyleBold(s))
      && (r.ital <==> base.ital || ItalicTag(tag) || StyleItalic(s))
      && (r.underline <==> base.underline || UnderlineTag(tag) || StyleUnderline(s))
      && (r.strike <==> base.strike || StrikeTag(tag) || StyleStrike(s))
      && (r.code <==> base.code || CodeTag(tag))
  {
    var s := Lower(style);
    if s == "" {
      assert !StyleBold(s) && !StyleItalic(s) && !StyleUnderline(s) && !StyleStrike(s) by {
        ExtractCssPropEmpty("font-weight");
        ExtractCssPropEmpty("font-style");
        ExtractCssPropEmpty("text-decoration");
      }
    }
  }

  /** Nothing matches in an empty style. */
  lemma ExtractCssPropEmpty(prop: string)
    ensures ExtractCssProp("", prop).None?
  {
    ExtractCssPropLeftmost("", prop);
    forall j | 0 <= j <= 0 ensures !MatchesAt("", prop, j) {
      if NameAt("", prop, j) {
        assert prop == "";
        assert SkipSpaces("", 0) == 0;
      }
    }
  }

  // ---------------------------------------------------------------------------
  // getAlignment
  // ---------------------------------------------------------------------------

  /** The word naming each alignment in `text-align` values and in class names. */
  function Keyword(a: Align): string {
    match a
    case Center => "center"
    case Right => "right"
    case Justified => "justify"
    case Left => "left"
  }

  /** Precedence of the explicit alignments: center, then right, then justify, then left. */
  function Rank(a: Align): nat {
    match a
    case Center => 0
    case Right => 1
    case Justified => 2
    case Left => 3
  }

  /**
   * The inline style (white space removed, lower-cased) holds "text-align:<word>",
   * or the lower-cased class attribute holds "text-<word>".
   */
  predicate Requested(style: string, classAttr: string, a: Align) {
    Contains(Lower(RemoveSpaces(style)), "text-align:" + Keyword(a))
    || Contains(Lower(classAttr), "text-" + Keyword(a))
  }

  function ExplicitAlignment(style: string, classAttr: string): Option<Align> {
    if Requested(style, classAttr, Center) then Some(Center)
    else if Requested(style, classAttr, Right) then Some(Right)
    else if Requested(style, classAttr, Justified) then Some(Justified)
    else if Requested(style, classAttr, Left) then Some(Left)
    else None
  }

  /** The computed `textAlign`, lower-cased; "start" counts as left, anything unrecognised as nothing. */
  function ComputedAlignment(computed: string): Option<Align> {
    var n := Lower(computed);
    if Contains(n, "center") then Some(Center)
    else if Contains(n, "right") then Some(Right)
    else if Contains(n, "justify") then Some(Justified)
    else if Contains(n, "left") || Contains(n, "start") then Some(Left)
    else None
  }

  /** `getAlignment(el)` for an element with these attributes and this computed `textAlign`. */
  function GetAlignment(style: string, classAttr: string, computed: string): Option<Align> {
    var e := ExplicitAlignment(style, classAttr);
    if e.Some? then e else ComputedAlignment(computed)
  }

  /**
   * The alignment is `a` exactly when `a` is requested and no alignment of higher
   * precedence is, or when none is requested and the computed value gives `a`.
   */
  lemma AlignmentPrecedence(style: string, classAttr: string, computed: string, a: Align)
    ensures GetAlignment(style, classAttr, computed) == Some(a)
        <==> ((Requested(style, classAttr, a) && forall b :: Rank(b) < Rank(a) ==> !Requested(style, classAttr, b))
              || ((forall b :: !Requested(style, classAttr, b)) && ComputedAlignment(computed) == Some(a)))
  {
    var e := ExplicitAlignment(style, classAttr);
    if e.None? {
      assert forall b :: !Requested(style, classAttr, b) by {
        forall b ensures !Requested(style, classAttr, b) {
          match b
          case Center =>
          case Right =>
          case Justified =>
          case Left =>
        }
      }
    }
  }

  /** An alignment given in the attributes makes the computed value irrelevant. */
  lemma ExplicitAlignmentWins(style: string, classAttr: string, c1: string, c2: string)
    requires ExplicitAlignment(style, classAttr).Some?
    ensures GetAlignment(style, classAttr, c1) == GetAlignment(style, classAttr, c2)
  {
  }

  /** The computed value on its own: "start" is left, and a value naming none of the five words gives nothing. */
  lemma ComputedAlignmentWords(computed: string)
    ensures var n := Lower(computed);
      ComputedAlignment(computed).None?
      <==> (!Contains(n, "center") && !Contains(n, "right") && !Contains(n, "justify")
            && !Contains(n, "left") && !Contains(n, "start"))
    ensures var n := Lower(computed);
      Contains(n, "start") && !Contains(n, "center") && !Contains(n, "right") && !Contains(n, "justify")
      ==> ComputedAlignment(computed) == Some(Left)
  {
  }
}
