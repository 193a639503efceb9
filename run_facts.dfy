/**
 * What the runs of an element satisfy: every colour has the canonical shape,
 * inherited marks are never lost, an inline colour reaches every run below it,
 * white space outside `PRE` and line splitting under `PRE`.
 */
module RunFacts {
  import opened Wrappers
  import opened Strings
  import opened Css
  import opened Dom
  import opened Docx
  import opened Style
  import opened Runs

  /** A default colour as the translator passes it: six hex digits, or nothing yet. */
  predicate DefaultOk(dc: string) {
    dc == "" || IsHex6(dc)
  }

  // ---------------------------------------------------------------------------
  // Colour shape
  // ---------------------------------------------------------------------------

  /** Every text run has a colour of exactly six upper-case hexadecimal digits. */
  predicate RunsShaped(rs: seq<Run>) {
    forall i :: 0 <= i < |rs| && rs[i].TextRun? ==> rs[i].color.Some? && IsHex6(rs[i].color.value)
  }

  lemma RunColorShaped(m: Marks, dc: string)
    requires ColorShaped(m) && DefaultOk(dc)
    ensures IsHex6(RunColor(m, dc))
  {
    var c := m.color.GetOr(OrElse(dc, "000000"));
    assert IsHex6(c);
    UpperHex6(c);
  }

  /** Without any colour and any default the fallback is black. */
  lemma RunColorFallback(dc: string)
    requires dc == ""
    ensures RunColor(NoMarks(), dc) == "000000"
  {
    UpperHex6("000000");
  }

  lemma NextDefaultShaped(next: Marks, computed: string, dc: string)
    requires ColorShaped(next) && DefaultOk(dc)
    ensures IsHex6(NextDefault(next, computed, dc))
  {
    var c := next.color.GetOr(CssColorToHex(computed).GetOr(OrElse(dc, "000000")));
    assert IsHex6(c);
    UpperHex6(c);
  }

  lemma {:induction false} LineRunsShaped(lines: seq<string>, m: Marks, color: string)
    requires IsHex6(color)
    ensures RunsShaped(LineRuns(lines, m, color))
  {
    if lines != [] {
      LineRunsShaped(lines[..|lines| - 1], m, color);
    }
  }

  lemma TextRunsShaped(inPre: bool, raw: string, m: Marks, dc: string)
    requires ColorShaped(m) && DefaultOk(dc)
    ensures RunsShaped(TextRuns(inPre, raw, m, dc))
  {
    RunColorShaped(m, dc);
    var text := if inPre then NormalizeNewlines(raw) else CollapseSpaces(raw);
    if text != "" && inPre {
      LineRunsShaped(Split(text, '\n'), m, RunColor(m, dc));
    }
  }

  /** Given a shaped colour and default, every run `mkRuns` makes has a canonical colour. */
  lemma {:induction false} RunsOfShaped(n: Node, m: Marks, dc: string)
    requires ColorShaped(m) && DefaultOk(dc)
    ensures RunsShaped(RunsOf(n, m, dc))
    decreases n, 0
  {
    if n.Elem? {
      ChildrenRunsShaped(n.tag == "PRE", n.children, m, dc);
    }
  }

  lemma {:induction false} ChildrenRunsShaped(inPre: bool, cs: seq<Node>, m: Marks, dc: string)
    requires ColorShaped(m) && DefaultOk(dc)
    ensures RunsShaped(ChildrenRuns(inPre, cs, m, dc))
    decreases cs, 0
  {
    if cs != [] {
      ChildrenRunsShaped(inPre, cs[..|cs| - 1], m, dc);
      ChildRunsShaped(inPre, cs[|cs| - 1], m, dc);
    }
  }

  lemma {:induction false} ChildRunsShaped(inPre: bool, c: Node, m: Marks, dc: string)
    requires ColorShaped(m) && DefaultOk(dc)
    ensures RunsShaped(ChildRuns(inPre, c, m, dc))
    decreases c, 1
  {
    match c
    case Text(t) => TextRunsShaped(inPre, t, m, dc);
    case Elem(tag, style, _, _, computed, _, _) =>
      var next := ParseInlineMarks(tag, style, m);
      NextDefaultShaped(next, computed, dc);
      if tag != "BR" && tag != "A" {
        RunsOfShaped(c, next, NextDefault(next, computed, dc));
      }
  }

  // ---------------------------------------------------------------------------
  // Marks are never lost
  // ---------------------------------------------------------------------------

  /** Every text run keeps the bold, italic, underline and strike marks of `m`. */
  predicate RunsKeep(rs: seq<Run>, m: Marks) {
    forall i :: 0 <= i < |rs| && rs[i].TextRun? ==>
      (m.bold ==> rs[i].bold) && (m.ital ==> rs[i].ital)
      && (m.underline ==> rs[i].underline) && (m.strike ==> rs[i].strike)
  }

  lemma {:induction false} LineRunsKeep(lines: seq<string>, m: Marks, color: string)
    ensures RunsKeep(LineRuns(lines, m, color), m)
  {
    if lines != [] {
      LineRunsKeep(lines[..|lines| - 1], m, color);
    }
  }

  lemma TextRunsKeep(inPre: bool, raw: string, m: Marks, dc: string)
    ensures RunsKeep(TextRuns(inPre, raw, m, dc), m)
  {
    var text := if inPre then NormalizeNewlines(raw) else CollapseSpaces(raw);
    if text != "" && inPre {
      LineRunsKeep(Split(text, '\n'), m, RunColor(m, dc));
    }
  }

  /** Marks accumulated above an element survive in every run below it, links included. */
  lemma {:induction false} RunsOfKeep(n: Node, m: Marks, dc: string)
    ensures RunsKeep(RunsOf(n, m, dc), m)
    decreases n, 0
  {
    if n.Elem? {
      ChildrenRunsKeep(n.tag == "PRE", n.children, m, dc);
    }
  }

  lemma {:induction false} ChildrenRunsKeep(inPre: bool, cs: seq<Node>, m: Marks, dc: string)
    ensures RunsKeep(ChildrenRuns(inPre, cs, m, dc), m)
    decreases cs, 0
  {
    if cs != [] {
      ChildrenRunsKeep(inPre, cs[..|cs| - 1], m, dc);
      ChildRunsKeep(inPre, cs[|cs| - 1], m, dc);
    }
  }

  lemma {:induction false} ChildRunsKeep(inPre: bool, c: Node, m: Marks, dc: string)
    ensures RunsKeep(ChildRuns(inPre, c, m, dc), m)
    decreases c, 1
  {
    match c
    case Text(t) => TextRunsKeep(inPre, t, m, dc);
    case Elem(tag, style, _, _, computed, _, _) =>
      var next := ParseInlineMarks(tag, style, m);
      if tag != "BR" && tag != "A" {
        RunsOfKeep(c, next, NextDefault(next, computed, dc));
      }
  }

  // ---------------------------------------------------------------------------
  // Colour inheritance
  // ---------------------------------------------------------------------------

  /** No element at or below `n` carries an inline colour. */
  predicate NoInlineColor(n: Node)
    decreases n, 1
  {
    n.Elem? ==> StyleColor(Lower(n.style)).None? && NoInlineColorIn(n.children)
  }

  predicate NoInlineColorIn(cs: seq<Node>)
    decreases cs, 0
  {
    forall i :: 0 <= i < |cs| ==> NoInlineColor(cs[i])
  }

  /** Every text run has colour `c`. */
  predicate RunsColored(rs: seq<Run>, c: string) {
    forall i :: 0 <= i < |rs| && rs[i].TextRun? ==> rs[i].color == Some(c)
  }

  lemma {:induction false} LineRunsColored(lines: seq<string>, m: Marks, c: string)
    ensures RunsColored(LineRuns(lines, m, c), c)
  {
    if lines != [] {
      LineRunsColored(lines[..|lines| - 1], m, c);
    }
  }

  lemma TextRunsColored(inPre: bool, raw: string, m: Marks, dc: string, c: string)
    requires m.color == Some(c) && IsHex6(c)
    ensures RunsColored(TextRuns(inPre, raw, m, dc), c)
  {
    UpperHex6(c);
    var text := if inPre then NormalizeNewlines(raw) else CollapseSpaces(raw);
    if text != "" && inPre {
      LineRunsColored(Split(text, '\n'), m, c);
    }
  }

  /**
   * An explicit colour in the marks reaches every run below, whatever colour the
   * browser computes for the descendants, as long as none of them sets its own.
   */
  lemma {:induction false} InheritedColor(n: Node, m: Marks, dc: string, c: string)
    requires m.color == Some(c) && IsHex6(c) && n.Elem? && NoInlineColorIn(n.children)
    ensures RunsColored(RunsOf(n, m, dc), c)
    decreases n, 0
  {
    InheritedColorChildren(n.tag == "PRE", n.children, m, dc, c);
  }

  lemma {:induction false} InheritedColorChildren(inPre: bool, cs: seq<Node>, m: Marks, dc: string, c: string)
    requires m.color == Some(c) && IsHex6(c) && NoInlineColorIn(cs)
    ensures RunsColored(ChildrenRuns(inPre, cs, m, dc), c)
    decreases cs, 0
  {
    if cs != [] {
      var pre := cs[..|cs| - 1];
      assert NoInlineColorIn(pre) by {
        forall i | 0 <= i < |pre| ensures NoInlineColor(pre[i]) {
          assert pre[i] == cs[i];
        }
      }
      InheritedColorChildren(inPre, cs[..|cs| - 1], m, dc, c);
      InheritedColorChild(inPre, cs[|cs| - 1], m, dc, c);
    }
  }

  lemma {:induction false} InheritedColorChild(inPre: bool, ch: Node, m: Marks, dc: string, c: string)
    requires m.color == Some(c) && IsHex6(c) && NoInlineColor(ch)
    ensures RunsColored(ChildRuns(inPre, ch, m, dc), c)
    decreases ch, 1
  {
    match ch
    case Text(t) => TextRunsColored(inPre, t, m, dc, c);
    case Elem(tag, style, _, _, computed, _, _) =>
      var next := ParseInlineMarks(tag, style, m);
      assert next.color == Some(c);
      if tag != "BR" && tag != "A" {
        InheritedColor(ch, next, NextDefault(next, computed, dc), c);
      }
  }

  /**
   * The innermost inline colour wins: an element with its own colour `c` gives
   * every run below it that colour, whatever colour it inherited.
   */
  lemma InnermostColorWins(inPre: bool, el: Node, m: Marks, dc: string, c: string)
    requires el.Elem? && StyleColor(Lower(el.style)) == Some(c) && NoInlineColorIn(el.children)
    ensures RunsColored(ChildRuns(inPre, el, m, dc), c)
  {
    OwnColorNext(el, m, c);
    if el.tag == "A" {
      OwnColorLink(inPre, el, m, dc, c);
    } else if el.tag == "BR" {
      ChildRunsElem(inPre, el, m, dc);
    } else {
      OwnColorBelow(inPre, el, m, dc, c);
    }
  }

  lemma OwnColorNext(el: Node, m: Marks, c: string)
    requires el.Elem? && StyleColor(Lower(el.style)) == Some(c)
    ensures ParseInlineMarks(el.tag, el.style, m).color == Some(c) && IsHex6(c)
  {
  }

  /** A link whose marks carry colour `c` is one run of colour `c`. */
  lemma OwnColorLink(inPre: bool, el: Node, m: Marks, dc: string, c: string)
    requires el.Elem? && el.tag == "A" && ParseInlineMarks(el.tag, el.style, m).color == Some(c)
    ensures RunsColored(ChildRuns(inPre, el, m, dc), c)
  {
    ChildRunsElem(inPre, el, m, dc);
  }

  /** An ordinary element whose marks carry colour `c` passes it to every run below. */
  lemma OwnColorBelow(inPre: bool, el: Node, m: Marks, dc: string, c: string)
    requires el.Elem? && el.tag != "A" && el.tag != "BR" && NoInlineColorIn(el.children)
    requires ParseInlineMarks(el.tag, el.style, m).color == Some(c) && IsHex6(c)
    ensures RunsColored(ChildRuns(inPre, el, m, dc), c)
  {
    var next := ParseInlineMarks(el.tag, el.style, m);
    ChildRunsElem(inPre, el, m, dc);
    InheritedColor(el, next, NextDefault(next, el.computedColor, dc), c);
  }

  // ---------------------------------------------------------------------------
  // Text: white space outside PRE, lines under PRE
  // ---------------------------------------------------------------------------

  /**
   * Outside `PRE` a text node gives one run exactly when it is not empty; its
   * white space is collapsed to single spaces but not trimmed.
   */
  lemma TextOutsidePre(raw: string, m: Marks, dc: string)
    ensures var rs := TextRuns(false, raw, m, dc);
      |rs| == (if raw == "" then 0 else 1)
      && (raw != "" ==> rs[0] == StyledRun(CollapseSpaces(raw), m, RunColor(m, dc))
                        && Collapsed(rs[0].text)
                        && (IsSpace(rs[0].text[0]) <==> IsSpace(raw[0])))
  {
    CollapseSpacesShape(raw);
  }

  function BreakCount(rs: seq<Run>): nat {
    if rs == [] then 0 else BreakCount(rs[..|rs| - 1]) + (if rs[|rs| - 1].Break? then 1 else 0)
  }

  /** The texts of the text runs, in order. */
  function Texts(rs: seq<Run>): seq<string> {
    if rs == [] then [] else Texts(rs[..|rs| - 1]) + (if rs[|rs| - 1].TextRun? then [rs[|rs| - 1].text] else [])
  }

  /** The non-empty lines, in order. */
  function NonEmpty(lines: seq<string>): seq<string> {
    if lines == [] then []
    else NonEmpty(lines[..|lines| - 1]) + (if lines[|lines| - 1] == "" then [] else [lines[|lines| - 1]])
  }

  lemma {:induction false} BreakCountConcat(a: seq<Run>, b: seq<Run>)
    ensures BreakCount(a + b) == BreakCount(a) + BreakCount(b)
    decreases |b|
  {
    if b != [] {
      assert (a + b)[..|a + b| - 1] == a + b[..|b| - 1];
      BreakCountConcat(a, b[..|b| - 1]);
    } else {
      assert a + b == a;
    }
  }

  lemma {:induction false} TextsConcat(a: seq<Run>, b: seq<Run>)
    ensures Texts(a + b) == Texts(a) + Texts(b)
    decreases |b|
  {
    if b != [] {
      assert (a + b)[..|a + b| - 1] == a + b[..|b| - 1];
      TextsConcat(a, b[..|b| - 1]);
    } else {
      assert a + b == a;
    }
  }

  lemma SingleRunCounts(r: Run)
    ensures BreakCount([r]) == (if r.Break? then 1 else 0)
    ensures Texts([r]) == (if r.TextRun? then [r.text] else [])
  {
    assert [r][..0] == [];
  }

  /** The pieces `LineRuns` appends for one more line. */
  lemma LineStepCounts(first: bool, line: string, m: Marks, color: string)
    ensures var b := if first then [] else [Break];
      var c := if line == "" then [] else [StyledRun(line, m, color)];
      BreakCount(b) == (if first then 0 else 1) && Texts(b) == []
      && BreakCount(c) == 0 && Texts(c) == (if line == "" then [] else [line])
  {
    SingleRunCounts(Break);
    if line != "" {
      SingleRunCounts(StyledRun(line, m, color));
    }
  }

  /** The runs of `n` lines hold `n - 1` breaks. */
  lemma {:induction false} LineRunsBreaks(lines: seq<string>, m: Marks, color: string)
    ensures BreakCount(LineRuns(lines, m, color)) == (if lines == [] then 0 else |lines| - 1)
  {
    if lines != [] {
      var pre, last := lines[..|lines| - 1], lines[|lines| - 1];
      LineRunsBreaks(pre, m, color);
      var a := LineRuns(pre, m, color);
      var b: seq<Run> := if |lines| > 1 then [Break] else [];
      var c: seq<Run> := if last == "" then [] else [StyledRun(last, m, color)];
      assert LineRuns(lines, m, color) == a + b + c;
      BreakCountConcat(a + b, c);
      BreakCountConcat(a, b);
      LineStepCounts(|lines| == 1, last, m, color);
    }
  }

  /** The text runs of a list of lines are its non-empty lines, in order. */
  lemma {:induction false} LineRunsTexts(lines: seq<string>, m: Marks, color: string)
    ensures Texts(LineRuns(lines, m, color)) == NonEmpty(lines)
  {
    if lines != [] {
      var pre, last := lines[..|lines| - 1], lines[|lines| - 1];
      LineRunsTexts(pre, m, color);
      var a := LineRuns(pre, m, color);
      var b: seq<Run> := if |lines| > 1 then [Break] else [];
      var c: seq<Run> := if last == "" then [] else [StyledRun(last, m, color)];
      assert LineRuns(lines, m, color) == a + b + c;
      TextsConcat(a + b, c);
      TextsConcat(a, b);
      LineStepCounts(|lines| == 1, last, m, color);
    }
  }

  /**
   * Under its `PRE` parent a text with k line feeds gives exactly k breaks, and
   * its text runs are the non-empty lines in order.
   */
  lemma TextInPre(raw: string, m: Marks, dc: string)
    ensures BreakCount(TextRuns(true, raw, m, dc)) == Count(raw, '\n')
    ensures Texts(TextRuns(true, raw, m, dc)) == NonEmpty(Split(NormalizeNewlines(raw), '\n'))
  {
    var text := NormalizeNewlines(raw);
    NormalizeNewlinesEmpty(raw);
    NormalizeNewlinesKeepsLineFeeds(raw);
    if text != "" {
      LineRunsBreaks(Split(text, '\n'), m, RunColor(m, dc));
      LineRunsTexts(Split(text, '\n'), m, RunColor(m, dc));
    } else {
      assert Split(text, '\n') == [""];
    }
  }

  // ---------------------------------------------------------------------------
  // Breaks, links and PRE
  // ---------------------------------------------------------------------------

  /**
   * `<br>` gives exactly one break. `<a>` gives exactly one underlined run of its
   * text, else its `href`; its children are never descended into, so two links
   * with the same text content give the same run.
   */
  lemma BreakAndLink(inPre: bool, el: Node, m: Marks, dc: string, other: seq<Node>)
    requires el.Elem?
    requires ChildrenText(other) == ChildrenText(el.children)
    ensures el.tag == "BR" ==> ChildRuns(inPre, el, m, dc) == [Break]
    ensures el.tag == "A" ==>
      var rs := ChildRuns(inPre, el, m, dc);
      |rs| == 1 && rs[0].TextRun? && rs[0].underline && rs[0].text == OrElse(TextContent(el), el.href)
      && ChildRuns(inPre, el.(children := other), m, dc) == rs
  {
    ChildRunsElem(inPre, el, m, dc);
    ChildRunsElem(inPre, el.(children := other), m, dc);
  }

  predicate AllText(cs: seq<Node>) {
    forall i :: 0 <= i < |cs| ==> cs[i].Text?
  }

  /** Every text run is (or is not) in the monospace font. */
  predicate RunsMono(rs: seq<Run>, mono: bool) {
    forall i :: 0 <= i < |rs| && rs[i].TextRun? ==> rs[i].mono == mono
  }

  lemma {:induction false} LineRunsMono(lines: seq<string>, m: Marks, color: string)
    ensures RunsMono(LineRuns(lines, m, color), m.code)
  {
    if lines != [] {
      LineRunsMono(lines[..|lines| - 1], m, color);
    }
  }

  lemma {:induction false} TextChildrenMono(inPre: bool, cs: seq<Node>, m: Marks, dc: string)
    requires AllText(cs)
    ensures RunsMono(ChildrenRuns(inPre, cs, m, dc), m.code)
    decreases cs
  {
    if cs != [] {
      var pre := cs[..|cs| - 1];
      assert AllText(pre) by {
        forall i | 0 <= i < |pre| ensures pre[i].Text? {
          assert pre[i] == cs[i];
        }
      }
      TextChildrenMono(inPre, pre, m, dc);
      var t := cs[|cs| - 1].text;
      var text := if inPre then NormalizeNewlines(t) else CollapseSpaces(t);
      if text != "" && inPre {
        LineRunsMono(Split(text, '\n'), m, RunColor(m, dc));
      }
    }
  }

  /**
   * A `PRE` whose children are text: handed to `mkRuns` directly with no marks
   * (as a top-level paragraph is), its runs are not monospace; met as a child
   * element, its runs are.
   */
  lemma PreMonospace(pre: Node, m: Marks, dc: string)
    requires pre.Elem? && pre.tag == "PRE" && AllText(pre.children)
    ensures RunsMono(RunsOf(pre, NoMarks(), dc), false)
    ensures forall inPre: bool :: RunsMono(ChildRuns(inPre, pre, m, dc), true)
  {
    TextChildrenMono(true, pre.children, NoMarks(), dc);
    forall inPre: bool ensures RunsMono(ChildRuns(inPre, pre, m, dc), true) {
      ChildRunsElem(inPre, pre, m, dc);
      var next := ParseInlineMarks(pre.tag, pre.style, m);
      assert next.code;
      TextChildrenMono(true, pre.children, next, NextDefault(next, pre.computedColor, dc));
    }
  }

  /**
   * Line splitting applies only to text whose own parent is the `PRE`: the text
   * of a `SPAN` inside a `PRE` is collapsed to one run and never broken.
   */
  lemma PreSplitIsNarrow(span: Node, t: string, m: Marks, dc: string)
    requires span.Elem? && span.tag == "SPAN" && span.children == [Text(t)] && t != ""
    ensures BreakCount(ChildRuns(true, span, m, dc)) == 0
    ensures Texts(ChildRuns(true, span, m, dc)) == [CollapseSpaces(t)]
  {
    ChildRunsElem(true, span, m, dc);
    var next := ParseInlineMarks(span.tag, span.style, m);
    var nextDc := NextDefault(next, span.computedColor, dc);
    ChildrenRunsSingle(false, Text(t), next, nextDc);
    assert RunsOf(span, next, nextDc) == TextRuns(false, t, next, nextDc);
    TextOutsidePre(t, next, nextDc);
    SingleRunCounts(TextRuns(false, t, next, nextDc)[0]);
  }

  /** `<b><i>x</i></b>` inside a paragraph gives one run that is both bold and italic. */
  lemma BoldItalicExample(p: Node, x: string, dc: string)
    requires x != ""
    requires p == Elem("P", "", "", "", "", "", [Elem("B", "", "", "", "", "", [Elem("I", "", "", "", "", "", [Text(x)])])])
    ensures var rs := RunsOf(p, NoMarks(), dc);
      |rs| == 1 && rs[0].TextRun? && rs[0].bold && rs[0].ital && rs[0].text == CollapseSpaces(x)
  {
    var b := p.children[0];
    var i := b.children[0];
    assert Lower("") == "";
    ExtractCssPropEmpty("color");
    var mb := ParseInlineMarks("B", "", NoMarks());
    var mi := ParseInlineMarks("I", "", mb);
    ParseInlineMarksExact("B", "", NoMarks());
    ParseInlineMarksExact("I", "", mb);
    var db := NextDefault(mb, "", dc);
    var di := NextDefault(mi, "", db);
    ChildrenRunsSingle(false, b, NoMarks(), dc);
    ChildrenRunsSingle(false, i, mb, db);
    ChildrenRunsSingle(false, Text(x), mi, di);
    ChildRunsElem(false, b, NoMarks(), dc);
    ChildRunsElem(false, i, mb, db);
    assert RunsOf(p, NoMarks(), dc) == RunsOf(b, mb, db);
    assert RunsOf(b, mb, db) == RunsOf(i, mi, di);
    assert RunsOf(i, mi, di) == TextRuns(false, x, mi, di);
    TextOutsidePre(x, mi, di);
  }
}
