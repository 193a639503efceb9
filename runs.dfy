/**
 * `mkRuns`: the runs of one element's children. Text is collapsed (or, when
 * its parent is the `PRE` being walked, split into lines); `BR` becomes a
 * break; an `A` becomes one underlined run; any other element is descended
 * into with its marks added and its colour passed down as the new default.
 */
module Runs {
  import opened Wrappers
  import opened Strings
  import opened Css
  import opened Dom
  import opened Docx
  import opened Style

  /** `(marks.color || defaultColor || "000000").toUpperCase()`. */
  function RunColor(m: Marks, dc: string): string {
    Upper(m.color.GetOr(OrElse(dc, "000000")))
  }

  /** A text run carrying the marks; code is the monospace font. */
  function StyledRun(text: string, m: Marks, color: string): (r: Run)
    ensures r.TextRun? && r.text == text && r.color == Some(color) && r.mono == m.code
    ensures r.bold == m.bold && r.ital == m.ital && r.underline == m.underline && r.strike == m.strike
  {
    TextRun(text, m.bold, m.ital, m.underline, m.strike, m.code, Some(color))
  }

  /** The lines of a `PRE` text: a break before every line but the first, and a run for each non-empty line. */
  function LineRuns(lines: seq<string>, m: Marks, color: string): seq<Run> {
    if lines == [] then []
    else
      var last := lines[|lines| - 1];
      LineRuns(lines[..|lines| - 1], m, color)
      + (if |lines| > 1 then [Break] else [])
      + (if last == "" then [] else [StyledRun(last, m, color)])
  }

  lemma LineRunsSnoc(lines: seq<string>, line: string, m: Marks, color: string)
    ensures LineRuns(lines + [line], m, color)
         == LineRuns(lines, m, color) + (if |lines| > 0 then [Break] else [])
            + (if line == "" then [] else [StyledRun(line, m, color)])
  {
    assert (lines + [line])[..|lines|] == lines;
  }

  /** The runs of one text node whose parent is (or is not) the `PRE` being walked. */
  function TextRuns(inPre: bool, raw: string, m: Marks, dc: string): seq<Run> {
    var text := if inPre then NormalizeNewlines(raw) else CollapseSpaces(raw);
    if text == "" then []
    else if inPre then LineRuns(Split(text, '\n'), m, RunColor(m, dc))
    else [StyledRun(text, m, RunColor(m, dc))]
  }

  /** The default colour passed below an element: its inline colour, else its computed colour, else the current default. */
  function NextDefault(next: Marks, computed: string, dc: string): string {
    Upper(next.color.GetOr(CssColorToHex(computed).GetOr(OrElse(dc, "000000"))))
  }

  /** A link is one underlined run of its text (else its `href`), never descended into. */
  function LinkRun(el: Node, next: Marks, nextDc: string): (r: Run)
    requires el.Elem?
    ensures r.TextRun? && r.underline && !r.mono && r.text == OrElse(TextContent(el), el.href)
    ensures r.bold == next.bold && r.ital == next.ital && r.strike == next.strike
  {
    TextRun(OrElse(TextContent(el), el.href), next.bold, next.ital, true, next.strike, false,
            Some(next.color.GetOr(nextDc)))
  }

  /** `mkRuns(node, {marks, defaultColor})`. A text node has no children and gives no runs. */
  function RunsOf(n: Node, m: Marks, dc: string): seq<Run>
    decreases n, 0
  {
    if n.Text? then [] else ChildrenRuns(n.tag == "PRE", n.children, m, dc)
  }

  function ChildrenRuns(inPre: bool, cs: seq<Node>, m: Marks, dc: string): seq<Run>
    decreases cs, 0
  {
    if cs == [] then []
    else ChildrenRuns(inPre, cs[..|cs| - 1], m, dc) + ChildRuns(inPre, cs[|cs| - 1], m, dc)
  }

  /** The runs one child contributes. */
  function ChildRuns(inPre: bool, c: Node, m: Marks, dc: string): seq<Run>
    decreases c, 1
  {
    match c
    case Text(t) => TextRuns(inPre, t, m, dc)
    case Elem(tag, style, _, _, computed, _, _) =>
      var next := ParseInlineMarks(tag, style, m);
      var nextDc := NextDefault(next, computed, dc);
      if tag == "BR" then [Break]
      else if tag == "A" then [LinkRun(c, next, nextDc)]
      else RunsOf(c, next, nextDc)
  }

  /** The runs of an element child, by its tag. */
  lemma ChildRunsElem(inPre: bool, el: Node, m: Marks, dc: string)
    requires el.Elem?
    ensures var next := ParseInlineMarks(el.tag, el.style, m);
      var nextDc := NextDefault(next, el.computedColor, dc);
      ChildRuns(inPre, el, m, dc)
      == if el.tag == "BR" then [Break]
         else if el.tag == "A" then [LinkRun(el, next, nextDc)]
         else RunsOf(el, next, nextDc)
  {
  }

  lemma ChildrenRunsSingle(inPre: bool, c: Node, m: Marks, dc: string)
    ensures ChildrenRuns(inPre, [c], m, dc) == ChildRuns(inPre, c, m, dc)
  {
    assert [c][..0] == [];
  }

  /** Children are handled one after another: a further child appends its runs. */
  lemma ChildrenRunsSnoc(inPre: bool, cs: seq<Node>, c: Node, m: Marks, dc: string)
    ensures ChildrenRuns(inPre, cs + [c], m, dc) == ChildrenRuns(inPre, cs, m, dc) + ChildRuns(inPre, c, m, dc)
  {
    assert (cs + [c])[..|cs|] == cs;
  }

  // ---------------------------------------------------------------------------
  // The imperative walk
  // ---------------------------------------------------------------------------

  /** Appends the runs of the lines of a `PRE` text, a break before every line but the first. */
  method PushLineRuns(runs: seq<Run>, lines: seq<string>, m: Marks, color: string) returns (runs': seq<Run>)
    ensures runs' == runs + LineRuns(lines, m, color)
  {
    runs' := runs;
    var idx := 0;
    while idx < |lines|
      invariant 0 <= idx <= |lines|
      invariant runs' == runs + LineRuns(lines[..idx], m, color)
    {
      assert lines[..idx + 1] == lines[..idx] + [lines[idx]];
      LineRunsSnoc(lines[..idx], lines[idx], m, color);
      AppendAssoc(runs, LineRuns(lines[..idx], m, color), if idx > 0 then [Break] else []);
      AppendAssoc(runs, LineRuns(lines[..idx], m, color) + (if idx > 0 then [Break] else []),
                  if lines[idx] == "" then [] else [StyledRun(lines[idx], m, color)]);
      AppendAssoc(runs + LineRuns(lines[..idx], m, color), if idx > 0 then [Break] else [],
                  if lines[idx] == "" then [] else [StyledRun(lines[idx], m, color)]);
      if idx > 0 {
        runs' := runs' + [Break];
      }
      if lines[idx] != "" {
        runs' := runs' + [StyledRun(lines[idx], m, color)];
      }
      idx := idx + 1;
    }
    assert lines[..|lines|] == lines;
  }

  /** Appends the runs of one text node: collapsed, or line by line under `PRE`. */
  method PushTextRuns(runs: seq<Run>, inPre: bool, raw: string, m: Marks, dc: string) returns (runs': seq<Run>)
    ensures runs' == runs + TextRuns(inPre, raw, m, dc)
  {
    var text := if inPre then NormalizeNewlines(raw) else CollapseSpaces(raw);
    if text == "" {
      return runs;
    }
    var color := RunColor(m, dc);
    if inPre {
      runs' := PushLineRuns(runs, Split(text, '\n'), m, color);
    } else {
      runs' := runs + [StyledRun(text, m, color)];
    }
  }

  /** `mkRuns`: every child of `node` in turn, descending into ordinary elements. */
  method MkRuns(node: Node, m: Marks, dc: string) returns (runs: seq<Run>)
    ensures runs == RunsOf(node, m, dc)
    decreases node
  {
    runs := [];
    if node.Text? {
      return;
    }
    var inPre := node.tag == "PRE";
    var cs := node.children;
    var i := 0;
    while i < |cs|
      invariant 0 <= i <= |cs|
      invariant runs == ChildrenRuns(inPre, cs[..i], m, dc)
    {
      var child := cs[i];
      assert cs[..i + 1] == cs[..i] + [child];
      ChildrenRunsSnoc(inPre, cs[..i], child, m, dc);
      AppendAssoc([], ChildrenRuns(inPre, cs[..i], m, dc), ChildRuns(inPre, child, m, dc));
      if child.Text? {
        runs := PushTextRuns(runs, inPre, child.text, m, dc);
      } else {
        var next := ParseInlineMarks(child.tag, child.style, m);
        var nextDc := NextDefault(next, child.computedColor, dc);
        if child.tag == "BR" {
          runs := runs + [Break];
        } else if child.tag == "A" {
          runs := runs + [LinkRun(child, next, nextDc)];
        } else {
          var sub := MkRuns(child, next, nextDc);
          runs := runs + sub;
        }
      }
      i := i + 1;
    }
    assert cs[..|cs|] == cs;
  }
}
