/**
 * `pushParagraph`: one element becomes at most one paragraph. Its runs come
 * from `mkRuns` on the element with no marks and the element's own computed
 * colour (else the caller's default, else black) as the default colour; an
 * element with no runs gives no paragraph at all.
 */
module Paragraphs {
  import opened Wrappers
  import opened Strings
  import opened Css
  import opened Dom
  import opened Docx
  import opened Style
  import opened Runs
  import opened RunFacts

  /** The optional settings of `pushParagraph`; an absent one is left unset on the paragraph. */
  datatype ParaOpts = ParaOpts(heading: Option<nat>, alignment: Option<Align>,
                               indentLeft: Option<int>, numbering: Option<Numbering>)

  function NoOpts(): ParaOpts {
    ParaOpts(None, None, None, None)
  }

  /** `(elComputed || defaultColor || "000000").toUpperCase()`. */
  function ParaDefault(el: Node, dc: string): string
    requires el.Elem?
  {
    Upper(CssColorToHex(el.computedColor).GetOr(OrElse(dc, "000000")))
  }

  /** The alignment asked for, else the element's own (`opts.alignment ?? getAlignment(el)`). */
  function ParaAlign(el: Node, opts: ParaOpts): Option<Align>
    requires el.Elem?
  {
    if opts.alignment.Some? then opts.alignment else GetAlignment(el.style, el.classAttr, el.computedAlign)
  }

  /** A left indent of 0 is falsy and is not set. */
  function IndentOf(opts: ParaOpts): Option<int> {
    if opts.indentLeft.Some? && opts.indentLeft.value != 0 then opts.indentLeft else None
  }

  /** What `pushParagraph(output, el, dc, opts)` appends to `output`. */
  function ParaFor(el: Node, dc: string, opts: ParaOpts): seq<Paragraph>
    requires el.Elem?
  {
    var runs := RunsOf(el, NoMarks(), ParaDefault(el, dc));
    if runs == [] then []
    else [Paragraph(runs, opts.heading, ParaAlign(el, opts), opts.numbering, IndentOf(opts), Some(200))]
  }

  /** `pushParagraph`. */
  method PushParagraph(output: seq<Paragraph>, el: Node, dc: string, opts: ParaOpts)
    returns (output': seq<Paragraph>)
    requires el.Elem?
    ensures output' == output + ParaFor(el, dc, opts)
  {
    var paraDc := Upper(CssColorToHex(el.computedColor).GetOr(OrElse(dc, "000000")));
    var children := MkRuns(el, NoMarks(), paraDc);
    if |children| == 0 {
      return output;
    }
    var align := if opts.alignment.Some? then opts.alignment
                 else GetAlignment(el.style, el.classAttr, el.computedAlign);
    var indent := if opts.indentLeft.Some? && opts.indentLeft.value != 0 then opts.indentLeft else None;
    output' := output + [Paragraph(children, opts.heading, align, opts.numbering, indent, Some(200))];
  }

  // ---------------------------------------------------------------------------
  // Properties
  // ---------------------------------------------------------------------------

  /**
   * An element gives one paragraph exactly when it yields runs, and never a
   * paragraph without runs; the paragraph holds those runs, in order.
   */
  lemma ParaForCount(el: Node, dc: string, opts: ParaOpts)
    requires el.Elem?
    ensures |ParaFor(el, dc, opts)| <= 1
    ensures ParaFor(el, dc, opts) == [] <==> RunsOf(el, NoMarks(), ParaDefault(el, dc)) == []
    ensures ParaFor(el, dc, opts) != [] ==>
      ParaFor(el, dc, opts)[0].runs == RunsOf(el, NoMarks(), ParaDefault(el, dc)) && ParaFor(el, dc, opts)[0].runs != []
  {
  }

  /**
   * The paragraph carries the heading and numbering it was given, 200 twips of
   * spacing after it, the alignment asked for (else the element's own), and the
   * indent asked for unless it is 0.
   */
  lemma ParaForOptions(el: Node, dc: string, opts: ParaOpts)
    requires el.Elem? && ParaFor(el, dc, opts) != []
    ensures var p := ParaFor(el, dc, opts)[0];
      p.heading == opts.heading && p.numbering == opts.numbering && p.spacingAfter == Some(200)
      && (opts.alignment.Some? ==> p.alignment == opts.alignment)
      && (opts.alignment.None? ==> p.alignment == GetAlignment(el.style, el.classAttr, el.computedAlign))
      && (p.indentLeft.Some? <==> opts.indentLeft.Some? && opts.indentLeft.value != 0)
      && (p.indentLeft.Some? ==> p.indentLeft == opts.indentLeft)
  {
  }

  /** The paragraph's default colour is a 6-digit upper-case hex code whenever the caller's is. */
  lemma ParaDefaultShaped(el: Node, dc: string)
    requires el.Elem? && DefaultOk(dc)
    ensures IsHex6(ParaDefault(el, dc))
    ensures CssColorToHex(el.computedColor).Some? ==> ParaDefault(el, dc) == CssColorToHex(el.computedColor).value
    ensures CssColorToHex(el.computedColor).None? && dc == "" ==> ParaDefault(el, dc) == "000000"
  {
    var c := CssColorToHex(el.computedColor).GetOr(OrElse(dc, "000000"));
    UpperHex6(c);
  }

  /** Every text run of every paragraph carries a 6-digit upper-case hex colour. */
  predicate ParasShaped(ps: seq<Paragraph>) {
    forall i :: 0 <= i < |ps| ==> RunsShaped(ps[i].runs)
  }

  lemma ParasShapedConcat(a: seq<Paragraph>, b: seq<Paragraph>)
    requires ParasShaped(a) && ParasShaped(b)
    ensures ParasShaped(a + b)
  {
    forall i | 0 <= i < |a + b| ensures RunsShaped((a + b)[i].runs) {
      if i >= |a| {
        assert (a + b)[i] == b[i - |a|];
      }
    }
  }

  /** Every text run of the paragraph carries a 6-digit upper-case hex colour. */
  lemma ParaForShaped(el: Node, dc: string, opts: ParaOpts)
    requires el.Elem? && DefaultOk(dc)
    ensures ParasShaped(ParaFor(el, dc, opts))
  {
    ParaDefaultShaped(el, dc);
    RunsOfShaped(el, NoMarks(), ParaDefault(el, dc));
  }

  /**
   * The element's own tag and inline style add no marks: only its descendants
   * do, so a `B` element handed to `pushParagraph` gives the same runs as a
   * `DIV` with the same children (neither being `PRE`).
   */
  lemma ParaIgnoresOwnTag(el: Node, dc: string, opts: ParaOpts, tag: string, style: string)
    requires el.Elem? && el.tag != "PRE" && tag != "PRE"
    ensures var other := el.(tag := tag, style := style);
      (ParaFor(other, dc, opts) == [] <==> ParaFor(el, dc, opts) == [])
      && (ParaFor(el, dc, opts) != [] ==> ParaFor(other, dc, opts)[0].runs == ParaFor(el, dc, opts)[0].runs)
  {
  }
}
