/**
 * `htmlToDocxBlocks` and the fallback of `downloadDocx`: the parsed body's
 * children are copied under a host element attached to the document, and
 * `walk` turns them into top-level blocks. A table becomes a table, a list its
 * numbered paragraphs, a heading, block quote, `P`, `DIV`, `PRE` or `SPAN` one
 * paragraph, a bare text node a plain paragraph of its trimmed text, and any
 * other element is walked through as if it were not there. A document with no
 * blocks gets one empty paragraph.
 */
module Walker {
  import opened Wrappers
  import opened Strings
  import opened Css
  import opened Dom
  import opened Docx
  import opened Style
  import opened Runs
  import opened RunFacts
  import opened Paragraphs
  import opened Lists
  import opened Tables

  /**
   * The colour of the document: the host's computed colour, else the page
   * body's, else black; always a canonical 6-digit hex code.
   */
  function GlobalDefault(hostColor: string, bodyColor: string): (gd: string)
    ensures IsHex6(gd)
    ensures CssColorToHex(hostColor).Some? ==> gd == CssColorToHex(hostColor).value
    ensures CssColorToHex(hostColor).None? && CssColorToHex(bodyColor).Some? ==> gd == CssColorToHex(bodyColor).value
    ensures CssColorToHex(hostColor).None? && CssColorToHex(bodyColor).None? ==> gd == "000000"
  {
    if CssColorToHex(hostColor).Some? then CssColorToHex(hostColor).value
    else if CssColorToHex(bodyColor).Some? then CssColorToHex(bodyColor).value
    else "000000"
  }

  /** The element the parsed body's children are copied under. */
  function HostRoot(hostColor: string, body: seq<Node>): (r: Node)
    ensures r.Elem? && r.computedColor == hostColor && r.children == body
  {
    Elem("DIV", "", "", "", hostColor, "", body)
  }

  /** The tags that give a single paragraph when met by the walk. */
  predicate IsWalkParaTag(tag: string) {
    IsHeadingTag(tag) || tag == "BLOCKQUOTE" || tag == "P" || tag == "DIV" || tag == "PRE" || tag == "SPAN"
  }

  /** A paragraph element's options: a heading's level, a block quote's 720-twip indent, and its alignment. */
  function WalkOpts(el: Node): (o: ParaOpts)
    requires el.Elem?
    ensures o.heading == (if IsHeadingTag(el.tag) then Some(HeadingLevel(el.tag)) else None)
    ensures o.indentLeft == (if !IsHeadingTag(el.tag) && el.tag == "BLOCKQUOTE" then Some(720) else None)
    ensures o.alignment == GetAlignment(el.style, el.classAttr, el.computedAlign) && o.numbering.None?
  {
    var align := GetAlignment(el.style, el.classAttr, el.computedAlign);
    if IsHeadingTag(el.tag) then ParaOpts(Some(HeadingLevel(el.tag)), align, None, None)
    else if el.tag == "BLOCKQUOTE" then ParaOpts(None, align, Some(720), None)
    else ParaOpts(None, align, None, None)
  }

  /** The colour of a bare text paragraph: its parent's computed colour, else the document's. */
  function TextColor(parentColor: string, gd: string): string {
    Upper(CssColorToHex(parentColor).GetOr(gd))
  }

  /** A text node met by the walk: a plain paragraph of its trimmed text, if any is left. */
  function TextBlocks(raw: string, parentColor: string, gd: string): seq<Block> {
    var t := Trim(raw);
    if t == "" then []
    else [Para(PlainParagraph([TextRun(t, false, false, false, false, false, Some(TextColor(parentColor, gd)))]))]
  }

  /** What `walk(node)` appends: the blocks of its children, in order. */
  function WalkBlocks(node: Node, gd: string): seq<Block>
    requires node.Elem?
    decreases node, 1
  {
    ChildrenBlocks(node.computedColor, node.children, gd)
  }

  function ChildrenBlocks(parentColor: string, cs: seq<Node>, gd: string): seq<Block>
    decreases cs, 0
  {
    if cs == [] then []
    else ChildrenBlocks(parentColor, cs[..|cs| - 1], gd) + ChildBlocks(parentColor, cs[|cs| - 1], gd)
  }

  /** The blocks one child contributes, by the first rule its tag matches. */
  function ChildBlocks(parentColor: string, c: Node, gd: string): seq<Block>
    decreases c, 2
  {
    match c
    case Text(t) => TextBlocks(t, parentColor, gd)
    case Elem(tag, _, _, _, _, _, _) =>
      if tag == "TABLE" then [Tbl(TableOf(c, gd))]
      else if IsListTag(tag) then Paras(ListParas(c, gd, 0))
      else if IsWalkParaTag(tag) then Paras(ParaFor(c, gd, WalkOpts(c)))
      else WalkBlocks(c, gd)
  }

  /** The blocks of a document whose body holds the given nodes. */
  function DocBlocks(hostColor: string, bodyColor: string, body: seq<Node>): seq<Block> {
    WalkBlocks(HostRoot(hostColor, body), GlobalDefault(hostColor, bodyColor))
  }

  lemma ChildrenBlocksSnoc(parentColor: string, cs: seq<Node>, c: Node, gd: string)
    ensures ChildrenBlocks(parentColor, cs + [c], gd) == ChildrenBlocks(parentColor, cs, gd) + ChildBlocks(parentColor, c, gd)
  {
    assert (cs + [c])[..|cs|] == cs;
  }

  lemma ChildrenBlocksSingle(parentColor: string, c: Node, gd: string)
    ensures ChildrenBlocks(parentColor, [c], gd) == ChildBlocks(parentColor, c, gd)
  {
    assert [c][..0] == [];
  }

  /** One step of the walk's loop: the next child's blocks go after those already appended. */
  lemma WalkStep(out: seq<Block>, parentColor: string, cs: seq<Node>, i: nat, gd: string)
    requires i < |cs|
    ensures out + ChildrenBlocks(parentColor, cs[..i + 1], gd)
         == (out + ChildrenBlocks(parentColor, cs[..i], gd)) + ChildBlocks(parentColor, cs[i], gd)
  {
    assert cs[..i + 1] == cs[..i] + [cs[i]];
    ChildrenBlocksSnoc(parentColor, cs[..i], cs[i], gd);
    AppendAssoc(out, ChildrenBlocks(parentColor, cs[..i], gd), ChildBlocks(parentColor, cs[i], gd));
  }

  // ---------------------------------------------------------------------------
  // The imperative walk
  // ---------------------------------------------------------------------------

  /** `walk(node)`: every child of `node` in turn. */
  method Walk(out: seq<Block>, node: Node, gd: string) returns (out': seq<Block>)
    requires node.Elem?
    ensures out' == out + WalkBlocks(node, gd)
    decreases node, 1
  {
    out' := out;
    var cs := node.children;
    var i := 0;
    while i < |cs|
      invariant 0 <= i <= |cs|
      invariant out' == out + ChildrenBlocks(node.computedColor, cs[..i], gd)
    {
      WalkStep(out, node.computedColor, cs, i, gd);
      out' := WalkChild(out', node.computedColor, cs[i], gd);
      i := i + 1;
    }
    assert cs[..|cs|] == cs;
  }

  /** A text node met by the walk. */
  method PushTextBlock(out: seq<Block>, parentColor: string, raw: string, gd: string) returns (out': seq<Block>)
    ensures out' == out + TextBlocks(raw, parentColor, gd)
  {
    var t := Trim(raw);
    if t != "" {
      var colorHex := CssColorToHex(parentColor).GetOr(gd);
      out' := out + [Para(PlainParagraph([TextRun(t, false, false, false, false, false, Some(Upper(colorHex)))]))];
    } else {
      out' := out;
    }
  }

  /** One child met by the walk. */
  method WalkChild(out: seq<Block>, parentColor: string, n: Node, gd: string) returns (out': seq<Block>)
    ensures out' == out + ChildBlocks(parentColor, n, gd)
    decreases n, 2
  {
    if n.Text? {
      out' := PushTextBlock(out, parentColor, n.text, gd);
      return;
    }
    var tag := n.tag;
    if tag == "TABLE" {
      var t := BuildTable(n, gd);
      out' := out + [Tbl(t)];
    } else if tag == "UL" || tag == "OL" {
      var ps := ProcessList([], n, gd, 0);
      assert ps == ListParas(n, gd, 0);
      out' := out + Paras(ps);
    } else if IsHeadingTag(tag) {
      var ps := PushParagraph([], n, gd,
        ParaOpts(Some(HeadingLevel(tag)), GetAlignment(n.style, n.classAttr, n.computedAlign), None, None));
      assert ps == ParaFor(n, gd, WalkOpts(n));
      out' := out + Paras(ps);
    } else if tag == "BLOCKQUOTE" {
      var ps := PushParagraph([], n, gd,
        ParaOpts(None, GetAlignment(n.style, n.classAttr, n.computedAlign), Some(720), None));
      assert ps == ParaFor(n, gd, WalkOpts(n));
      out' := out + Paras(ps);
    } else if tag == "P" || tag == "DIV" || tag == "PRE" || tag == "SPAN" {
      var ps := PushParagraph([], n, gd,
        ParaOpts(None, GetAlignment(n.style, n.classAttr, n.computedAlign), None, None));
      assert ps == ParaFor(n, gd, WalkOpts(n));
      out' := out + Paras(ps);
    } else {
      out' := Walk(out, n, gd);
    }
  }

  /** `htmlToDocxBlocks`: the document colour, then the walk of the host. */
  method HtmlToDocxBlocks(hostColor: string, bodyColor: string, body: seq<Node>) returns (blocks: seq<Block>)
    ensures blocks == DocBlocks(hostColor, bodyColor, body)
  {
    var hostRoot := Elem("DIV", "", "", "", hostColor, "", body);
    var globalDefault := CssColorToHex(hostColor).GetOr(CssColorToHex(bodyColor).GetOr("000000"));
    blocks := Walk([], hostRoot, globalDefault);
  }

  /** The blocks `downloadDocx` hands to the document: never none. */
  method DownloadBlocks(hostColor: string, bodyColor: string, body: seq<Node>) returns (blocks: seq<Block>)
    ensures blocks != []
    ensures DocBlocks(hostColor, bodyColor, body) != [] ==> blocks == DocBlocks(hostColor, bodyColor, body)
    ensures DocBlocks(hostColor, bodyColor, body) == [] ==> blocks == [Para(EmptyParagraph())]
  {
    blocks := HtmlToDocxBlocks(hostColor, bodyColor, body);
    if |blocks| == 0 {
      blocks := blocks + [Para(PlainParagraph([PlainRun("")]))];
    }
  }

  // ---------------------------------------------------------------------------
  // Properties
  // ---------------------------------------------------------------------------

  /**
   * A bare text node gives a paragraph exactly when it is not all white space;
   * that paragraph is one unformatted run of the trimmed text, which has no
   * white space at either end, in the parent's colour (else the document's).
   */
  lemma TextParagraph(raw: string, parentColor: string, gd: string)
    ensures TextBlocks(raw, parentColor, gd) == [] <==> AllSpace(raw)
    ensures TextBlocks(raw, parentColor, gd) != [] ==>
      var b := TextBlocks(raw, parentColor, gd);
      var t := Trim(raw);
      |b| == 1 && b[0].Para? && |b[0].p.runs| == 1
      && b[0].p.runs[0] == TextRun(t, false, false, false, false, false, Some(TextColor(parentColor, gd)))
      && !IsSpace(t[0]) && !IsSpace(t[|t| - 1]) && b[0].p.spacingAfter.None?
  {
    TrimEmptyIff(raw);
  }

  /** Walking through an element: its children's blocks follow one another. */
  lemma {:induction false} ChildrenBlocksConcat(parentColor: string, a: seq<Node>, b: seq<Node>, gd: string)
    ensures ChildrenBlocks(parentColor, a + b, gd) == ChildrenBlocks(parentColor, a, gd) + ChildrenBlocks(parentColor, b, gd)
    decreases |b|
  {
    if b == [] {
      assert a + b == a;
    } else {
      var pre := b[..|b| - 1];
      var last := b[|b| - 1];
      assert a + b == (a + pre) + [last];
      assert b == pre + [last];
      ChildrenBlocksConcat(parentColor, a, pre, gd);
      ChildrenBlocksSnoc(parentColor, a + pre, last, gd);
      ChildrenBlocksSnoc(parentColor, pre, last, gd);
      AppendAssoc(ChildrenBlocks(parentColor, a, gd), ChildrenBlocks(parentColor, pre, gd), ChildBlocks(parentColor, last, gd));
    }
  }

  /** Tags the walk passes through: anything it does not translate itself. */
  predicate IsTransparent(tag: string) {
    tag != "TABLE" && !IsListTag(tag) && !IsWalkParaTag(tag)
  }

  /**
   * An element the walk does not translate is invisible: with the same
   * computed colour as its parent, it gives exactly what its children would
   * give in its place. Its inline formatting (a `B`, say) is lost.
   */
  lemma TransparentWrapper(parentColor: string, pre: seq<Node>, w: Node, post: seq<Node>, gd: string)
    requires w.Elem? && IsTransparent(w.tag) && w.computedColor == parentColor
    ensures ChildrenBlocks(parentColor, pre + [w] + post, gd) == ChildrenBlocks(parentColor, pre + w.children + post, gd)
  {
    ChildrenBlocksConcat(parentColor, pre + [w], post, gd);
    ChildrenBlocksSnoc(parentColor, pre, w, gd);
    ChildrenBlocksConcat(parentColor, pre + w.children, post, gd);
    ChildrenBlocksConcat(parentColor, pre, w.children, gd);
  }

  /** Bold text straight under the body gives a plain, unbolded paragraph. */
  lemma TopLevelBoldLost(hostColor: string, bodyColor: string, t: string)
    requires !AllSpace(t)
    ensures var gd := GlobalDefault(hostColor, bodyColor);
      DocBlocks(hostColor, bodyColor, [Elem("B", "", "", "", hostColor, "", [Text(t)])])
      == [Para(PlainParagraph([TextRun(Trim(t), false, false, false, false, false, Some(TextColor(hostColor, gd)))]))]
  {
    var b := Elem("B", "", "", "", hostColor, "", [Text(t)]);
    var gd := GlobalDefault(hostColor, bodyColor);
    assert IsTransparent("B") by { assert |"B"| == 1; }
    TrimEmptyIff(t);
    ChildrenBlocksSingle(hostColor, b, gd);
    ChildrenBlocksSingle(hostColor, Text(t), gd);
  }

  /** A body of white space only gives no blocks, so the document is one empty paragraph. */
  lemma {:induction false} BlankChildren(parentColor: string, cs: seq<Node>, gd: string)
    requires forall i :: 0 <= i < |cs| ==> cs[i].Text? && AllSpace(cs[i].text)
    ensures ChildrenBlocks(parentColor, cs, gd) == []
  {
    if cs != [] {
      TrimEmptyIff(cs[|cs| - 1].text);
      BlankChildren(parentColor, cs[..|cs| - 1], gd);
    }
  }

  lemma BlankBody(hostColor: string, bodyColor: string, body: seq<Node>)
    requires forall i :: 0 <= i < |body| ==> body[i].Text? && AllSpace(body[i].text)
    ensures DocBlocks(hostColor, bodyColor, body) == []
  {
    BlankChildren(hostColor, body, GlobalDefault(hostColor, bodyColor));
  }

  /**
   * A heading, block quote, `P`, `DIV`, `PRE` or `SPAN` is a leaf of the walk:
   * it gives one paragraph of all its runs (blocks nested in it are flattened
   * into them), or nothing when it has none, with the heading level of a
   * heading and the 720-twip indent of a block quote.
   */
  lemma ParagraphTag(parentColor: string, el: Node, gd: string)
    requires el.Elem? && IsWalkParaTag(el.tag)
    ensures var bs := ChildBlocks(parentColor, el, gd);
      var runs := RunsOf(el, NoMarks(), ParaDefault(el, gd));
      |bs| <= 1 && (bs == [] <==> runs == [])
      && (bs != [] ==> bs[0].Para? && bs[0].p.runs == runs
                       && bs[0].p.heading == (if IsHeadingTag(el.tag) then Some(HeadingLevel(el.tag)) else None)
                       && bs[0].p.indentLeft == (if !IsHeadingTag(el.tag) && el.tag == "BLOCKQUOTE" then Some(720) else None)
                       && bs[0].p.numbering.None? && bs[0].p.spacingAfter == Some(200))
  {
    assert el.tag != "TABLE" && !IsListTag(el.tag) by {
      if IsHeadingTag(el.tag) { assert |el.tag| == 2; }
    }
    ParaForCount(el, gd, WalkOpts(el));
    if ParaFor(el, gd, WalkOpts(el)) != [] {
      ParaForOptions(el, gd, WalkOpts(el));
    }
  }

  /**
   * A list met by the walk starts at depth 0: every block it gives is a
   * numbered paragraph, and those at level 0 are on the list's own scheme, at
   * most one per `LI` child.
   */
  lemma ListAtTopLevel(parentColor: string, el: Node, gd: string)
    requires el.Elem? && IsListTag(el.tag)
    ensures var bs := ChildBlocks(parentColor, el, gd);
      bs == Paras(ListParas(el, gd, 0))
      && (forall i :: 0 <= i < |bs| ==> bs[i].Para? && bs[i].p.numbering.Some?)
      && |AtLevel(ListParas(el, gd, 0), 0)| <= ItemCount(el.children)
      && forall p :: p in AtLevel(ListParas(el, gd, 0), 0) ==> p.numbering == Some(Numbering(RefOf(el.tag), 0))
  {
    assert el.tag != "TABLE";
    ListNumbered(el, gd, 0);
    ListAtOwnLevel(el, gd, 0);
  }

  /** A table met by the walk is exactly one table block, whatever it contains. */
  lemma TableIsOneBlock(parentColor: string, t: Node, gd: string)
    requires IsElem(t, "TABLE")
    ensures ChildBlocks(parentColor, t, gd) == [Tbl(TableOf(t, gd))]
  {
  }

  // ---------------------------------------------------------------------------
  // Colour shape of the whole document
  // ---------------------------------------------------------------------------

  /** A top-level paragraph has shaped runs; a table has shaped cells. */
  predicate BlocksShaped(bs: seq<Block>) {
    forall i :: 0 <= i < |bs| ==> (bs[i].Para? ==> RunsShaped(bs[i].p.runs)) && (bs[i].Tbl? ==> TableShaped(bs[i].t))
  }

  lemma BlocksShapedConcat(a: seq<Block>, b: seq<Block>)
    requires BlocksShaped(a) && BlocksShaped(b)
    ensures BlocksShaped(a + b)
  {
    forall i | 0 <= i < |a + b|
      ensures ((a + b)[i].Para? ==> RunsShaped((a + b)[i].p.runs)) && ((a + b)[i].Tbl? ==> TableShaped((a + b)[i].t))
    {
      if i >= |a| {
        assert (a + b)[i] == b[i - |a|];
      }
    }
  }

  lemma ParasBlocksShaped(ps: seq<Paragraph>)
    requires ParasShaped(ps)
    ensures BlocksShaped(Paras(ps))
  {
  }

  lemma {:induction false} WalkShaped(node: Node, gd: string)
    requires node.Elem? && IsHex6(gd)
    ensures BlocksShaped(WalkBlocks(node, gd))
    decreases node, 1
  {
    ChildrenShaped(node.computedColor, node.children, gd);
  }

  lemma {:induction false} ChildrenShaped(parentColor: string, cs: seq<Node>, gd: string)
    requires IsHex6(gd)
    ensures BlocksShaped(ChildrenBlocks(parentColor, cs, gd))
    decreases cs, 0
  {
    if cs != [] {
      ChildrenShaped(parentColor, cs[..|cs| - 1], gd);
      ChildShaped(parentColor, cs[|cs| - 1], gd);
      BlocksShapedConcat(ChildrenBlocks(parentColor, cs[..|cs| - 1], gd), ChildBlocks(parentColor, cs[|cs| - 1], gd));
    }
  }

  lemma {:induction false} ChildShaped(parentColor: string, c: Node, gd: string)
    requires IsHex6(gd)
    ensures BlocksShaped(ChildBlocks(parentColor, c, gd))
    decreases c, 2
  {
    if c.Text? {
      TextShaped(parentColor, c.text, gd);
    } else if c.tag == "TABLE" || IsListTag(c.tag) || IsWalkParaTag(c.tag) {
      TranslatedShaped(parentColor, c, gd);
    } else {
      WalkShaped(c, gd);
    }
  }

  lemma TextShaped(parentColor: string, raw: string, gd: string)
    requires IsHex6(gd)
    ensures BlocksShaped(TextBlocks(raw, parentColor, gd))
  {
    var color := CssColorToHex(parentColor).GetOr(gd);
    assert IsHex6(color);
    UpperHex6(color);
    assert IsHex6(TextColor(parentColor, gd));
    var t := Trim(raw);
    if t != "" {
      var run := TextRun(t, false, false, false, false, false, Some(TextColor(parentColor, gd)));
      assert RunsShaped([run]);
      assert TextBlocks(raw, parentColor, gd) == [Para(PlainParagraph([run]))];
    }
  }

  /** The elements the walk translates itself: a table, a list or a paragraph. */
  lemma TranslatedShaped(parentColor: string, c: Node, gd: string)
    requires IsHex6(gd) && c.Elem? && (c.tag == "TABLE" || IsListTag(c.tag) || IsWalkParaTag(c.tag))
    ensures BlocksShaped(ChildBlocks(parentColor, c, gd))
  {
    if c.tag == "TABLE" {
      TableOfShaped(c, gd);
    } else if IsListTag(c.tag) {
      ListShaped(c, gd, 0);
      ParasBlocksShaped(ListParas(c, gd, 0));
    } else {
      ParaForShaped(c, gd, WalkOpts(c));
      ParasBlocksShaped(ParaFor(c, gd, WalkOpts(c)));
    }
  }

  /**
   * Every text run of every top-level paragraph, and of every table cell but
   * the empty placeholder, carries a colour of six upper-case hex digits.
   */
  lemma DocumentShaped(hostColor: string, bodyColor: string, body: seq<Node>)
    ensures BlocksShaped(DocBlocks(hostColor, bodyColor, body))
  {
    WalkShaped(HostRoot(hostColor, body), GlobalDefault(hostColor, bodyColor));
  }
}
