/**
 * `buildTable`: a table's rows are its `TR` children and the `TR` children of
 * its `THEAD`/`TBODY`/`TFOOT` children, in document order; a row's cells are
 * its `TH`/`TD` children. A cell holding block children (`P`, `DIV`, `PRE`,
 * a heading, or a list) gives the paragraphs of those children only; a cell
 * without any gives one paragraph of its whole content. A cell that would
 * otherwise be empty holds one empty paragraph.
 */
module Tables {
  import opened Wrappers
  import opened Strings
  import opened Css
  import opened Dom
  import opened Docx
  import opened Style
  import opened Runs
  import opened RunFacts
  import opened Paragraphs
  import opened Lists

  predicate IsSectionTag(tag: string) {
    tag == "THEAD" || tag == "TBODY" || tag == "TFOOT"
  }

  predicate IsCellTag(tag: string) {
    tag == "TH" || tag == "TD"
  }

  /** The `TR` elements among some nodes. */
  function TrsOf(cs: seq<Node>): (r: seq<Node>)
    ensures forall i :: 0 <= i < |r| ==> IsElem(r[i], "TR")
  {
    if cs == [] then []
    else TrsOf(cs[..|cs| - 1]) + (if IsElem(cs[|cs| - 1], "TR") then [cs[|cs| - 1]] else [])
  }

  /** `:scope > thead > tr, :scope > tbody > tr, :scope > tfoot > tr, :scope > tr`, in document order. */
  function RowElems(cs: seq<Node>): (r: seq<Node>)
    ensures forall i :: 0 <= i < |r| ==> IsElem(r[i], "TR")
  {
    if cs == [] then []
    else
      var last := cs[|cs| - 1];
      RowElems(cs[..|cs| - 1])
      + (if IsElem(last, "TR") then [last]
         else if last.Elem? && IsSectionTag(last.tag) then TrsOf(last.children)
         else [])
  }

  /** `:scope > th, :scope > td`. */
  function CellElems(cs: seq<Node>): (r: seq<Node>)
    ensures forall i :: 0 <= i < |r| ==> r[i].Elem? && IsCellTag(r[i].tag)
  {
    if cs == [] then []
    else
      var last := cs[|cs| - 1];
      CellElems(cs[..|cs| - 1]) + (if last.Elem? && IsCellTag(last.tag) then [last] else [])
  }

  /** `P`, `DIV`, `PRE` and headings: the children that make a cell a block cell and give a paragraph. */
  predicate IsParaBlock(c: Node) {
    c.Elem? && (c.tag == "P" || c.tag == "DIV" || c.tag == "PRE" || IsHeadingTag(c.tag))
  }

  predicate IsBlockChild(c: Node) {
    IsParaBlock(c) || (c.Elem? && IsListTag(c.tag))
  }

  /** A block child's paragraph options: the heading level of a heading, and the element's alignment. */
  function BlockOpts(el: Node): (o: ParaOpts)
    requires el.Elem?
    ensures IsHeadingTag(el.tag) ==> o.heading == Some(HeadingLevel(el.tag))
    ensures !IsHeadingTag(el.tag) ==> o.heading.None?
    ensures o.alignment == GetAlignment(el.style, el.classAttr, el.computedAlign)
    ensures o.indentLeft.None? && o.numbering.None?
  {
    ParaOpts(if IsHeadingTag(el.tag) then Some(HeadingLevel(el.tag)) else None,
             GetAlignment(el.style, el.classAttr, el.computedAlign), None, None)
  }

  /** The paragraphs one child of a cell contributes: none unless it is a block child. */
  function ChildParas(c: Node, dc: string): seq<Paragraph> {
    if IsParaBlock(c) then ParaFor(c, dc, BlockOpts(c))
    else if c.Elem? && IsListTag(c.tag) then ListParas(c, dc, 0)
    else []
  }

  function BlockParas(cs: seq<Node>, dc: string): seq<Paragraph> {
    if cs == [] then [] else BlockParas(cs[..|cs| - 1], dc) + ChildParas(cs[|cs| - 1], dc)
  }

  /** The `hasBlock` flag after some children. */
  predicate HasBlock(cs: seq<Node>) {
    cs != [] && (HasBlock(cs[..|cs| - 1]) || IsBlockChild(cs[|cs| - 1]))
  }

  /** The paragraphs of one cell. */
  function CellParas(cell: Node, dc: string): (ps: seq<Paragraph>)
    requires cell.Elem?
    ensures |ps| > 0
  {
    var ps := if HasBlock(cell.children) then BlockParas(cell.children, dc) else ParaFor(cell, dc, NoOpts());
    if ps == [] then [EmptyParagraph()] else ps
  }

  function RowOf(tr: Node, dc: string): Row
    requires tr.Elem?
  {
    var cells := CellElems(tr.children);
    Row(seq(|cells|, k requires 0 <= k < |cells| => Cell(CellParas(cells[k], dc))))
  }

  /** What `buildTable(tableEl, dc)` builds. */
  function TableOf(table: Node, dc: string): Table
    requires table.Elem?
  {
    var trs := RowElems(table.children);
    MkTable(seq(|trs|, k requires 0 <= k < |trs| => RowOf(trs[k], dc)))
  }

  lemma BlockParasSnoc(cs: seq<Node>, c: Node, dc: string)
    ensures BlockParas(cs + [c], dc) == BlockParas(cs, dc) + ChildParas(c, dc)
    ensures HasBlock(cs + [c]) == (HasBlock(cs) || IsBlockChild(c))
  {
    assert (cs + [c])[..|cs|] == cs;
  }

  /** Children none of which is a block child push no paragraphs. */
  lemma {:induction false} NoBlockNoParas(cs: seq<Node>, dc: string)
    requires !HasBlock(cs)
    ensures BlockParas(cs, dc) == []
  {
    if cs != [] {
      NoBlockNoParas(cs[..|cs| - 1], dc);
    }
  }

  // ---------------------------------------------------------------------------
  // The imperative walk
  // ---------------------------------------------------------------------------

  /** One child of a cell: a block child pushes its paragraphs and says so. */
  method PushCellChild(paras: seq<Paragraph>, n: Node, dc: string) returns (paras': seq<Paragraph>, block: bool)
    ensures paras' == paras + ChildParas(n, dc)
    ensures block == IsBlockChild(n)
  {
    paras', block := paras, false;
    if n.Elem? {
      var tag := n.tag;
      if tag == "P" || tag == "DIV" || tag == "PRE" || IsHeadingTag(tag) {
        block := true;
        if IsHeadingTag(tag) {
          paras' := PushParagraph(paras, n, dc,
            ParaOpts(Some(HeadingLevel(tag)), GetAlignment(n.style, n.classAttr, n.computedAlign), None, None));
        } else {
          paras' := PushParagraph(paras, n, dc,
            ParaOpts(None, GetAlignment(n.style, n.classAttr, n.computedAlign), None, None));
        }
      } else if tag == "UL" || tag == "OL" {
        block := true;
        paras' := ProcessList(paras, n, dc, 0);
      }
    }
  }

  /** One cell: its block children in turn, else the whole cell; never empty. */
  method BuildCell(cell: Node, dc: string) returns (c: Cell)
    requires cell.Elem?
    ensures c == Cell(CellParas(cell, dc))
  {
    var paras: seq<Paragraph> := [];
    var hasBlock := false;
    var cs := cell.children;
    var i := 0;
    while i < |cs|
      invariant 0 <= i <= |cs|
      invariant paras == BlockParas(cs[..i], dc)
      invariant hasBlock == HasBlock(cs[..i])
    {
      assert cs[..i + 1] == cs[..i] + [cs[i]];
      BlockParasSnoc(cs[..i], cs[i], dc);
      var block;
      paras, block := PushCellChild(paras, cs[i], dc);
      hasBlock := hasBlock || block;
      i := i + 1;
    }
    assert cs[..|cs|] == cs;
    if !hasBlock {
      NoBlockNoParas(cs, dc);
      paras := PushParagraph(paras, cell, dc, NoOpts());
    }
    c := Cell(if |paras| > 0 then paras else [PlainParagraph([PlainRun("")])]);
  }

  /** One row: its cells in turn. */
  method BuildRow(tr: Node, dc: string) returns (r: Row)
    requires tr.Elem?
    ensures r == RowOf(tr, dc)
  {
    var cells := CellElems(tr.children);
    var out: seq<Cell> := [];
    var k := 0;
    while k < |cells|
      invariant 0 <= k <= |cells|
      invariant |out| == k && forall j :: 0 <= j < k ==> out[j] == Cell(CellParas(cells[j], dc))
    {
      var c := BuildCell(cells[k], dc);
      out := out + [c];
      k := k + 1;
    }
    r := Row(out);
  }

  /** `buildTable`. */
  method BuildTable(table: Node, dc: string) returns (t: Table)
    requires table.Elem?
    ensures t == TableOf(table, dc)
  {
    var trs := RowElems(table.children);
    var rows: seq<Row> := [];
    var k := 0;
    while k < |trs|
      invariant 0 <= k <= |trs|
      invariant |rows| == k && forall j :: 0 <= j < k ==> rows[j] == RowOf(trs[j], dc)
    {
      var r := BuildRow(trs[k], dc);
      rows := rows + [r];
      k := k + 1;
    }
    t := MkTable(rows);
  }

  // ---------------------------------------------------------------------------
  // Properties
  // ---------------------------------------------------------------------------

  /** `hasBlock` is set exactly when some child is a block child. */
  lemma {:induction false} HasBlockIff(cs: seq<Node>)
    ensures HasBlock(cs) <==> exists i :: 0 <= i < |cs| && IsBlockChild(cs[i])
  {
    if cs != [] {
      var pre := cs[..|cs| - 1];
      HasBlockIff(pre);
      if HasBlock(pre) {
        var i :| 0 <= i < |pre| && IsBlockChild(pre[i]);
        assert cs[i] == pre[i];
      }
      if exists i :: 0 <= i < |cs| && IsBlockChild(cs[i]) {
        var i :| 0 <= i < |cs| && IsBlockChild(cs[i]);
        if i < |pre| {
          assert pre[i] == cs[i];
        }
      }
    }
  }

  /**
   * A row is a `TR` child of the table, or a `TR` child of one of its
   * `THEAD`/`TBODY`/`TFOOT` children; rows of nested tables are never taken.
   */
  lemma {:induction false} RowElemsSound(cs: seq<Node>)
    ensures forall r :: r in RowElems(cs) ==>
      r in cs || exists s :: s in cs && s.Elem? && IsSectionTag(s.tag) && r in s.children
  {
    if cs != [] {
      var pre := cs[..|cs| - 1];
      var last := cs[|cs| - 1];
      RowElemsSound(pre);
      if last.Elem? && IsSectionTag(last.tag) {
        TrsOfSound(last.children);
      }
      forall r | r in RowElems(cs)
        ensures r in cs || exists s :: s in cs && s.Elem? && IsSectionTag(s.tag) && r in s.children
      {
        if r in RowElems(pre) {
          if r !in pre {
            var s :| s in pre && s.Elem? && IsSectionTag(s.tag) && r in s.children;
            assert s in cs;
          }
        } else if IsElem(last, "TR") {
          assert r == last;
        } else {
          assert r in last.children;
        }
      }
    }
  }

  lemma {:induction false} TrsOfSound(cs: seq<Node>)
    ensures forall r :: r in TrsOf(cs) ==> r in cs
  {
    if cs != [] {
      TrsOfSound(cs[..|cs| - 1]);
    }
  }

  /** Every `TR` child of the table is one of its rows. */
  lemma {:induction false} RowElemsComplete(cs: seq<Node>)
    ensures forall i :: 0 <= i < |cs| && IsElem(cs[i], "TR") ==> cs[i] in RowElems(cs)
  {
    if cs != [] {
      var pre := cs[..|cs| - 1];
      RowElemsComplete(pre);
      forall i | 0 <= i < |cs| && IsElem(cs[i], "TR") ensures cs[i] in RowElems(cs) {
        if i < |pre| {
          assert cs[i] == pre[i];
        }
      }
    }
  }

  /** A table whose children are all rows has exactly those rows, in order. */
  lemma {:induction false} PlainRows(cs: seq<Node>)
    requires forall i :: 0 <= i < |cs| ==> IsElem(cs[i], "TR")
    ensures RowElems(cs) == cs
  {
    if cs != [] {
      assert forall i :: 0 <= i < |cs| - 1 ==> cs[..|cs| - 1][i] == cs[i];
      PlainRows(cs[..|cs| - 1]);
    }
  }

  /** A header section's rows come before the body's rows, each in its own order. */
  lemma SectionOrder(head: Node, body: Node)
    requires IsElem(head, "THEAD") && IsElem(body, "TBODY")
    ensures RowElems([head, body]) == TrsOf(head.children) + TrsOf(body.children)
  {
    assert head.tag != "TR" by { assert |head.tag| == 5; }
    assert body.tag != "TR" by { assert |body.tag| == 5; }
    assert [head, body][..1] == [head];
    assert [head][..0] == [];
    assert RowElems([head]) == TrsOf(head.children);
  }

  /** The table has one row per row element and, in each, one cell per `TH`/`TD`, full width with its fixed borders. */
  lemma TableShape(table: Node, dc: string)
    requires table.Elem?
    ensures var t := TableOf(table, dc);
      var trs := RowElems(table.children);
      |t.rows| == |trs| && t.widthPercent == 100
      && t.outer == Border(1, "CCCCCC") && t.inside == Border(1, "DDDDDD")
      && forall k :: 0 <= k < |trs| ==> |t.rows[k].cells| == |CellElems(trs[k].children)|
  {
  }

  /** A cell with no block child is one paragraph: its runs, or the empty paragraph when it has none. */
  lemma InlineCell(cell: Node, dc: string)
    requires cell.Elem? && forall i :: 0 <= i < |cell.children| ==> !IsBlockChild(cell.children[i])
    ensures var ps := CellParas(cell, dc);
      var runs := RunsOf(cell, NoMarks(), ParaDefault(cell, dc));
      |ps| == 1
      && (runs == [] ==> ps[0] == EmptyParagraph())
      && (runs != [] ==> ps[0].runs == runs && ps[0].heading.None? && ps[0].numbering.None?)
  {
    HasBlockIff(cell.children);
    ParaForCount(cell, dc, NoOpts());
  }

  /**
   * Once a cell has a block child, inline content beside the blocks is
   * dropped: appending a text node or an inline element changes nothing.
   */
  lemma InlineBesideBlocksDropped(cell: Node, c: Node, dc: string)
    requires cell.Elem? && HasBlock(cell.children) && !IsBlockChild(c)
    ensures CellParas(cell.(children := cell.children + [c]), dc) == CellParas(cell, dc)
  {
    BlockParasSnoc(cell.children, c, dc);
  }

  /** A cell whose block children give no paragraphs (empty `P`s, say) holds the empty paragraph, not its other content. */
  lemma EmptyBlocksGivePlaceholder(cell: Node, dc: string)
    requires cell.Elem? && HasBlock(cell.children) && BlockParas(cell.children, dc) == []
    ensures CellParas(cell, dc) == [EmptyParagraph()]
  {
  }

  /** A list inside a cell starts at level 0, whatever the table is nested in. */
  lemma CellListAtTopLevel(cell: Node, list: Node, dc: string)
    requires cell.Elem? && list.Elem? && IsListTag(list.tag) && cell.children == [list]
    ensures CellParas(cell, dc) == (if ListParas(list, dc, 0) == [] then [EmptyParagraph()] else ListParas(list, dc, 0))
  {
    assert [list][..0] == [];
    BlockParasSnoc([], list, dc);
  }

  /** The paragraphs of block children have shaped colours when the default colour has. */
  lemma {:induction false} BlockParasShaped(cs: seq<Node>, dc: string)
    requires DefaultOk(dc)
    ensures ParasShaped(BlockParas(cs, dc))
  {
    if cs != [] {
      var last := cs[|cs| - 1];
      BlockParasShaped(cs[..|cs| - 1], dc);
      if IsParaBlock(last) {
        ParaForShaped(last, dc, BlockOpts(last));
      } else if last.Elem? && IsListTag(last.tag) {
        ListShaped(last, dc, 0);
      }
      ParasShapedConcat(BlockParas(cs[..|cs| - 1], dc), ChildParas(last, dc));
    }
  }

  /** A cell is the empty placeholder, or every text run in it has a 6-digit upper-case hex colour. */
  predicate CellShaped(ps: seq<Paragraph>) {
    ps == [EmptyParagraph()] || ParasShaped(ps)
  }

  lemma CellParasShaped(cell: Node, dc: string)
    requires cell.Elem? && DefaultOk(dc)
    ensures CellShaped(CellParas(cell, dc))
  {
    BlockParasShaped(cell.children, dc);
    ParaForShaped(cell, dc, NoOpts());
  }

  /** Every cell of a table is shaped. */
  predicate TableShaped(t: Table) {
    forall r, c :: 0 <= r < |t.rows| && 0 <= c < |t.rows[r].cells| ==> CellShaped(t.rows[r].cells[c].paras)
  }

  lemma TableOfShaped(table: Node, dc: string)
    requires table.Elem? && DefaultOk(dc)
    ensures TableShaped(TableOf(table, dc))
  {
    var t := TableOf(table, dc);
    var trs := RowElems(table.children);
    forall r, c | 0 <= r < |t.rows| && 0 <= c < |t.rows[r].cells|
      ensures CellShaped(t.rows[r].cells[c].paras)
    {
      var cells := CellElems(trs[r].children);
      CellParasShaped(cells[c], dc);
    }
  }

  /** A heading in a cell gives a heading paragraph of its level. */
  lemma CellHeading(cell: Node, h: Node, t: string, dc: string)
    requires cell.Elem? && h.Elem? && IsHeadingTag(h.tag) && h.children == [Text(t)] && CollapseSpaces(t) != ""
    requires cell.children == [h]
    ensures var ps := CellParas(cell, dc);
      |ps| == 1 && ps[0].heading == Some(HeadingLevel(h.tag))
      && ps[0].alignment == GetAlignment(h.style, h.classAttr, h.computedAlign)
  {
    assert [h][..0] == [];
    BlockParasSnoc([], h, dc);
    ChildrenRunsSingle(false, Text(t), NoMarks(), ParaDefault(h, dc));
    ParaForCount(h, dc, BlockOpts(h));
    ParaForOptions(h, dc, BlockOpts(h));
  }
}
