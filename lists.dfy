/**
 * `processList`: every `LI` child of a `UL`/`OL` becomes one numbered
 * paragraph at the current depth (its clone with every descendant list
 * removed), followed by the paragraphs of the lists that are DIRECT children
 * of that `LI`, one level deeper. A `UL` uses the bullet scheme, anything
 * else the decimal scheme. The depth is not clamped to the three levels the
 * document defines.
 */
module Lists {
  import opened Wrappers
  import opened Strings
  import opened Css
  import opened Dom
  import opened Docx
  import opened Style
  import opened Runs
  import opened RunFacts
  import opened Paragraphs

  /** `listEl.tagName === "UL" ? BULLET_REF : NUMBER_REF`. */
  function RefOf(tag: string): (r: ListRef)
    ensures r == Bullet <==> tag == "UL"
  {
    if tag == "UL" then Bullet else Number
  }

  /** The options an item's paragraph is pushed with: only its numbering. */
  function ItemOpts(ref: ListRef, depth: nat): (o: ParaOpts)
    ensures o.numbering == Some(Numbering(ref, depth))
    ensures o.heading.None? && o.alignment.None? && o.indentLeft.None?
  {
    ParaOpts(None, None, None, Some(Numbering(ref, depth)))
  }

  /** The item as `pushParagraph` sees it: a detached clone with its descendant lists removed. */
  function ItemMain(li: Node): (r: Node)
    requires li.Elem?
    ensures r.Elem? && r.tag == li.tag && NoListsBelow(r)
  {
    StripListsComplete(li);
    DetachKeepsNoLists(StripLists(li));
    Detach(StripLists(li))
  }

  /** The paragraphs `processList(out, list, dc, depth)` appends, in order. */
  function ListParas(list: Node, dc: string, depth: nat): seq<Paragraph>
    requires list.Elem?
    decreases list, 1
  {
    ItemsParas(RefOf(list.tag), list.children, dc, depth)
  }

  /** The children of a list, of which only the `LI` elements (`:scope > li`) contribute. */
  function ItemsParas(ref: ListRef, cs: seq<Node>, dc: string, depth: nat): seq<Paragraph>
    decreases cs, 0
  {
    if cs == [] then []
    else ItemsParas(ref, cs[..|cs| - 1], dc, depth) + ItemParas(ref, cs[|cs| - 1], dc, depth)
  }

  function ItemParas(ref: ListRef, c: Node, dc: string, depth: nat): seq<Paragraph>
    decreases c, 2
  {
    if c.Elem? && c.tag == "LI" then
      ParaFor(ItemMain(c), dc, ItemOpts(ref, depth)) + NestedParas(c.children, dc, depth + 1)
    else []
  }

  /** The children of an item, of which only the `UL`/`OL` elements (`:scope > ul, :scope > ol`) contribute. */
  function NestedParas(cs: seq<Node>, dc: string, depth: nat): seq<Paragraph>
    decreases cs, 0
  {
    if cs == [] then []
    else
      var last := cs[|cs| - 1];
      NestedParas(cs[..|cs| - 1], dc, depth)
      + (if last.Elem? && IsListTag(last.tag) then ListParas(last, dc, depth) else [])
  }

  lemma ItemsParasSnoc(ref: ListRef, cs: seq<Node>, c: Node, dc: string, depth: nat)
    ensures ItemsParas(ref, cs + [c], dc, depth) == ItemsParas(ref, cs, dc, depth) + ItemParas(ref, c, dc, depth)
  {
    assert (cs + [c])[..|cs|] == cs;
  }

  lemma NestedParasSnoc(cs: seq<Node>, c: Node, dc: string, depth: nat)
    ensures c.Elem? && IsListTag(c.tag) ==>
      NestedParas(cs + [c], dc, depth) == NestedParas(cs, dc, depth) + ListParas(c, dc, depth)
    ensures !(c.Elem? && IsListTag(c.tag)) ==> NestedParas(cs + [c], dc, depth) == NestedParas(cs, dc, depth)
  {
    assert (cs + [c])[..|cs|] == cs;
  }

  // ---------------------------------------------------------------------------
  // The imperative walk
  // ---------------------------------------------------------------------------

  /** `processList`. */
  method ProcessList(out: seq<Paragraph>, list: Node, dc: string, depth: nat) returns (out': seq<Paragraph>)
    requires list.Elem?
    ensures out' == out + ListParas(list, dc, depth)
    decreases list
  {
    var ref := RefOf(list.tag);
    var items := list.children;
    out' := out;
    var i := 0;
    while i < |items|
      invariant 0 <= i <= |items|
      invariant out' == out + ItemsParas(ref, items[..i], dc, depth)
    {
      assert items[..i + 1] == items[..i] + [items[i]];
      ItemsParasSnoc(ref, items[..i], items[i], dc, depth);
      AppendAssoc(out, ItemsParas(ref, items[..i], dc, depth), ItemParas(ref, items[i], dc, depth));
      out' := PushItem(out', ref, items[i], dc, depth);
      i := i + 1;
    }
    assert items[..|items|] == items;
  }

  /** One child of the list: an `LI` gives its own paragraph, then its direct sub-lists one level deeper. */
  method PushItem(out: seq<Paragraph>, ref: ListRef, li: Node, dc: string, depth: nat) returns (out': seq<Paragraph>)
    ensures out' == out + ItemParas(ref, li, dc, depth)
    decreases li
  {
    if !(li.Elem? && li.tag == "LI") {
      return out;
    }
    var main := Detach(StripLists(li));
    out' := PushParagraph(out, main, dc, ParaOpts(None, None, None, Some(Numbering(ref, depth))));
    AppendAssoc(out, ParaFor(main, dc, ItemOpts(ref, depth)), NestedParas(li.children, dc, depth + 1));
    out' := PushNestedLists(out', li.children, dc, depth + 1);
  }

  /** The `UL`/`OL` children of an item, each processed in turn. */
  method PushNestedLists(out: seq<Paragraph>, cs: seq<Node>, dc: string, depth: nat) returns (out': seq<Paragraph>)
    ensures out' == out + NestedParas(cs, dc, depth)
    decreases cs
  {
    out' := out;
    var j := 0;
    while j < |cs|
      invariant 0 <= j <= |cs|
      invariant out' == out + NestedParas(cs[..j], dc, depth)
    {
      var n := cs[j];
      assert cs[..j + 1] == cs[..j] + [n];
      NestedParasSnoc(cs[..j], n, dc, depth);
      if n.Elem? && IsListTag(n.tag) {
        AppendAssoc(out, NestedParas(cs[..j], dc, depth), ListParas(n, dc, depth));
        out' := ProcessList(out', n, dc, depth);
      }
      j := j + 1;
    }
    assert cs[..|cs|] == cs;
  }

  // ---------------------------------------------------------------------------
  // Properties
  // ---------------------------------------------------------------------------

  /** Every paragraph is numbered, at `depth` or deeper. */
  predicate NumberedFrom(ps: seq<Paragraph>, depth: nat) {
    forall i :: 0 <= i < |ps| ==> ps[i].numbering.Some? && ps[i].numbering.value.level >= depth
  }

  lemma NumberedFromConcat(a: seq<Paragraph>, b: seq<Paragraph>, depth: nat)
    requires NumberedFrom(a, depth) && NumberedFrom(b, depth)
    ensures NumberedFrom(a + b, depth)
  {
  }

  lemma NumberedFromDeeper(ps: seq<Paragraph>, depth: nat)
    requires NumberedFrom(ps, depth + 1)
    ensures NumberedFrom(ps, depth)
  {
  }

  /** A list at depth `d` gives only numbered paragraphs at level `d` or deeper. */
  lemma {:induction false} ListNumbered(list: Node, dc: string, depth: nat)
    requires list.Elem?
    ensures NumberedFrom(ListParas(list, dc, depth), depth)
    decreases list, 1
  {
    ItemsNumbered(RefOf(list.tag), list.children, dc, depth);
  }

  lemma {:induction false} ItemsNumbered(ref: ListRef, cs: seq<Node>, dc: string, depth: nat)
    ensures NumberedFrom(ItemsParas(ref, cs, dc, depth), depth)
    decreases cs, 0
  {
    if cs != [] {
      ItemsNumbered(ref, cs[..|cs| - 1], dc, depth);
      ItemNumbered(ref, cs[|cs| - 1], dc, depth);
      NumberedFromConcat(ItemsParas(ref, cs[..|cs| - 1], dc, depth), ItemParas(ref, cs[|cs| - 1], dc, depth), depth);
    }
  }

  lemma {:induction false} ItemNumbered(ref: ListRef, c: Node, dc: string, depth: nat)
    ensures NumberedFrom(ItemParas(ref, c, dc, depth), depth)
    decreases c, 2
  {
    if c.Elem? && c.tag == "LI" {
      NestedNumbered(c.children, dc, depth + 1);
      NumberedFromDeeper(NestedParas(c.children, dc, depth + 1), depth);
      NumberedFromConcat(ParaFor(ItemMain(c), dc, ItemOpts(ref, depth)), NestedParas(c.children, dc, depth + 1), depth);
    }
  }

  lemma {:induction false} NestedNumbered(cs: seq<Node>, dc: string, depth: nat)
    ensures NumberedFrom(NestedParas(cs, dc, depth), depth)
    decreases cs, 0
  {
    if cs != [] {
      var last := cs[|cs| - 1];
      NestedNumbered(cs[..|cs| - 1], dc, depth);
      if last.Elem? && IsListTag(last.tag) {
        ListNumbered(last, dc, depth);
        NumberedFromConcat(NestedParas(cs[..|cs| - 1], dc, depth), ListParas(last, dc, depth), depth);
      }
    }
  }

  /** Every run a list gives carries a 6-digit upper-case hex colour when the default colour passed in has that shape. */
  lemma {:induction false} ListShaped(list: Node, dc: string, depth: nat)
    requires list.Elem? && DefaultOk(dc)
    ensures ParasShaped(ListParas(list, dc, depth))
    decreases list, 1
  {
    ItemsShaped(RefOf(list.tag), list.children, dc, depth);
  }

  lemma {:induction false} ItemsShaped(ref: ListRef, cs: seq<Node>, dc: string, depth: nat)
    requires DefaultOk(dc)
    ensures ParasShaped(ItemsParas(ref, cs, dc, depth))
    decreases cs, 0
  {
    if cs != [] {
      ItemsShaped(ref, cs[..|cs| - 1], dc, depth);
      ItemShaped(ref, cs[|cs| - 1], dc, depth);
      ParasShapedConcat(ItemsParas(ref, cs[..|cs| - 1], dc, depth), ItemParas(ref, cs[|cs| - 1], dc, depth));
    }
  }

  lemma {:induction false} ItemShaped(ref: ListRef, c: Node, dc: string, depth: nat)
    requires DefaultOk(dc)
    ensures ParasShaped(ItemParas(ref, c, dc, depth))
    decreases c, 2
  {
    if c.Elem? && c.tag == "LI" {
      ParaForShaped(ItemMain(c), dc, ItemOpts(ref, depth));
      NestedShaped(c.children, dc, depth + 1);
      ParasShapedConcat(ParaFor(ItemMain(c), dc, ItemOpts(ref, depth)), NestedParas(c.children, dc, depth + 1));
    }
  }

  lemma {:induction false} NestedShaped(cs: seq<Node>, dc: string, depth: nat)
    requires DefaultOk(dc)
    ensures ParasShaped(NestedParas(cs, dc, depth))
    decreases cs, 0
  {
    if cs != [] {
      var last := cs[|cs| - 1];
      NestedShaped(cs[..|cs| - 1], dc, depth);
      if last.Elem? && IsListTag(last.tag) {
        ListShaped(last, dc, depth);
        ParasShapedConcat(NestedParas(cs[..|cs| - 1], dc, depth), ListParas(last, dc, depth));
      }
    }
  }

  /**
   * Levels are not clamped: a list nested three or more deep produces
   * paragraphs whose level the document's numbering does not define.
   */
  lemma DeepListsUndefined(list: Node, dc: string, depth: nat)
    requires list.Elem? && depth >= 3
    ensures forall p :: p in ListParas(list, dc, depth) ==> p.numbering.Some? && !LevelDefined(p.numbering.value)
  {
    ListNumbered(list, dc, depth);
    forall p | p in ListParas(list, dc, depth)
      ensures p.numbering.Some? && !LevelDefined(p.numbering.value)
    {
      LevelDefinedIff(p.numbering.value);
    }
  }

  /** The number of `LI` children. */
  function ItemCount(cs: seq<Node>): nat {
    if cs == [] then 0
    else ItemCount(cs[..|cs| - 1]) + (if cs[|cs| - 1].Elem? && cs[|cs| - 1].tag == "LI" then 1 else 0)
  }

  /** The paragraphs at exactly `level`, all of them on the scheme `ref`. */
  function AtLevel(ps: seq<Paragraph>, level: nat): seq<Paragraph> {
    if ps == [] then []
    else AtLevel(ps[..|ps| - 1], level)
         + (var p := ps[|ps| - 1]; if p.numbering.Some? && p.numbering.value.level == level then [p] else [])
  }

  lemma {:induction false} AtLevelConcat(a: seq<Paragraph>, b: seq<Paragraph>, level: nat)
    ensures AtLevel(a + b, level) == AtLevel(a, level) + AtLevel(b, level)
    decreases |b|
  {
    if b != [] {
      assert (a + b)[..|a + b| - 1] == a + b[..|b| - 1];
      AtLevelConcat(a, b[..|b| - 1], level);
    } else {
      assert a + b == a;
    }
  }

  lemma {:induction false} AtLevelNone(ps: seq<Paragraph>, level: nat)
    requires NumberedFrom(ps, level + 1)
    ensures AtLevel(ps, level) == []
    decreases |ps|
  {
    if ps != [] {
      AtLevelNone(ps[..|ps| - 1], level);
    }
  }

  /** The paragraph pushed for one item: one on the list's scheme, or none. */
  lemma ItemMainAtLevel(ref: ListRef, li: Node, dc: string, depth: nat)
    requires li.Elem?
    ensures var ps := ParaFor(ItemMain(li), dc, ItemOpts(ref, depth));
      |ps| <= 1 && AtLevel(ps, depth) == ps
      && forall p :: p in ps ==> p.numbering == Some(Numbering(ref, depth))
  {
    var ps := ParaFor(ItemMain(li), dc, ItemOpts(ref, depth));
    ParaForCount(ItemMain(li), dc, ItemOpts(ref, depth));
    if ps != [] {
      ParaForOptions(ItemMain(li), dc, ItemOpts(ref, depth));
      assert ps == [ps[0]];
      assert ps[..0] == [];
    }
  }

  /** The items' own paragraphs, one `LI` child after another, without their sub-lists. */
  function OwnParas(ref: ListRef, cs: seq<Node>, dc: string, depth: nat): seq<Paragraph> {
    if cs == [] then []
    else
      var c := cs[|cs| - 1];
      OwnParas(ref, cs[..|cs| - 1], dc, depth)
      + (if c.Elem? && c.tag == "LI" then ParaFor(ItemMain(c), dc, ItemOpts(ref, depth)) else [])
  }

  /**
   * At the list's own depth sit exactly the items' own paragraphs, in item
   * order: at most one per `LI` child, each on the list's own scheme;
   * everything else sits deeper.
   */
  lemma {:induction false} ItemsAtOwnLevel(ref: ListRef, cs: seq<Node>, dc: string, depth: nat)
    ensures var top := AtLevel(ItemsParas(ref, cs, dc, depth), depth);
      top == OwnParas(ref, cs, dc, depth)
      && |top| <= ItemCount(cs) && forall p :: p in top ==> p.numbering == Some(Numbering(ref, depth))
    decreases |cs|
  {
    if cs != [] {
      var pre, c := cs[..|cs| - 1], cs[|cs| - 1];
      ItemsAtOwnLevel(ref, pre, dc, depth);
      AtLevelConcat(ItemsParas(ref, pre, dc, depth), ItemParas(ref, c, dc, depth), depth);
      if c.Elem? && c.tag == "LI" {
        var own := ParaFor(ItemMain(c), dc, ItemOpts(ref, depth));
        var deeper := NestedParas(c.children, dc, depth + 1);
        ItemMainAtLevel(ref, c, dc, depth);
        NestedNumbered(c.children, dc, depth + 1);
        AtLevelNone(deeper, depth);
        AtLevelConcat(own, deeper, depth);
        assert AtLevel(ItemParas(ref, c, dc, depth), depth) == own;
      }
    }
  }

  lemma ListAtOwnLevel(list: Node, dc: string, depth: nat)
    requires list.Elem?
    ensures var top := AtLevel(ListParas(list, dc, depth), depth);
      top == OwnParas(RefOf(list.tag), list.children, dc, depth)
      && |top| <= ItemCount(list.children)
      && forall p :: p in top ==> p.numbering == Some(Numbering(RefOf(list.tag), depth))
  {
    ItemsAtOwnLevel(RefOf(list.tag), list.children, dc, depth);
  }

  /**
   * A list that is not a direct child of the item is removed from the item's
   * paragraph and never processed: an item without direct list children gives
   * at most its own paragraph, which holds no list content.
   */
  lemma {:induction false} NoDirectListsNoNested(cs: seq<Node>, dc: string, depth: nat)
    requires forall i :: 0 <= i < |cs| ==> !(cs[i].Elem? && IsListTag(cs[i].tag))
    ensures NestedParas(cs, dc, depth) == []
    decreases |cs|
  {
    if cs != [] {
      NoDirectListsNoNested(cs[..|cs| - 1], dc, depth);
    }
  }

  lemma DeeperListsDropped(ref: ListRef, li: Node, dc: string, depth: nat)
    requires li.Elem? && li.tag == "LI"
    requires forall i :: 0 <= i < |li.children| ==> !(li.children[i].Elem? && IsListTag(li.children[i].tag))
    ensures ItemParas(ref, li, dc, depth) == ParaFor(ItemMain(li), dc, ItemOpts(ref, depth))
    ensures NoListsBelow(ItemMain(li))
  {
    NoDirectListsNoNested(li.children, dc, depth + 1);
  }

  /**
   * The item is cloned out of the document, so nothing the browser computes
   * for it counts: neither its computed colour nor its computed alignment
   * changes its paragraph.
   */
  lemma ItemIgnoresComputedStyle(ref: ListRef, li: Node, dc: string, depth: nat, color: string, align: string)
    requires li.Elem?
    ensures ItemMain(li.(computedColor := color, computedAlign := align)) == ItemMain(li)
    ensures ParaDefault(ItemMain(li), dc) == Upper(CssColorToHex("").GetOr(OrElse(dc, "000000")))
  {
  }

  /**
   * `<ul><li>a<ul><li>b</li></ul></li><li>c</li></ul>` gives three bullet
   * paragraphs at levels 0, 1 and 0, in that order.
   */
  lemma NestedListExample(a: string, b: string, c: string, dc: string)
    requires CollapseSpaces(a) != "" && CollapseSpaces(b) != "" && CollapseSpaces(c) != ""
    ensures var inner := Elem("UL", "", "", "", "", "", [Elem("LI", "", "", "", "", "", [Text(b)])]);
      var outer := Elem("UL", "", "", "", "", "", [Elem("LI", "", "", "", "", "", [Text(a), inner]),
                                                   Elem("LI", "", "", "", "", "", [Text(c)])]);
      var ps := ListParas(outer, dc, 0);
      |ps| == 3 && ps[0].numbering == Some(Numbering(Bullet, 0))
      && ps[1].numbering == Some(Numbering(Bullet, 1)) && ps[2].numbering == Some(Numbering(Bullet, 0))
  {
    var liB := Elem("LI", "", "", "", "", "", [Text(b)]);
    var inner := Elem("UL", "", "", "", "", "", [liB]);
    var liA := Elem("LI", "", "", "", "", "", [Text(a), inner]);
    var liC := Elem("LI", "", "", "", "", "", [Text(c)]);
    var outer := Elem("UL", "", "", "", "", "", [liA, liC]);
    var pa := ItemParas(Bullet, liA, dc, 0);
    var pc := ItemParas(Bullet, liC, dc, 0);
    ItemWithSubList(liA, a, inner, b, dc);
    ItemLeaf(Bullet, liC, c, dc, 0);
    ItemsPair(Bullet, liA, liC, dc, 0);
    assert ListParas(outer, dc, 0) == pa + pc;
  }

  lemma ItemsPair(ref: ListRef, x: Node, y: Node, dc: string, depth: nat)
    ensures ItemsParas(ref, [x, y], dc, depth) == ItemParas(ref, x, dc, depth) + ItemParas(ref, y, dc, depth)
  {
    assert [x, y] == [x] + [y];
    ItemsParasSnoc(ref, [x], y, dc, depth);
    ItemsSingle(ref, x, dc, depth);
  }

  /** The first item of the example: its own paragraph at level 0, then its sub-list's at level 1. */
  lemma ItemWithSubList(liA: Node, a: string, inner: Node, b: string, dc: string)
    requires CollapseSpaces(a) != "" && CollapseSpaces(b) != ""
    requires inner == Elem("UL", "", "", "", "", "", [Elem("LI", "", "", "", "", "", [Text(b)])])
    requires liA == Elem("LI", "", "", "", "", "", [Text(a), inner])
    ensures var ps := ItemParas(Bullet, liA, dc, 0);
      |ps| == 2 && ps[0].numbering == Some(Numbering(Bullet, 0)) && ps[1].numbering == Some(Numbering(Bullet, 1))
  {
    var liB := inner.children[0];
    var own := ParaFor(ItemMain(liA), dc, ItemOpts(Bullet, 0));
    ItemOwnParagraph(Bullet, liA, a, dc, 0);
    ItemMainAtLevel(Bullet, liA, dc, 0);
    ItemLeaf(Bullet, liB, b, dc, 1);
    ItemsSingle(Bullet, liB, dc, 1);
    assert [Text(a), inner] == [Text(a)] + [inner];
    NestedParasSnoc([Text(a)], inner, dc, 1);
    assert NestedParas([Text(a)], dc, 1) == [] by {
      assert [Text(a)] == [] + [Text(a)];
      NestedParasSnoc([], Text(a), dc, 1);
    }
    assert NestedParas(liA.children, dc, 1) == ItemParas(Bullet, liB, dc, 1);
  }

  lemma ItemsSingle(ref: ListRef, li: Node, dc: string, depth: nat)
    ensures ItemsParas(ref, [li], dc, depth) == ItemParas(ref, li, dc, depth)
  {
    assert [li][..0] == [];
  }

  /** An item whose first child is a text that does not collapse to nothing gives its own paragraph. */
  lemma ItemOwnParagraph(ref: ListRef, li: Node, t: string, dc: string, depth: nat)
    requires li.Elem? && li.tag == "LI" && |li.children| >= 1 && li.children[0] == Text(t) && CollapseSpaces(t) != ""
    ensures |ParaFor(ItemMain(li), dc, ItemOpts(ref, depth))| == 1
  {
    var main := ItemMain(li);
    var pd := ParaDefault(main, dc);
    ItemMainFirstText(li, t);
    RunsOfFirstText(main, t, NoMarks(), pd);
  }

  lemma ItemLeaf(ref: ListRef, li: Node, t: string, dc: string, depth: nat)
    requires li == Elem("LI", "", "", "", "", "", [Text(t)]) && CollapseSpaces(t) != ""
    ensures |ItemParas(ref, li, dc, depth)| == 1
    ensures ItemParas(ref, li, dc, depth)[0].numbering == Some(Numbering(ref, depth))
  {
    ItemOwnParagraph(ref, li, t, dc, depth);
    ItemMainAtLevel(ref, li, dc, depth);
    assert NestedParas(li.children, dc, depth + 1) == [] by {
      assert li.children[..0] == [];
    }
  }

  lemma {:induction false} StripKeepsFirstText(cs: seq<Node>, t: string)
    requires |cs| >= 1 && cs[0] == Text(t)
    ensures |StripChildren(cs)| >= 1 && StripChildren(cs)[0] == Text(t)
    decreases |cs|
  {
    if |cs| > 1 {
      StripKeepsFirstText(cs[..|cs| - 1], t);
    } else {
      assert cs[..0] == [];
    }
  }

  lemma {:induction false} DetachKeepsFirstText(cs: seq<Node>, t: string)
    requires |cs| >= 1 && cs[0] == Text(t)
    ensures DetachChildren(cs)[0] == Text(t)
    decreases |cs|
  {
    if |cs| > 1 {
      DetachKeepsFirstText(cs[..|cs| - 1], t);
    } else {
      assert cs[..0] == [];
    }
  }

  lemma ItemMainFirstText(li: Node, t: string)
    requires li.Elem? && |li.children| >= 1 && li.children[0] == Text(t)
    ensures |ItemMain(li).children| >= 1 && ItemMain(li).children[0] == Text(t)
  {
    StripKeepsFirstText(li.children, t);
    DetachKeepsFirstText(StripChildren(li.children), t);
  }

  /** The runs of children that start with such a text are not empty. */
  lemma {:induction false} ChildrenFirstText(inPre: bool, cs: seq<Node>, t: string, m: Marks, dc: string)
    requires |cs| >= 1 && cs[0] == Text(t) && CollapseSpaces(t) != "" && !inPre
    ensures ChildrenRuns(inPre, cs, m, dc) != []
    decreases |cs|
  {
    if |cs| > 1 {
      ChildrenFirstText(inPre, cs[..|cs| - 1], t, m, dc);
    } else {
      assert cs == [Text(t)];
      ChildrenRunsSingle(inPre, Text(t), m, dc);
    }
  }

  lemma RunsOfFirstText(el: Node, t: string, m: Marks, dc: string)
    requires el.Elem? && el.tag != "PRE" && |el.children| >= 1 && el.children[0] == Text(t) && CollapseSpaces(t) != ""
    ensures RunsOf(el, m, dc) != []
  {
    ChildrenFirstText(false, el.children, t, m, dc);
  }
}
