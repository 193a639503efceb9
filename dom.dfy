/**
 * The parsed HTML tree the translator walks. Only element and text nodes are
 * represented. An absent attribute is "" (the translator reads every attribute
 * as `getAttribute(name) || ""`). What the browser computes for an element
 * (`getComputedStyle(el).color` and `.textAlign`) is an oracle value stored on
 * the element; it is "" when the element is not attached to the document.
 */
module Dom {
  import opened Strings

  datatype Node =
    | Text(text: string)
    | Elem(tag: string, style: string, classAttr: string, href: string,
           computedColor: string, computedAlign: string, children: seq<Node>)

  predicate IsElem(n: Node, tag: string) {
    n.Elem? && n.tag == tag
  }

  /** `UL` or `OL`. */
  predicate IsListTag(tag: string) {
    tag == "UL" || tag == "OL"
  }

  /** `/^H[1-6]$/`. */
  predicate IsHeadingTag(tag: string) {
    |tag| == 2 && tag[0] == 'H' && '1' <= tag[1] <= '6'
  }

  /** `Number(tag.substring(1))` for a heading tag. */
  function HeadingLevel(tag: string): (level: nat)
    requires IsHeadingTag(tag)
    ensures 1 <= level <= 6
  {
    tag[1] as int - '0' as int
  }

  /** `node.textContent`: the text of every descendant text node, in document order. */
  function TextContent(n: Node): string
    decreases n, 1
  {
    match n
    case Text(t) => t
    case Elem(_, _, _, _, _, _, cs) => ChildrenText(cs)
  }

  function ChildrenText(cs: seq<Node>): string
    decreases cs, 0
  {
    if cs == [] then "" else ChildrenText(cs[..|cs| - 1]) + TextContent(cs[|cs| - 1])
  }

  /**
   * The item clone with its descendant lists removed: every `UL`/`OL` element
   * below `n` is dropped together with its subtree (`:scope ul, :scope ol`).
   */
  function StripLists(n: Node): (r: Node)
    ensures r.Text? <==> n.Text?
    ensures n.Elem? ==> r.tag == n.tag && r.style == n.style && r.classAttr == n.classAttr
    decreases n, 1
  {
    match n
    case Text(_) => n
    case Elem(_, _, _, _, _, _, cs) => n.(children := StripChildren(cs))
  }

  function StripChildren(cs: seq<Node>): seq<Node>
    decreases cs, 0
  {
    if cs == [] then []
    else
      var last := cs[|cs| - 1];
      StripChildren(cs[..|cs| - 1])
      + (if last.Elem? && IsListTag(last.tag) then [] else [StripLists(last)])
  }

  /** No list element occurs anywhere below `n`. */
  predicate NoListsBelow(n: Node)
    decreases n, 1
  {
    n.Elem? ==> NoListsIn(n.children)
  }

  predicate NoListsIn(cs: seq<Node>)
    decreases cs, 0
  {
    forall i :: 0 <= i < |cs| ==> !(cs[i].Elem? && IsListTag(cs[i].tag)) && NoListsBelow(cs[i])
  }

  /** After stripping, no list is left anywhere below the item. */
  lemma {:induction false} StripListsComplete(n: Node)
    ensures NoListsBelow(StripLists(n))
    decreases n, 1
  {
    if n.Elem? {
      StripChildrenComplete(n.children);
    }
  }

  lemma {:induction false} StripChildrenComplete(cs: seq<Node>)
    ensures NoListsIn(StripChildren(cs))
    decreases cs, 0
  {
    if cs != [] {
      var last := cs[|cs| - 1];
      StripChildrenComplete(cs[..|cs| - 1]);
      if !(last.Elem? && IsListTag(last.tag)) {
        StripListsComplete(last);
      }
    }
  }

  /**
   * `cloneNode(true)` leaves the copy outside the document, so the browser
   * computes nothing for it or its descendants: both oracle values become "".
   */
  function Detach(n: Node): (r: Node)
    ensures r.Text? <==> n.Text?
    ensures n.Elem? ==> r.tag == n.tag && r.style == n.style && r.classAttr == n.classAttr
                        && r.href == n.href && r.computedColor == "" && r.computedAlign == ""
    decreases n, 1
  {
    match n
    case Text(_) => n
    case Elem(_, _, _, _, _, _, cs) => n.(computedColor := "", computedAlign := "", children := DetachChildren(cs))
  }

  function DetachChildren(cs: seq<Node>): (r: seq<Node>)
    ensures |r| == |cs|
    decreases cs, 0
  {
    if cs == [] then [] else DetachChildren(cs[..|cs| - 1]) + [Detach(cs[|cs| - 1])]
  }

  /** Detaching changes no text: `textContent` is the same for the clone. */
  lemma {:induction false} DetachKeepsText(n: Node)
    ensures TextContent(Detach(n)) == TextContent(n)
    decreases n, 1
  {
    if n.Elem? {
      DetachChildrenKeepsText(n.children);
    }
  }

  lemma {:induction false} DetachChildrenKeepsText(cs: seq<Node>)
    ensures ChildrenText(DetachChildren(cs)) == ChildrenText(cs)
    decreases cs, 0
  {
    if cs != [] {
      var d := DetachChildren(cs);
      DetachChildrenKeepsText(cs[..|cs| - 1]);
      DetachKeepsText(cs[|cs| - 1]);
      assert d[..|d| - 1] == DetachChildren(cs[..|cs| - 1]);
    }
  }

  /** Detaching removes no element and adds none: a tree without lists stays without lists. */
  lemma {:induction false} DetachKeepsNoLists(n: Node)
    requires NoListsBelow(n)
    ensures NoListsBelow(Detach(n))
    decreases n, 1
  {
    if n.Elem? {
      DetachChildrenKeepsNoLists(n.children);
    }
  }

  lemma {:induction false} DetachChildrenKeepsNoLists(cs: seq<Node>)
    requires NoListsIn(cs)
    ensures NoListsIn(DetachChildren(cs))
    decreases cs, 0
  {
    if cs != [] {
      var d := DetachChildren(cs);
      DetachChildrenKeepsNoLists(cs[..|cs| - 1]);
      DetachKeepsNoLists(cs[|cs| - 1]);
      assert d[..|d| - 1] == DetachChildren(cs[..|cs| - 1]);
      forall i | 0 <= i < |d|
        ensures !(d[i].Elem? && IsListTag(d[i].tag)) && NoListsBelow(d[i])
      {
        if i < |d| - 1 {
          assert d[i] == d[..|d| - 1][i];
        }
      }
    }
  }
}
