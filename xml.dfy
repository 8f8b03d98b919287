/** The parsed XML document, as the job sees it through ElementTree. The
    parser itself is not modelled: a response carries the tree it parses
    to, or nothing when its text is not well-formed. */
module Xml {
  import opened Wrappers

  /** An element: its tag, its text (None when the element has no text,
      as in `<층/>`), and its child elements in document order. */
  datatype Element = Element(tag: string, text: Option<string>, children: seq<Element>)

  /** `parent.find(tag)`: the first child with that tag, if any. */
  function Find(children: seq<Element>, tag: string): (r: Option<Element>)
    ensures r.None? <==> forall i :: 0 <= i < |children| ==> children[i].tag != tag
    ensures r.Some? ==> exists i :: 0 <= i < |children| && children[i] == r.value
                          && r.value.tag == tag
                          && forall j :: 0 <= j < i ==> children[j].tag != tag
  {
    if children == [] then None
    else if children[0].tag == tag then Some(children[0])
    else
      var r := Find(children[1..], tag);
      assert forall i :: 0 < i < |children| ==> children[i] == children[1..][i - 1];
      r
  }

  /** The children with a given tag, in document order. */
  function Tagged(es: seq<Element>, tag: string): (r: seq<Element>)
    ensures forall e :: e in r ==> e in es && e.tag == tag
    ensures forall i :: 0 <= i < |es| && es[i].tag == tag ==> es[i] in r
    ensures (forall i :: 0 <= i < |es| ==> es[i].tag != tag) ==> r == []
    ensures |r| <= |es|
  {
    if es == [] then []
    else
      assert forall i :: 0 < i < |es| ==> es[i] == es[1..][i - 1];
      if es[0].tag == tag then [es[0]] + Tagged(es[1..], tag)
      else Tagged(es[1..], tag)
  }

  /** Selecting from two lists of children in turn selects from each in
      turn: the selection keeps document order. */
  lemma {:induction false} TaggedAppend(a: seq<Element>, b: seq<Element>, tag: string)
    ensures Tagged(a + b, tag) == Tagged(a, tag) + Tagged(b, tag)
  {
    if a == [] {
      assert a + b == b;
    } else {
      assert (a + b)[0] == a[0];
      assert (a + b)[1..] == a[1..] + b;
      TaggedAppend(a[1..], b, tag);
    }
  }

  lemma TaggedNone(es: seq<Element>, tag: string)
    requires forall j :: 0 <= j < |es| ==> es[j].tag != tag
    ensures Tagged(es, tag) == []
  {
  }

  /** When exactly one child carries the tag, the selection is that child. */
  lemma TaggedOne(es: seq<Element>, i: nat, tag: string)
    requires i < |es| && es[i].tag == tag
    requires forall j :: 0 <= j < |es| && j != i ==> es[j].tag != tag
    ensures Tagged(es, tag) == [es[i]]
  {
    var x, before, after := es[i], es[..i], es[i + 1..];
    TaggedNone(before, tag);
    TaggedNone(after, tag);
    calc == {
      Tagged(es, tag);
      { assert es == (before + [x]) + after; }
      Tagged((before + [x]) + after, tag);
      { TaggedAppend(before + [x], after, tag); }
      Tagged(before + [x], tag) + Tagged(after, tag);
      { TaggedAppend(before, [x], tag); }
      Tagged(before, tag) + Tagged([x], tag) + [];
      { assert [x][1..] == []; }
      [x];
    }
  }

  /** The children of each element in turn, concatenated. */
  function ChildrenOf(es: seq<Element>): seq<Element> {
    if es == [] then [] else es[0].children + ChildrenOf(es[1..])
  }

  /** `root.findall("./body/items/")`. A path that ends in "/" selects
      every child, so this is every child of every <items> under every
      <body> of the root, in document order. A root without a <body> has
      no items. */
  function Items(root: Element): (r: seq<Element>)
    ensures (forall i :: 0 <= i < |root.children| ==> root.children[i].tag != "body") ==> r == []
  {
    ChildrenOf(Tagged(ChildrenOf(Tagged(root.children, "body")), "items"))
  }

  /** With exactly one <body> among the root's children, holding exactly
      one <items> among its own children, the items are that element's
      children, in document order, whatever other elements (a <header>,
      the counts) surround them. */
  lemma ItemsOfOnlyBody(root: Element, b: nat, k: nat)
    requires b < |root.children| && root.children[b].tag == "body"
    requires forall j :: 0 <= j < |root.children| && j != b ==> root.children[j].tag != "body"
    requires k < |root.children[b].children| && root.children[b].children[k].tag == "items"
    requires forall j :: 0 <= j < |root.children[b].children| && j != k ==> root.children[b].children[j].tag != "items"
    ensures Items(root) == root.children[b].children[k].children
  {
    var body := root.children[b];
    var list := body.children[k];
    TaggedOne(root.children, b, "body");
    assert ChildrenOf([body]) == body.children by {
      assert [body][1..] == [];
    }
    TaggedOne(body.children, k, "items");
    assert ChildrenOf([list]) == list.children by {
      assert [list][1..] == [];
    }
  }
}
