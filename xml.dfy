/** The slice of an lxml element tree that a TCX reader needs: qualified tags,
    attributes, an optional text node and the child elements, with the three
    ElementPath lookups the reader uses (`find`, `findall` and `find('.//tag')`). */
module Xml {
  import opened Wrappers

  /** A namespace-qualified tag, as `prefix:Local` resolves through a namespace map. */
  datatype QName = QName(ns: string, local: string)

  /** One element. `text` is None when the element has no text node at all. */
  datatype Element = Element(tag: QName, attrib: map<string, string>, text: Option<string>, children: seq<Element>)

  /** No element of `es` carries `tag`. */
  ghost predicate Untagged(es: seq<Element>, tag: QName) {
    forall i :: 0 <= i < |es| ==> es[i].tag != tag
  }

  /** The first element of `es` (in order) that carries `tag`. */
  function FirstTagged(es: seq<Element>, tag: QName): (r: Option<Element>)
    ensures r.None? <==> Untagged(es, tag)
    ensures r.Some? ==> r.value.tag == tag && r.value in es
  {
    if es == [] then None
    else if es[0].tag == tag then Some(es[0])
    else FirstTagged(es[1..], tag)
  }

  /** What `FirstTagged` picks has no element carrying `tag` before it. */
  lemma {:induction false} FirstTaggedIsFirst(es: seq<Element>, tag: QName)
    requires FirstTagged(es, tag).Some?
    ensures exists i :: 0 <= i < |es| && es[i] == FirstTagged(es, tag).value && Untagged(es[..i], tag)
  {
    if es[0].tag == tag {
      assert es[..0] == [];
    } else {
      FirstTaggedIsFirst(es[1..], tag);
      var i :| 0 <= i < |es[1..]| && es[1..][i] == FirstTagged(es[1..], tag).value && Untagged(es[1..][..i], tag);
      assert es[..i + 1] == [es[0]] + es[1..][..i];
    }
  }

  /** `e.find(tag)`: the first direct child of `e` carrying `tag`. */
  function Find(e: Element, tag: QName): (r: Option<Element>)
    ensures r.None? <==> Untagged(e.children, tag)
    ensures r.Some? ==> r.value.tag == tag && r.value in e.children
  {
    FirstTagged(e.children, tag)
  }

  /** The elements of `es` that carry `tag`, in their original order. */
  function Tagged(es: seq<Element>, tag: QName): (r: seq<Element>)
    ensures |r| <= |es|
    ensures forall i :: 0 <= i < |r| ==> r[i].tag == tag
  {
    if es == [] then []
    else if es[0].tag == tag then [es[0]] + Tagged(es[1..], tag)
    else Tagged(es[1..], tag)
  }

  /** `e.findall(tag)`: the direct children of `e` carrying `tag`, in document order. */
  function FindAll(e: Element, tag: QName): (r: seq<Element>)
    ensures |r| <= |e.children|
    ensures forall i :: 0 <= i < |r| ==> r[i].tag == tag
  {
    Tagged(e.children, tag)
  }

  /** `Tagged` keeps exactly the elements carrying `tag`: each of them, and nothing else. */
  lemma {:induction false} TaggedMembers(es: seq<Element>, tag: QName)
    ensures forall x :: x in Tagged(es, tag) <==> x in es && x.tag == tag
  {
    if es != [] {
      TaggedMembers(es[1..], tag);
      assert es == [es[0]] + es[1..];
    }
  }

  /** Filtering by tag distributes over concatenation, so `Tagged` keeps document order. */
  lemma {:induction false} TaggedAppend(a: seq<Element>, b: seq<Element>, tag: QName)
    ensures Tagged(a + b, tag) == Tagged(a, tag) + Tagged(b, tag)
  {
    if a != [] {
      assert (a + b)[1..] == a[1..] + b;
      TaggedAppend(a[1..], b, tag);
    } else {
      assert a + b == b;
    }
  }

  /** The first match in a concatenation is the first match in the left part, if any. */
  lemma {:induction false} FirstTaggedAppend(a: seq<Element>, b: seq<Element>, tag: QName)
    ensures FirstTagged(a + b, tag) == if FirstTagged(a, tag).Some? then FirstTagged(a, tag) else FirstTagged(b, tag)
  {
    if a == [] {
      assert a + b == b;
    } else {
      assert (a + b)[1..] == a[1..] + b;
      FirstTaggedAppend(a[1..], b, tag);
    }
  }

  /** All elements strictly below `e`, in document (pre-)order. */
  function Descendants(e: Element): seq<Element>
    decreases e, 1
  {
    DescendantsOf(e.children)
  }

  /** The elements of `cs` and everything below them, in document order. */
  function DescendantsOf(cs: seq<Element>): seq<Element>
    decreases cs, 0
  {
    if cs == [] then [] else [cs[0]] + Descendants(cs[0]) + DescendantsOf(cs[1..])
  }

  /** The depth-first search behind `find('.//tag')`, over a list of siblings:
      it finds the first element of the document-order listing carrying `tag`. */
  function SearchIn(cs: seq<Element>, tag: QName): (r: Option<Element>)
    ensures r == FirstTagged(DescendantsOf(cs), tag)
    decreases cs, 0
  {
    if cs == [] then None
    else
      var below, rest := Descendants(cs[0]), DescendantsOf(cs[1..]);
      assert DescendantsOf(cs) == [cs[0]] + (below + rest);
      FirstTaggedCons(cs[0], below + rest, tag);
      if cs[0].tag == tag then Some(cs[0])
      else
        FirstTaggedAppend(below, rest, tag);
        var found := SearchBelow(cs[0], tag);
        if found.Some? then found else SearchIn(cs[1..], tag)
  }

  /** Unfolding `FirstTagged` on a list built with a head element. */
  lemma FirstTaggedCons(x: Element, s: seq<Element>, tag: QName)
    ensures FirstTagged([x] + s, tag) == if x.tag == tag then Some(x) else FirstTagged(s, tag)
  {
    assert ([x] + s)[0] == x && ([x] + s)[1..] == s;
  }

  /** `e.find('.//tag')`: the first element strictly below `e`, in document order,
      that carries `tag`, at any depth. */
  function SearchBelow(e: Element, tag: QName): (r: Option<Element>)
    ensures r == FirstTagged(Descendants(e), tag)
    decreases e, 1
  {
    SearchIn(e.children, tag)
  }
}
