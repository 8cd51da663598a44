/** The view of an NCBI XML record that the core relies on. An element has a tag
    name, attributes, its text content and its child elements; the lookups follow
    the DOM conventions the source uses: a missing attribute reads as "", a tag
    search covers the proper descendants of an element in document order. */
module Xml {
  import opened Util

  datatype Element = Element(tag: string, attributes: map<string, string>, text: string, children: seq<Element>)

  /** `element.getAttribute(name)`: "" when the attribute is absent. */
  function GetAttribute(e: Element, name: string): (r: string)
    ensures name in e.attributes ==> r == e.attributes[name]
    ensures name !in e.attributes ==> r == ""
  {
    if name in e.attributes then e.attributes[name] else ""
  }

  /** The proper descendants of `e`, in document (pre-)order. */
  function Descendants(e: Element): seq<Element>
  {
    DescendantsFrom(e, 0)
  }

  /** The descendants of `e` that lie under its children `i`, `i + 1`, .... */
  function DescendantsFrom(e: Element, i: nat): seq<Element>
    decreases e, |e.children| - i
  {
    if i >= |e.children| then []
    else
      var c := e.children[i];
      [c] + DescendantsFrom(c, 0) + DescendantsFrom(e, i + 1)
  }

  /** The descendants of `e` with the given tag, in document order
      (`getElementsByTagName`, `XmlUtils.descendantsOf`). */
  function DescendantsOf(e: Element, tag: string): (r: seq<Element>)
    ensures |r| <= |Descendants(e)|
  {
    Filter(Descendants(e), tag)
  }

  /** The elements of `es` with the tag, in their order. */
  function Filter(es: seq<Element>, tag: string): (r: seq<Element>)
    ensures |r| <= |es|
  {
    if es == [] then []
    else if es[0].tag == tag then [es[0]] + Filter(es[1..], tag)
    else Filter(es[1..], tag)
  }

  /** An element is kept exactly when it is in the list and has the tag. */
  lemma {:induction false} FilterMembers(es: seq<Element>, tag: string, x: Element)
    ensures x in Filter(es, tag) <==> x in es && x.tag == tag
  {
    if es != [] {
      FilterMembers(es[1..], tag, x);
      assert es == [es[0]] + es[1..];
    }
  }

  /** A tag search finds exactly the descendants with that tag. */
  lemma DescendantsOfMembers(e: Element, tag: string, x: Element)
    ensures x in DescendantsOf(e, tag) <==> x in Descendants(e) && x.tag == tag
  {
    FilterMembers(Descendants(e), tag, x);
  }

  /** `XmlUtils.findFirstByTagName`: the first descendant with the tag, if any. */
  function FindFirst(e: Element, tag: string): (r: Option<Element>)
    ensures r.Some? <==> DescendantsOf(e, tag) != []
    ensures r.Some? ==> r.value.tag == tag && r.value == DescendantsOf(e, tag)[0]
  {
    var found := DescendantsOf(e, tag);
    if found == [] then None
    else
      DescendantsOfMembers(e, tag, found[0]);
      Some(found[0])
  }

  /** `XmlUtils.getFirstByTagName`: like `FindFirst`, but a missing tag is a
      `TagNotFoundException`. */
  function GetFirst(e: Element, tag: string): (r: Result<Element>)
    ensures r.Ok? <==> FindFirst(e, tag).Some?
    ensures r.Ok? ==> r.value == FindFirst(e, tag).value
    ensures r.Err? ==> r.error == TagNotFound(tag)
  {
    match FindFirst(e, tag)
    case Some(x) => Ok(x)
    case None => Err(TagNotFound(tag))
  }

  /** `XmlUtils.getXmlString`: the text of the first descendant with the tag, or "". */
  function GetXmlString(e: Element, tag: string): (r: string)
    ensures FindFirst(e, tag).Some? ==> r == FindFirst(e, tag).value.text
    ensures FindFirst(e, tag).None? ==> r == ""
  {
    match FindFirst(e, tag)
    case Some(x) => x.text
    case None => ""
  }

  /** `Node.hasChildNodes`: an element child or a text node. */
  predicate HasChildNodes(e: Element) {
    e.children != [] || e.text != ""
  }

  /** Every child is a descendant, so a tag search also finds direct children. */
  lemma ChildrenAreDescendants(e: Element, i: nat)
    requires i < |e.children|
    ensures e.children[i] in Descendants(e)
  {
    DescendantsFromIncludes(e, 0, i);
  }

  lemma {:induction false} DescendantsFromIncludes(e: Element, j: nat, i: nat)
    requires j <= i < |e.children|
    ensures e.children[i] in DescendantsFrom(e, j)
    decreases i - j
  {
    if j < i {
      DescendantsFromIncludes(e, j + 1, i);
    }
  }
}
