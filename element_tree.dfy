/**
 * The part of an XML element tree the pipeline looks at: elements with a tag,
 * attributes and children in document order, and the two path shapes it
 * searches children with, `Tag` and `Tag[@Attr="Value"]`.
 */
module ElementTree {
  import opened Wrappers

  datatype Element = Element(tag: string, attrib: map<string, string>, children: seq<Element>)

  /** A path that selects direct children: by tag, or by tag and one attribute's value. */
  datatype Path = Child(tag: string) | ChildWithAttr(tag: string, attr: string, value: string)

  predicate Selects(p: Path, e: Element) {
    match p
    case Child(t) => e.tag == t
    case ChildWithAttr(t, a, v) => e.tag == t && a in e.attrib && e.attrib[a] == v
  }

  /** `find`: the position of the first child that the path selects, if any. */
  function Find(children: seq<Element>, p: Path): (r: Option<nat>)
    ensures r.Some? ==> r.value < |children| && Selects(p, children[r.value])
    ensures r.Some? ==> forall j :: 0 <= j < r.value ==> !Selects(p, children[j])
    ensures r.None? ==> forall j :: 0 <= j < |children| ==> !Selects(p, children[j])
  {
    if children == [] then None
    else if Selects(p, children[0]) then Some(0)
    else match Find(children[1..], p)
      case None => None
      case Some(k) => Some(k + 1)
  }

  /** `findall`: every child that the path selects, in document order. */
  function FindAll(children: seq<Element>, p: Path): (r: seq<Element>)
    ensures |r| <= |children|
    ensures forall k :: 0 <= k < |r| ==> Selects(p, r[k])
    ensures forall e :: e in r ==> e in children
    ensures forall j :: 0 <= j < |children| && Selects(p, children[j]) ==> children[j] in r
  {
    if children == [] then []
    else if Selects(p, children[0]) then [children[0]] + FindAll(children[1..], p)
    else FindAll(children[1..], p)
  }

  /** `findall` keeps document order: searching a concatenation concatenates the results. */
  lemma {:induction false} FindAllAppend(a: seq<Element>, b: seq<Element>, p: Path)
    ensures FindAll(a + b, p) == FindAll(a, p) + FindAll(b, p)
    decreases |a|
  {
    if a == [] {
      assert a + b == b;
    } else {
      assert (a + b)[1..] == a[1..] + b;
      FindAllAppend(a[1..], b, p);
    }
  }
}
