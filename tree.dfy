/**
 * The element tree that docxgen builds through lxml, and the element factory
 * `E` bound to the WordprocessingML namespace, including the attribute
 * handler `add_dict` that the factory runs on keyword attributes.
 */
module Tree {
  import opened Wrappers
  import opened Namespaces

  /**
   * An lxml element: its tag as namespace URI and local name, its attributes
   * in insertion order (keys in Clark notation once qualified), its text
   * ("" where lxml has None) and its element children in order.
   */
  datatype Element = Element(
    ns: string,
    local: string,
    attrs: seq<(string, string)>,
    text: string,
    children: seq<Element>)

  /** `elem.tag`. */
  function Tag(e: Element): string {
    Clark(e.ns, e.local)
  }

  /** The element carries the WordprocessingML tag `w:local`. */
  predicate IsW(e: Element, local: string) {
    e.ns == W && e.local == local
  }

  /**
   * The builders test `elem.tag == qname('w', local)`; for any element whose
   * namespace holds no brace (lxml admits no other) that is exactly IsW.
   */
  lemma TagTest(e: Element, local: string)
    requires NoBrace(e.ns)
    ensures QName("w", local) == Some(Tag(e)) <==> IsW(e, local)
  {
    QNameCases("w", local);
    RegistryHasNoBraces();
    ClarkInjective(W, local, e.ns, e.local);
  }

  /** The value stored under `key`, if any (the first entry, as keys never repeat). */
  function Lookup(attrs: seq<(string, string)>, key: string): (r: Option<string>)
    ensures r.Some? <==> exists i :: 0 <= i < |attrs| && attrs[i].0 == key
  {
    if attrs == [] then None
    else if attrs[0].0 == key then Some(attrs[0].1)
    else Lookup(attrs[1..], key)
  }

  /** The attribute `w:name` of an element, as `elem.get(qname('w', name))` reads it. */
  function WAttr(e: Element, name: string): Option<string> {
    Lookup(e.attrs, Clark(W, name))
  }

  predicate UniqueKeys(attrs: seq<(string, string)>) {
    forall i, j :: 0 <= i < j < |attrs| ==> attrs[i].0 != attrs[j].0
  }

  /**
   * `attrib[key] = value`: an existing attribute keeps its position and takes
   * the new value; a new one goes last.
   */
  function SetAttr(attrs: seq<(string, string)>, key: string, value: string): (r: seq<(string, string)>)
    ensures Lookup(r, key) == Some(value)
    ensures forall k :: k != key ==> Lookup(r, k) == Lookup(attrs, k)
    ensures UniqueKeys(attrs) ==> UniqueKeys(r)
    ensures |r| == if Lookup(attrs, key).Some? then |attrs| else |attrs| + 1
  {
    if attrs == [] then [(key, value)]
    else if attrs[0].0 == key then [(key, value)] + attrs[1..]
    else
      var rest := SetAttr(attrs[1..], key, value);
      assert forall k :: k != key ==> Lookup([attrs[0]] + rest, k) == Lookup(attrs, k);
      assert UniqueKeys(attrs) ==> Lookup(rest, attrs[0].0) == None by {
        if UniqueKeys(attrs) {
          assert Lookup(attrs[1..], attrs[0].0) == None;
        }
      }
      [attrs[0]] + rest
  }

  /**
   * The key `add_dict` stores: one already in Clark notation is kept; any
   * other is qualified by the element's namespace. Every element `E` makes
   * is in the `w` namespace under the `w` prefix, so its keys are qualified;
   * an element without a namespace keeps the bare key.
   */
  function QualifyKey(e: Element, key: string): (r: string)
    ensures |key| > 0 && key[0] == '{' ==> r == key
    ensures e.ns == "" ==> r == key
  {
    if |key| > 0 && key[0] == '{' then key
    else if e.ns != "" then Clark(e.ns, key)
    else key
  }

  /**
   * A plain key stored on a namespaced element reads back, in Clark
   * notation, as the element's namespace and the key itself.
   */
  lemma QualifyKeySplits(e: Element, key: string)
    requires !(|key| > 0 && key[0] == '{') && e.ns != "" && NoBrace(e.ns)
    ensures SplitClark(QualifyKey(e, key)) == Some((e.ns, key))
  {
    SplitClarkInverts(e.ns, key);
  }

  /** The attribute values `add_dict` can receive. */
  datatype AttrValue =
    | Str(s: string)
    | Nested(entries: seq<(string, AttrValue)>)   // a dict value
    | Other                                      // None, a number, anything else

  /** The items of a mapping whose values are all strings. */
  function Strings(items: seq<(string, AttrValue)>): (r: seq<(string, string)>)
    requires forall i :: 0 <= i < |items| ==> items[i].1.Str?
    ensures |r| == |items|
    ensures forall i :: 0 <= i < |items| ==> r[i] == (items[i].0, items[i].1.s)
  {
    if items == [] then [] else Strings(items[..|items| - 1]) + [(items[|items| - 1].0, items[|items| - 1].1.s)]
  }

  lemma StringsSnoc(items: seq<(string, AttrValue)>, i: nat)
    requires i < |items|
    requires forall j :: 0 <= j <= i ==> items[j].1.Str?
    ensures Strings(items[..i + 1]) == Strings(items[..i]) + [(items[i].0, items[i].1.s)]
  {
    assert items[..i + 1][..i] == items[..i];
  }

  /** The element after `add_dict` has stored every item of a string mapping, in order. */
  function WithAttrs(e: Element, items: seq<(string, string)>): (r: Element)
    ensures r.(attrs := e.attrs) == e
    ensures UniqueKeys(e.attrs) ==> UniqueKeys(r.attrs)
  {
    if items == [] then e
    else
      var (k, v) := items[|items| - 1];
      var before := WithAttrs(e, items[..|items| - 1]);
      before.(attrs := SetAttr(before.attrs, QualifyKey(e, k), v))
  }

  /** The value of the last item whose key qualifies to `key`, if any. */
  function LastAssigned(e: Element, items: seq<(string, string)>, key: string): Option<string> {
    if items == [] then None
    else if QualifyKey(e, items[|items| - 1].0) == key then Some(items[|items| - 1].1)
    else LastAssigned(e, items[..|items| - 1], key)
  }

  /**
   * Attribute storage is last-write-wins: after `add_dict` an attribute holds
   * the value of the last item that qualifies to its key, and an attribute no
   * item names keeps its old value.
   */
  lemma {:induction false} WithAttrsLookup(e: Element, items: seq<(string, string)>, key: string)
    ensures Lookup(WithAttrs(e, items).attrs, key) ==
      match LastAssigned(e, items, key)
      case Some(v) => Some(v)
      case None => Lookup(e.attrs, key)
  {
    if items != [] {
      WithAttrsLookup(e, items[..|items| - 1], key);
    }
  }

  /**
   * add_dict: store every item of the mapping on the element. A non-string
   * value makes the source call `add_dict` on None (or index the type map
   * with an unknown type) and raise, which is None here.
   */
  method AddDict(e: Element, items: seq<(string, AttrValue)>) returns (r: Option<Element>)
    ensures r.Some? <==> forall i :: 0 <= i < |items| ==> items[i].1.Str?
    ensures r.Some? ==> r.value == WithAttrs(e, Strings(items))
  {
    var attrib := e.attrs;
    var i := 0;
    while i < |items|
      invariant 0 <= i <= |items|
      invariant forall j :: 0 <= j < i ==> items[j].1.Str?
      invariant e.(attrs := attrib) == WithAttrs(e, Strings(items[..i]))
    {
      var (k, v) := items[i];
      var key := QualifyKey(e, k);
      if v.Str? {
        StringsSnoc(items, i);
        attrib := SetAttr(attrib, key, v.s);
      } else {
        return None;
      }
      i := i + 1;
    }
    assert items[..i] == items;
    r := Some(e.(attrs := attrib));
  }

  /**
   * `E.local(*children, **kwargs)` for string keyword values: a fresh
   * WordprocessingML element with the keyword attributes stored through
   * add_dict, the given text and the given children in order.
   */
  function Make(local: string, kwargs: seq<(string, string)>, text: string, children: seq<Element>): (r: Element)
    ensures IsW(r, local) && r.text == text && r.children == children
    ensures UniqueKeys(r.attrs)
  {
    WithAttrs(Element(W, local, [], text, children), kwargs)
  }

  /** `E.local(*children)`. */
  function Node(local: string, children: seq<Element>): Element {
    Element(W, local, [], "", children)
  }

  /** `E.local(val=value)`: an empty element with a single `w:val` attribute. */
  function Val(local: string, value: string): Element {
    Element(W, local, [(Clark(W, "val"), value)], "", [])
  }

  /** Val is what the factory builds for one `val` keyword. */
  lemma ValIsMade(local: string, value: string)
    ensures Val(local, value) == Make(local, [("val", value)], "", [])
  {
    var items := [("val", value)];
    var e := Node(local, []);
    assert items[..0] == [];
    assert WithAttrs(e, items[..0]) == e;
    assert QualifyKey(e, "val") == Clark(W, "val");
  }

  /** The local names of the element and its descendants in document order, as `iter()` visits them. */
  function Tags(e: Element): seq<string> {
    [e.local] + TagsOf(e.children)
  }

  function TagsOf(es: seq<Element>): seq<string> {
    if es == [] then [] else Tags(es[0]) + TagsOf(es[1..])
  }

  lemma TagsOfOne(e: Element)
    ensures TagsOf([e]) == Tags(e)
  {
    assert [e][1..] == [];
  }

  lemma TagsOfTwo(a: Element, b: Element)
    ensures TagsOf([a, b]) == Tags(a) + Tags(b)
  {
    assert [a, b][1..] == [b];
    TagsOfOne(b);
  }

  /** An element without children contributes its own name only. */
  lemma TagsOfLeaf(e: Element)
    requires e.children == []
    ensures Tags(e) == [e.local]
  {
  }

  lemma {:induction false} TagsOfConcat(a: seq<Element>, b: seq<Element>)
    ensures TagsOf(a + b) == TagsOf(a) + TagsOf(b)
  {
    if a == [] {
      assert a + b == b;
    } else {
      assert (a + b)[1..] == a[1..] + b;
      TagsOfConcat(a[1..], b);
    }
  }
}
