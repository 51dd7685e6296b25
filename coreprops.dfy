/**
 * The `docProps/core.xml` part: a `cp:coreProperties` element projected
 * from a document's metadata map. Recognised keys are emitted in a fixed
 * order; any other key is ignored.
 */
module CoreProps {
  import opened Wrappers
  import opened Namespaces
  import opened Tree
  import opened Stamps

  /**
   * A metadata value as the source uses it: a string, a sequence of
   * strings (for `keywords`) or a `datetime` (for `created` and `modified`).
   */
  datatype MetaValue = Text(s: string) | TextList(items: seq<string>) | Date(d: Timestamp)

  type Meta = map<string, MetaValue>

  /**
   * `','.join(xs)`: the pieces in order with a comma between neighbours;
   * the first piece opens the text and the last one closes it.
   */
  function Join(xs: seq<string>): (r: string)
    ensures xs == [] ==> r == ""
    ensures |xs| > 0 ==> xs[0] <= r && |xs[|xs| - 1]| <= |r| && r[|r| - |xs[|xs| - 1]|..] == xs[|xs| - 1]
  {
    if xs == [] then ""
    else if |xs| == 1 then xs[0]
    else Join(xs[..|xs| - 1]) + "," + xs[|xs| - 1]
  }

  /** `s.split(',')`: the pieces between commas; there is always at least one. */
  function Split(s: string): (r: seq<string>)
    ensures |r| > 0
  {
    if s == [] then [""]
    else if s[|s| - 1] == ',' then Split(s[..|s| - 1]) + [""]
    else
      var r := Split(s[..|s| - 1]);
      r[..|r| - 1] + [r[|r| - 1] + [s[|s| - 1]]]
  }

  /** Appending comma-free text to a string extends its last piece. */
  lemma {:induction false} SplitExtend(a: string, b: string)
    requires ',' !in b
    ensures var r := Split(a);
      Split(a + b) == r[..|r| - 1] + [r[|r| - 1] + b]
  {
    var r := Split(a);
    if b == [] {
      assert a + b == a;
      assert r[|r| - 1] + b == r[|r| - 1];
      assert r[..|r| - 1] + [r[|r| - 1]] == r;
    } else {
      var b' := b[..|b| - 1];
      var c := b[|b| - 1];
      assert b == b' + [c];
      assert a + b == (a + b') + [c];
      assert (a + b)[..|a + b| - 1] == a + b';
      assert c != ',' by {
        assert b[|b| - 1] in b;
      }
      SplitExtend(a, b');
      var r2 := Split(a + b');
      assert r2[..|r2| - 1] == r[..|r| - 1];
      assert r2[|r2| - 1] + [c] == r[|r| - 1] + b;
    }
  }

  /** A comma-free string is a single piece. */
  lemma SplitSingle(x: string)
    requires ',' !in x
    ensures Split(x) == [x]
  {
    SplitExtend("", x);
    assert "" + x == x;
    assert [""][..0] + [[""][0] + x] == [x];
  }

  /** Adding a comma-free item to non-empty joined keywords adds one piece. */
  lemma SplitJoinStep(init: seq<string>, last: string)
    requires |init| > 0 && ',' !in last && Split(Join(init)) == init
    ensures Split(Join(init + [last])) == init + [last]
  {
    var xs := init + [last];
    assert xs[..|xs| - 1] == init;
    var head := Join(init) + ",";
    assert Split(head) == init + [""] by {
      assert head[..|head| - 1] == Join(init);
    }
    SplitExtend(head, last);
    assert (init + [""])[..|init|] == init;
    assert "" + last == last;
    assert Join(xs) == head + last;
  }

  /**
   * Splitting the joined keywords at commas gives the keywords back, as
   * long as there is at least one and none holds a comma.
   */
  lemma {:induction false} SplitJoin(xs: seq<string>)
    requires |xs| > 0
    requires forall i :: 0 <= i < |xs| ==> ',' !in xs[i]
    ensures Split(Join(xs)) == xs
  {
    if |xs| == 1 {
      SplitSingle(xs[0]);
    } else {
      var init, last := xs[..|xs| - 1], xs[|xs| - 1];
      assert xs == init + [last];
      assert forall i :: 0 <= i < |init| ==> ',' !in init[i] by {
        assert forall i :: 0 <= i < |init| ==> init[i] == xs[i];
      }
      SplitJoin(init);
      SplitJoinStep(init, last);
    }
  }

  /** Joining the pieces of any string at commas gives the string back. */
  lemma {:induction false} JoinSplit(s: string)
    ensures Join(Split(s)) == s
  {
    if s != [] {
      var t := s[..|s| - 1];
      var c := s[|s| - 1];
      assert s == t + [c];
      JoinSplit(t);
      var r := Split(t);
      if c == ',' {
        assert (r + [""])[..|r|] == r;
      } else {
        var r' := r[..|r| - 1] + [r[|r| - 1] + [c]];
        assert r'[..|r'| - 1] == r[..|r| - 1];
        if |r| > 1 {
          assert Join(r) == Join(r[..|r| - 1]) + "," + r[|r| - 1];
        }
      }
    }
  }

  const PERSON_KEYS: seq<string> := ["lastModifiedBy"]
  const TEXT_KEYS: seq<string> := ["title", "subject", "creator", "description"]
  const DATE_KEYS: seq<string> := ["created", "modified"]

  /** Every key the source recognises, in the order it emits them. */
  const CORE_KEYS: seq<string> := PERSON_KEYS + ["keywords"] + TEXT_KEYS + DATE_KEYS

  /** The `xsi:type` every date carries. */
  const W3CDTF := "dcterms:W3CDTF"

  /**
   * The element for one recognised key, or None where the source raises:
   * a text field that is not a string, keywords that are neither a string
   * nor a sequence of strings, a date that is not a `datetime`.
   */
  function Property(key: string, v: MetaValue): (r: Option<Element>)
    requires key in CORE_KEYS
    ensures r.Some? <==> WellTyped(key, v)
    ensures r.Some? ==> r.value.local == key && r.value.children == []
  {
    if key == "lastModifiedBy" then
      if v.Text? then Some(Element(CP, key, [], v.s, [])) else None
    else if key == "keywords" then
      if v.Text? then Some(Element(CP, key, [], v.s, []))
      else if v.TextList? then Some(Element(CP, key, [], Join(v.items), []))
      else None
    else if key in TEXT_KEYS then
      if v.Text? then Some(Element(DC, key, [], v.s, [])) else None
    else
      if v.Date? then Some(Element(DCTERMS, key, [(Clark(XSI, "type"), W3CDTF)], FormatStamp(v.d), [])) else None
  }

  /** The value types the source accepts for a recognised key. */
  predicate WellTyped(key: string, v: MetaValue) {
    if key == "keywords" then v.Text? || v.TextList?
    else if key in DATE_KEYS then v.Date?
    else v.Text?
  }

  /** The keys of `keys` present in the map, in order. */
  function Present(meta: Meta, keys: seq<string>): (r: seq<string>)
    ensures forall i :: 0 <= i < |r| ==> r[i] in keys && r[i] in meta
    ensures forall k :: k in keys && k in meta ==> k in r
  {
    if keys == [] then []
    else Present(meta, keys[..|keys| - 1]) + (if keys[|keys| - 1] in meta then [keys[|keys| - 1]] else [])
  }

  /** The children emitted for `keys`, in order; None once any of them raises. */
  function Properties(meta: Meta, keys: seq<string>): (r: Option<seq<Element>>)
    requires forall k :: k in keys ==> k in CORE_KEYS
    ensures r.Some? ==> |r.value| <= |keys|
  {
    if keys == [] then Some([])
    else
      var init := Properties(meta, keys[..|keys| - 1]);
      var k := keys[|keys| - 1];
      if init.None? then None
      else if k !in meta then init
      else
        var e := Property(k, meta[k]);
        if e.None? then None else Some(init.value + [e.value])
  }

  /** get_core_props: the `cp:coreProperties` root holding the emitted children. */
  function CoreProperties(meta: Meta): (r: Option<Element>)
    ensures r.Some? ==> r.value.ns == CP && r.value.local == "coreProperties" && r.value.attrs == [] && r.value.text == ""
    ensures r.Some? ==> |r.value.children| <= |CORE_KEYS|
  {
    var children := Properties(meta, CORE_KEYS);
    if children.None? then None else Some(Element(CP, "coreProperties", [], "", children.value))
  }

  /**
   * What the element for each key holds: people and text fields carry the
   * string in their namespace (`cp` or `dc`); keywords carry a string as it
   * is and a sequence joined with commas, which splits back into the same
   * keywords when none holds a comma; a date carries
   * `xsi:type="dcterms:W3CDTF"` and a text that reads back as the date to
   * the second.
   */
  lemma PropertyContents(key: string, v: MetaValue)
    requires key in CORE_KEYS && WellTyped(key, v)
    ensures var e := Property(key, v).value;
      e.children == [] &&
      (key in PERSON_KEYS ==> e.ns == CP && e.attrs == [] && e.text == v.s) &&
      (key in TEXT_KEYS ==> e.ns == DC && e.attrs == [] && e.text == v.s) &&
      (key == "keywords" ==> e.ns == CP && e.attrs == [] && e.text == (if v.Text? then v.s else Join(v.items))) &&
      (key in DATE_KEYS ==>
         e.ns == DCTERMS && e.attrs == [(Clark(XSI, "type"), W3CDTF)] &&
         |e.text| == 20 && ParseStamp(e.text) == Some(v.d.(microsecond := 0)))
    ensures key == "keywords" && v.TextList? && |v.items| > 0 && (forall i :: 0 <= i < |v.items| ==> ',' !in v.items[i]) ==>
      Split(Property(key, v).value.text) == v.items
  {
    if key in DATE_KEYS {
      FormatThenParse(v.d);
    }
    if key == "keywords" && v.TextList? && |v.items| > 0 && (forall i :: 0 <= i < |v.items| ==> ',' !in v.items[i]) {
      SplitJoin(v.items);
    }
  }

  /**
   * Building the children succeeds exactly when every recognised key
   * present has a value of an accepted type; then there is one child per
   * present key, in the order of `keys`, each the element for that key.
   */
  lemma {:induction false} PropertiesOrder(meta: Meta, keys: seq<string>)
    requires forall k :: k in keys ==> k in CORE_KEYS
    ensures Properties(meta, keys).Some? <==>
      forall i :: 0 <= i < |keys| && keys[i] in meta ==> WellTyped(keys[i], meta[keys[i]])
    ensures Properties(meta, keys).Some? ==>
      var ks, es := Present(meta, keys), Properties(meta, keys).value;
      |es| == |ks| && forall i :: 0 <= i < |ks| ==> ks[i] in meta && Some(es[i]) == Property(ks[i], meta[ks[i]])
  {
    if keys != [] {
      var init := keys[..|keys| - 1];
      var k := keys[|keys| - 1];
      assert forall k' :: k' in init ==> k' in keys;
      PropertiesOrder(meta, init);
      assert forall i :: 0 <= i < |init| ==> init[i] == keys[i];
    }
  }

  predicate Distinct(xs: seq<string>) {
    forall i, j :: 0 <= i < j < |xs| ==> xs[i] != xs[j]
  }

  lemma CoreKeysDistinct()
    ensures Distinct(CORE_KEYS)
  {
  }

  lemma {:induction false} PresentDistinct(meta: Meta, keys: seq<string>)
    requires Distinct(keys)
    ensures Distinct(Present(meta, keys))
  {
    if keys != [] {
      var init := keys[..|keys| - 1];
      PresentDistinct(meta, init);
      var k := keys[|keys| - 1];
      assert k !in init;
    }
  }

  /** `core.find(tag)`: the first child with the given local name. */
  function FindChild(es: seq<Element>, local: string): (r: Option<Element>)
    ensures r.Some? ==> r.value in es && r.value.local == local
    ensures r.None? <==> forall i :: 0 <= i < |es| ==> es[i].local != local
  {
    if es == [] then None
    else if es[0].local == local then Some(es[0])
    else FindChild(es[1..], local)
  }

  lemma {:induction false} FindChildAt(es: seq<Element>, i: nat, local: string)
    requires i < |es| && es[i].local == local
    requires forall j :: 0 <= j < |es| && j != i ==> es[j].local != local
    ensures FindChild(es, local) == Some(es[i])
  {
    if i > 0 {
      FindChildAt(es[1..], i - 1, local);
    }
  }

  /**
   * get_core_props succeeds exactly when every recognised key present in
   * the map holds a value of an accepted type.
   */
  lemma CorePropertiesOk(meta: Meta)
    ensures CoreProperties(meta).Some? <==>
      forall k :: k in CORE_KEYS && k in meta ==> WellTyped(k, meta[k])
  {
    PropertiesOrder(meta, CORE_KEYS);
  }

  /**
   * The root is `cp:coreProperties`; its children are the elements of the
   * present recognised keys, one each, in the fixed order of those keys.
   */
  lemma CorePropertiesChildren(meta: Meta)
    requires CoreProperties(meta).Some?
    ensures var core := CoreProperties(meta).value;
      var ks := Present(meta, CORE_KEYS);
      core.ns == CP && core.local == "coreProperties" && core.attrs == [] &&
      |core.children| == |ks| &&
      forall i :: 0 <= i < |ks| ==> Some(core.children[i]) == Property(ks[i], meta[ks[i]])
  {
    PropertiesOrder(meta, CORE_KEYS);
  }

  /**
   * For each recognised key, the child found under its name is the element
   * for the key's value when the key is present, and there is none when it
   * is absent.
   */
  lemma CorePropertiesFind(meta: Meta)
    requires CoreProperties(meta).Some?
    ensures forall k :: k in CORE_KEYS ==>
      FindChild(CoreProperties(meta).value.children, k) == if k in meta then Property(k, meta[k]) else None
  {
    var es := CoreProperties(meta).value.children;
    var ks := Present(meta, CORE_KEYS);
    CorePropertiesChildren(meta);
    CoreKeysDistinct();
    PresentDistinct(meta, CORE_KEYS);
    assert forall i :: 0 <= i < |ks| ==> es[i].local == ks[i];
    forall k | k in CORE_KEYS
      ensures FindChild(es, k) == if k in meta then Property(k, meta[k]) else None
    {
      if k in meta {
        var i :| 0 <= i < |ks| && ks[i] == k;
        FindChildAt(es, i, k);
      }
    }
  }

  lemma {:induction false} PropertiesIgnore(meta: Meta, keys: seq<string>, k: string, v: MetaValue)
    requires forall k' :: k' in keys ==> k' in CORE_KEYS
    requires k !in CORE_KEYS
    ensures Properties(meta[k := v], keys) == Properties(meta, keys)
  {
    if keys != [] {
      var init := keys[..|keys| - 1];
      assert forall k' :: k' in init ==> k' in keys;
      PropertiesIgnore(meta, init, k, v);
    }
  }

  /** A key the source does not recognise changes nothing in the core properties. */
  lemma UnknownKeysIgnored(meta: Meta, k: string, v: MetaValue)
    requires k !in CORE_KEYS
    ensures CoreProperties(meta[k := v]) == CoreProperties(meta)
  {
    PropertiesIgnore(meta, CORE_KEYS, k, v);
  }
}
