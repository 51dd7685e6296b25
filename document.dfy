/**
 * The `Document` of docxgen: a root `document` tree and a metadata map,
 * updated in place, and the parts `save` writes into the package.
 */
module Docx {
  import opened Wrappers
  import opened Namespaces
  import opened Tree
  import opened CoreProps

  /** The tree of a new document: `document > body`. */
  function DefaultDoc(): (d: Element)
    ensures IsW(d, "document") && |d.children| == 1 && IsW(d.children[0], "body")
    ensures Tags(d) == ["document", "body"]
  {
    var body := Node("body", []);
    TagsOfLeaf(body);
    TagsOfOne(body);
    Node("document", [body])
  }

  /** The eleven parts copied from the bundled templates, in the order they are written. */
  const STATIC_PARTS: seq<string> := [
    "[Content_Types].xml", "_rels/.rels", "docProps/app.xml",
    "word/fontTable.xml", "word/numbering.xml", "word/settings.xml",
    "word/styles.xml", "word/stylesWithEffects.xml",
    "word/webSettings.xml", "word/theme/theme1.xml",
    "word/_rels/document.xml.rels"
  ]

  const DOCUMENT_PART := "word/document.xml"
  const CORE_PART := "docProps/core.xml"

  /** What a package entry holds: template bytes, the document tree or the core properties. */
  datatype Payload = Template(path: string) | DocumentXml(root: Element) | CoreXml(props: Element)

  datatype Part = Part(name: string, payload: Payload)

  /**
   * The entries `save` writes, in order, for a document tree and the outcome
   * of get_core_props: the templates, the document, then the core properties;
   * when get_core_props raises, writing stops before its entry.
   */
  function SavedParts(doc: Element, core: Option<Element>): (r: seq<Part>)
    ensures |r| == |STATIC_PARTS| + (if core.Some? then 2 else 1)
    ensures r[|STATIC_PARTS|] == Part(DOCUMENT_PART, DocumentXml(doc))
    ensures core.Some? ==> r[|r| - 1] == Part(CORE_PART, CoreXml(core.value))
    ensures forall i :: 0 <= i < |STATIC_PARTS| ==> r[i].name == STATIC_PARTS[i]
  {
    TemplateParts(STATIC_PARTS) + [Part(DOCUMENT_PART, DocumentXml(doc))] +
    (if core.Some? then [Part(CORE_PART, CoreXml(core.value))] else [])
  }

  function TemplateParts(names: seq<string>): (r: seq<Part>)
    ensures |r| == |names|
    ensures forall i :: 0 <= i < |names| ==> r[i] == Part(names[i], Template("templates/" + names[i]))
  {
    if names == [] then [] else TemplateParts(names[..|names| - 1]) + [Part(names[|names| - 1], Template("templates/" + names[|names| - 1]))]
  }

  function Names(parts: seq<Part>): (r: seq<string>)
    ensures |r| == |parts|
    ensures forall i :: 0 <= i < |parts| ==> r[i] == parts[i].name
  {
    if parts == [] then [] else Names(parts[..|parts| - 1]) + [parts[|parts| - 1].name]
  }

  /** The thirteen entry names of a complete package. */
  const PACKAGE_NAMES: set<string> := {
    "[Content_Types].xml", "_rels/.rels", "docProps/app.xml",
    "word/fontTable.xml", "word/numbering.xml", "word/settings.xml",
    "word/styles.xml", "word/stylesWithEffects.xml",
    "word/webSettings.xml", "word/theme/theme1.xml",
    "word/_rels/document.xml.rels", "word/document.xml",
    "docProps/core.xml"
  }

  lemma StaticPartsDistinct()
    ensures Distinct(STATIC_PARTS + [DOCUMENT_PART, CORE_PART])
  {
  }

  /**
   * A successful save writes thirteen entries under thirteen distinct
   * names, exactly the names of a complete package, whatever the document
   * holds; each template once, under its own name, then the document tree,
   * then the core properties.
   */
  lemma SavedPartsComplete(doc: Element, core: Element)
    ensures var ns := Names(SavedParts(doc, Some(core)));
      ns == STATIC_PARTS + [DOCUMENT_PART, CORE_PART] &&
      |ns| == 13 && Distinct(ns) &&
      (forall x :: x in PACKAGE_NAMES <==> x in ns)
    ensures var ps := SavedParts(doc, Some(core));
      ps[11] == Part(DOCUMENT_PART, DocumentXml(doc)) && ps[12] == Part(CORE_PART, CoreXml(core)) &&
      forall i :: 0 <= i < 11 ==> ps[i].payload == Template("templates/" + ps[i].name)
  {
    var ps := SavedParts(doc, Some(core));
    var ns := Names(ps);
    assert ns == STATIC_PARTS + [DOCUMENT_PART, CORE_PART];
    StaticPartsDistinct();
    assert forall x :: x in PACKAGE_NAMES <==> x in ns;
  }

  /** A save whose core properties raise leaves the package without its core-properties entry. */
  lemma SavedPartsFailed(doc: Element)
    ensures Names(SavedParts(doc, None)) == STATIC_PARTS + [DOCUMENT_PART]
    ensures CORE_PART !in Names(SavedParts(doc, None))
  {
    StaticPartsDistinct();
  }

  class Document {
    /** The root element of `word/document.xml`. */
    var doc: Element
    /** The core properties, by name. */
    var meta: Meta

    /** The root holds at least its body. */
    ghost predicate Valid()
      reads this
    {
      |doc.children| > 0
    }

    /**
     * `Document(doc)`: `doc or E.document(E.body())`. An element with no
     * children counts as false in Python, so a missing or childless root is
     * replaced by an empty `document > body`.
     */
    constructor(root: Option<Element>)
      ensures Valid() && meta == map[]
      ensures root.Some? && root.value.children != [] ==> doc == root.value
      ensures root.None? || root.value.children == [] ==>
        doc == DefaultDoc() && Tags(doc) == ["document", "body"] && Tags(Body()) == ["body"]
    {
      if root.Some? && root.value.children != [] {
        doc := root.value;
      } else {
        doc := DefaultDoc();
      }
      meta := map[];
      new;
      if !(root.Some? && root.value.children != []) {
        var body := Node("body", []);
        TagsOfLeaf(body);
        TagsOfOne(body);
      }
    }

    /** The `body` property: the root's first child. */
    function Body(): (b: Element)
      reads this
      requires Valid()
      ensures b in doc.children
    {
      doc.children[0]
    }

    /**
     * `update(m)`: merge `m` into the metadata, the later value winning for
     * a key in both; other keys keep their values and the tree is untouched.
     */
    method Update(m: Meta)
      modifies this
      ensures meta == old(meta) + m && doc == old(doc)
      ensures forall k :: k in meta <==> k in old(meta) || k in m
      ensures forall k :: k in m ==> meta[k] == m[k]
      ensures forall k :: k in old(meta) && k !in m ==> meta[k] == old(meta)[k]
    {
      meta := meta + m;
    }

    /**
     * get_core_props: the two `cp` keys, then the four `dc` keys in a loop,
     * then the two dates in a loop, each appended when present; a value of
     * the wrong type raises, modelled as None.
     */
    method GetCoreProps() returns (core: Option<Element>)
      ensures core == CoreProperties(meta)
    {
      var children: seq<Element> := [];
      PropertiesNone(meta);
      PropertiesNext(meta, 0, children, "lastModifiedBy");
      if "lastModifiedBy" in meta {
        var e := Property("lastModifiedBy", meta["lastModifiedBy"]);
        if e.None? {
          return None;
        }
        children := children + [e.value];
      }
      PropertiesNext(meta, 1, children, "keywords");
      if "keywords" in meta {
        var e := Property("keywords", meta["keywords"]);
        if e.None? {
          return None;
        }
        children := children + [e.value];
      }
      var i := 0;
      while i < |TEXT_KEYS|
        invariant 0 <= i <= |TEXT_KEYS|
        invariant PropertiesUpTo(meta, 2 + i) == Some(children)
      {
        var key := TEXT_KEYS[i];
        PropertiesNext(meta, 2 + i, children, key);
        if key in meta {
          var e := Property(key, meta[key]);
          if e.None? {
            return None;
          }
          children := children + [e.value];
        }
        i := i + 1;
      }
      var j := 0;
      while j < |DATE_KEYS|
        invariant 0 <= j <= |DATE_KEYS|
        invariant PropertiesUpTo(meta, 6 + j) == Some(children)
      {
        var key := DATE_KEYS[j];
        PropertiesNext(meta, 6 + j, children, key);
        if key in meta {
          var e := Property(key, meta[key]);
          if e.None? {
            return None;
          }
          children := children + [e.value];
        }
        j := j + 1;
      }
      PropertiesAll(meta, children);
      core := Some(Element(CP, "coreProperties", [], "", children));
    }

    /**
     * save: write each template part, then the document tree, then the core
     * properties; it reads the document and changes nothing in it. Returns
     * the entries written and whether the save completed.
     */
    method Save() returns (written: seq<Part>, ok: bool)
      ensures ok <==> CoreProperties(meta).Some?
      ensures written == SavedParts(doc, CoreProperties(meta))
    {
      written := [];
      var i := 0;
      while i < |STATIC_PARTS|
        invariant 0 <= i <= |STATIC_PARTS|
        invariant written == TemplateParts(STATIC_PARTS[..i])
      {
        var part := STATIC_PARTS[i];
        assert STATIC_PARTS[..i + 1][..i] == STATIC_PARTS[..i];
        written := written + [Part(part, Template("templates/" + part))];
        i := i + 1;
      }
      assert STATIC_PARTS[..i] == STATIC_PARTS;
      written := written + [Part(DOCUMENT_PART, DocumentXml(doc))];
      var core := GetCoreProps();
      if core.None? {
        return written, false;
      }
      written := written + [Part(CORE_PART, CoreXml(core.value))];
      ok := true;
    }
  }

  /** Properties over a prefix of the recognised keys grows by the next key's element. */
  lemma PropertiesStep(meta: Meta, n: nat)
    requires n < |CORE_KEYS|
    ensures var init, k := Properties(meta, CORE_KEYS[..n]), CORE_KEYS[n];
      Properties(meta, CORE_KEYS[..n + 1]) ==
        if init.None? then None
        else if k !in meta then init
        else if Property(k, meta[k]).None? then None
        else Some(init.value + [Property(k, meta[k]).value])
  {
    assert CORE_KEYS[..n + 1][..n] == CORE_KEYS[..n];
  }

  /** Once a key raises, so does every longer prefix, up to the whole get_core_props. */
  lemma PropertiesFail(meta: Meta, n: nat)
    requires 0 < n <= |CORE_KEYS| && Properties(meta, CORE_KEYS[..n]).None?
    ensures CoreProperties(meta).None?
    decreases |CORE_KEYS| - n
  {
    if n < |CORE_KEYS| {
      PropertiesStep(meta, n);
      PropertiesFail(meta, n + 1);
    } else {
      assert CORE_KEYS[..n] == CORE_KEYS;
    }
  }

  /** The children get_core_props has built once it has handled the first `n` recognised keys. */
  function PropertiesUpTo(meta: Meta, n: nat): Option<seq<Element>>
    requires n <= |CORE_KEYS|
  {
    Properties(meta, CORE_KEYS[..n])
  }

  lemma PropertiesNone(meta: Meta)
    ensures PropertiesUpTo(meta, 0) == Some([])
  {
    assert CORE_KEYS[..0] == [];
  }

  /**
   * One step of get_core_props, at the key in position `n`: an absent key
   * adds nothing, a present one adds its element, and one that raises makes
   * the whole call raise.
   */
  lemma PropertiesNext(meta: Meta, n: nat, children: seq<Element>, key: string)
    requires n < |CORE_KEYS| && PropertiesUpTo(meta, n) == Some(children)
    requires (n == 0 && key == "lastModifiedBy") || (n == 1 && key == "keywords") ||
      (2 <= n < 6 && key == TEXT_KEYS[n - 2]) || (6 <= n && key == DATE_KEYS[n - 6])
    ensures key in CORE_KEYS
    ensures key !in meta ==> PropertiesUpTo(meta, n + 1) == Some(children)
    ensures key in meta && Property(key, meta[key]).Some? ==>
      PropertiesUpTo(meta, n + 1) == Some(children + [Property(key, meta[key]).value])
    ensures key in meta && Property(key, meta[key]).None? ==> CoreProperties(meta).None?
  {
    assert CORE_KEYS[n] == key;
    PropertiesStep(meta, n);
    if key in meta && Property(key, meta[key]).None? {
      PropertiesFail(meta, n + 1);
    }
  }

  lemma PropertiesAll(meta: Meta, children: seq<Element>)
    requires PropertiesUpTo(meta, |CORE_KEYS|) == Some(children)
    ensures CoreProperties(meta) == Some(Element(CP, "coreProperties", [], "", children))
  {
    assert CORE_KEYS[..|CORE_KEYS|] == CORE_KEYS;
  }
}
