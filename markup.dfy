/**
 * The markup builders of docxgen: runs, paragraphs, list items, the heading
 * partials, runs of spaces and page breaks. Each returns a fresh element
 * tree; where the source accepts either a pre-built element or a plain
 * value, the argument is a sum type.
 */
module Markup {
  import opened Wrappers
  import opened Namespaces
  import opened Tree

  /** The content of a run: a plain string, or an element the caller built. */
  datatype RunText = Raw(s: string) | Built(e: Element)

  /**
   * The style of a run: none, a pre-built `rPr` element, or style codes,
   * each of which names an empty toggle element (`b`, `i`, `u`, ...).
   */
  datatype RunStyle = NoStyle | RunProps(rPr: Element) | Codes(names: seq<string>)

  /** A style string is iterated character by character: `"bi"` is the codes `b`, `i`. */
  function StyleString(s: string): (r: RunStyle)
    ensures r.Codes? && |r.names| == |s|
    ensures forall i :: 0 <= i < |s| ==> r.names[i] == [s[i]]
  {
    Codes(seq(|s|, i requires 0 <= i < |s| => [s[i]]))
  }

  /** A code the factory turns into a WordprocessingML element name. */
  predicate ValidCode(c: string) {
    |c| > 0 && c[0] != '{'
  }

  /** What `run` accepts as a style: its docstring demands an `rPr` element or codes. */
  predicate ValidRunStyle(style: RunStyle) {
    match style
    case NoStyle => true
    case RunProps(e) => IsW(e, "rPr")
    case Codes(cs) => forall i :: 0 <= i < |cs| ==> ValidCode(cs[i])
  }

  /** The empty toggle elements `E(c)` for each code, in order. */
  function Toggles(cs: seq<string>): (r: seq<Element>)
    ensures |r| == |cs|
    ensures forall i :: 0 <= i < |cs| ==> r[i] == Node(cs[i], [])
  {
    if cs == [] then [] else [Node(cs[0], [])] + Toggles(cs[1..])
  }

  /** The `rPr` child that `run` emits for a style, if any. */
  function RunPropsOf(style: RunStyle): seq<Element> {
    match style
    case NoStyle => []
    case RunProps(e) => [e]
    case Codes(cs) => [Node("rPr", Toggles(cs))]
  }

  /**
   * The content child of a run: a pre-built `t` or `br` is attached as it
   * is; a string, or any other element, is wrapped in a fresh `t`.
   */
  function Content(text: RunText): (c: Element)
    ensures IsW(c, "t") || IsW(c, "br")
    ensures text.Raw? ==> c == Element(W, "t", [], text.s, [])
    ensures text.Built? && (IsW(text.e, "t") || IsW(text.e, "br")) ==> c == text.e
    ensures text.Built? && !(IsW(text.e, "t") || IsW(text.e, "br")) ==> c == Node("t", [text.e])
  {
    match text
    case Raw(s) => Element(W, "t", [], s, [])
    case Built(e) => if IsW(e, "t") || IsW(e, "br") then e else Node("t", [e])
  }

  /**
   * run: an `r` element holding the style's `rPr` (if any) and then exactly
   * one content element.
   */
  function Run(text: RunText, style: RunStyle): (r: Element)
    requires ValidRunStyle(style)
    ensures IsW(r, "r") && r.attrs == [] && r.text == ""
    ensures |r.children| == if style.NoStyle? then 1 else 2
    ensures r.children[|r.children| - 1] == Content(text)
    ensures style.RunProps? ==> r.children[0] == style.rPr
    ensures style.Codes? ==>
      IsW(r.children[0], "rPr") && |r.children[0].children| == |style.names| &&
      forall i :: 0 <= i < |style.names| ==> r.children[0].children[i] == Node(style.names[i], [])
  {
    Node("r", RunPropsOf(style) + [Content(text)])
  }

  lemma {:induction false} TogglesTags(cs: seq<string>)
    ensures TagsOf(Toggles(cs)) == cs
  {
    if cs != [] {
      assert Toggles(cs)[1..] == Toggles(cs[1..]);
      TagsOfLeaf(Node(cs[0], []));
      TogglesTags(cs[1..]);
    }
  }

  /**
   * The tag sequence of a run of text: `r, t` without a style, and
   * `r, rPr, <codes in order>, t` with style codes.
   */
  lemma RunTags(s: string, style: RunStyle)
    requires style.NoStyle? || (style.Codes? && ValidRunStyle(style))
    ensures style.NoStyle? ==> Tags(Run(Raw(s), style)) == ["r", "t"]
    ensures style.Codes? ==> Tags(Run(Raw(s), style)) == ["r", "rPr"] + style.names + ["t"]
  {
    var t := Content(Raw(s));
    TagsOfLeaf(t);
    TagsOfOne(t);
    assert RunPropsOf(NoStyle) + [t] == [t];
    if style.Codes? {
      var props := Node("rPr", Toggles(style.names));
      TogglesTags(style.names);
      TagsOfTwo(props, t);
    }
  }

  /** The style of a paragraph: none, a pre-built `pPr` element, or a style name. */
  datatype ParaStyle = NoParaStyle | ParaProps(pPr: Element) | Named(name: string)

  /** What `paragraph` accepts as a style: its docstring demands a `pPr` element or a name. */
  predicate ValidParaStyle(style: ParaStyle) {
    style.ParaProps? ==> IsW(style.pPr, "pPr")
  }

  /** The `pPr` child that `paragraph` emits for a style, if any. */
  function ParaPropsOf(style: ParaStyle): seq<Element> {
    match style
    case NoParaStyle => []
    case ParaProps(e) => [e]
    case Named(n) => [Node("pPr", [Val("pStyle", n)])]
  }

  /**
   * The paragraph style a reader finds: the `w:val` of the `pStyle` that
   * opens the `pPr` that opens the paragraph.
   */
  function StyleName(p: Element): Option<string> {
    if |p.children| > 0 && IsW(p.children[0], "pPr") && |p.children[0].children| > 0
       && IsW(p.children[0].children[0], "pStyle")
    then WAttr(p.children[0].children[0], "val")
    else None
  }

  /**
   * paragraph: a `p` element holding the style's `pPr` (if any) followed by
   * every run, in order and unchanged.
   */
  function Paragraph(runs: seq<Element>, style: ParaStyle): (r: Element)
    requires ValidParaStyle(style)
    ensures IsW(r, "p") && r.attrs == [] && r.text == ""
    ensures |r.children| == |runs| + (if style.NoParaStyle? then 0 else 1)
    ensures r.children[|r.children| - |runs|..] == runs
    ensures style.ParaProps? ==> r.children[0] == style.pPr
    ensures style.Named? ==>
      StyleName(r) == Some(style.name) && r.children[0] == Node("pPr", [Val("pStyle", style.name)])
  {
    var r := Node("p", ParaPropsOf(style) + runs);
    assert r.children[|r.children| - |runs|..] == runs;
    r
  }

  /** The tag sequence of a named-style paragraph: `p, pPr, pStyle`, then the runs' own. */
  lemma ParagraphTags(runs: seq<Element>, name: string)
    ensures Tags(Paragraph(runs, Named(name))) == ["p", "pPr", "pStyle"] + TagsOf(runs)
  {
    var props := Node("pPr", [Val("pStyle", name)]);
    TagsOfLeaf(Val("pStyle", name));
    TagsOfOne(Val("pStyle", name));
    TagsOfConcat([props], runs);
    TagsOfOne(props);
  }

  /**
   * The heading partials: `paragraph` with the style name fixed. Each gives
   * a `p` whose `pPr` holds exactly the style's `pStyle`, then the runs
   * unchanged; its tags are `p, pPr, pStyle` followed by the runs' own.
   */
  function Title(runs: seq<Element>): (r: Element)
    ensures IsW(r, "p") && |r.children| == |runs| + 1 && r.children[1..] == runs
    ensures r.children[0] == Node("pPr", [Val("pStyle", "Title")]) && StyleName(r) == Some("Title")
    ensures Tags(r) == ["p", "pPr", "pStyle"] + TagsOf(runs)
  {
    ParagraphTags(runs, "Title");
    Paragraph(runs, Named("Title"))
  }

  function Subtitle(runs: seq<Element>): (r: Element)
    ensures IsW(r, "p") && |r.children| == |runs| + 1 && r.children[1..] == runs
    ensures r.children[0] == Node("pPr", [Val("pStyle", "Subtitle")]) && StyleName(r) == Some("Subtitle")
    ensures Tags(r) == ["p", "pPr", "pStyle"] + TagsOf(runs)
  {
    ParagraphTags(runs, "Subtitle");
    Paragraph(runs, Named("Subtitle"))
  }

  function H1(runs: seq<Element>): (r: Element)
    ensures IsW(r, "p") && |r.children| == |runs| + 1 && r.children[1..] == runs
    ensures r.children[0] == Node("pPr", [Val("pStyle", "Heading1")]) && StyleName(r) == Some("Heading1")
    ensures Tags(r) == ["p", "pPr", "pStyle"] + TagsOf(runs)
  {
    ParagraphTags(runs, "Heading1");
    Paragraph(runs, Named("Heading1"))
  }

  function H2(runs: seq<Element>): (r: Element)
    ensures IsW(r, "p") && |r.children| == |runs| + 1 && r.children[1..] == runs
    ensures r.children[0] == Node("pPr", [Val("pStyle", "Heading2")]) && StyleName(r) == Some("Heading2")
    ensures Tags(r) == ["p", "pPr", "pStyle"] + TagsOf(runs)
  {
    ParagraphTags(runs, "Heading2");
    Paragraph(runs, Named("Heading2"))
  }

  function H3(runs: seq<Element>): (r: Element)
    ensures IsW(r, "p") && |r.children| == |runs| + 1 && r.children[1..] == runs
    ensures r.children[0] == Node("pPr", [Val("pStyle", "Heading3")]) && StyleName(r) == Some("Heading3")
    ensures Tags(r) == ["p", "pPr", "pStyle"] + TagsOf(runs)
  {
    ParagraphTags(runs, "Heading3");
    Paragraph(runs, Named("Heading3"))
  }

  /**
   * The list styles and the numbering definitions they select in the
   * bundled `word/numbering.xml` template.
   */
  const LISTMAP: map<string, string> := map["circle" := "1", "number" := "2", "disc" := "3", "square" := "4"]

  /**
   * The numbering a reader finds on a paragraph: the `w:val` of `ilvl` and
   * of `numId` inside the `numPr` that follows `pStyle` in the `pPr`.
   */
  function Numbering(p: Element): Option<(string, string)> {
    if |p.children| > 0 && IsW(p.children[0], "pPr") && |p.children[0].children| > 1 then
      var numPr := p.children[0].children[1];
      if IsW(numPr, "numPr") && |numPr.children| == 2 && IsW(numPr.children[0], "ilvl")
         && IsW(numPr.children[1], "numId")
         && WAttr(numPr.children[0], "val").Some? && WAttr(numPr.children[1], "val").Some?
      then Some((WAttr(numPr.children[0], "val").value, WAttr(numPr.children[1], "val").value))
      else None
    else None
  }

  /**
   * li: a `ListParagraph` paragraph whose numbering is level 0 of the
   * definition the list style selects; the runs follow unchanged. A style
   * outside the four list styles fails the source's assertion.
   */
  function ListItem(runs: seq<Element>, style: string): (r: Element)
    requires style in LISTMAP
    ensures IsW(r, "p") && |r.children| == |runs| + 1 && r.children[1..] == runs
    ensures StyleName(r) == Some("ListParagraph")
    ensures Numbering(r) == Some(("0", LISTMAP[style]))
    ensures Tags(r) == ["p", "pPr", "pStyle", "numPr", "ilvl", "numId"] + TagsOf(runs)
  {
    var numPr := Node("numPr", [Val("ilvl", "0"), Val("numId", LISTMAP[style])]);
    var pPr := Node("pPr", [Val("pStyle", "ListParagraph"), numPr]);
    var r := Paragraph(runs, ParaProps(pPr));
    TagsOfLeaf(Val("ilvl", "0"));
    TagsOfLeaf(Val("numId", LISTMAP[style]));
    TagsOfLeaf(Val("pStyle", "ListParagraph"));
    TagsOfTwo(Val("ilvl", "0"), Val("numId", LISTMAP[style]));
    TagsOfTwo(Val("pStyle", "ListParagraph"), numPr);
    TagsOfConcat([pPr], runs);
    TagsOfOne(pPr);
    r
  }

  /** `' ' * count`: Python yields the empty string for a count below one. */
  function Blanks(count: int): (s: string)
    ensures |s| == if count < 0 then 0 else count
    ensures forall i :: 0 <= i < |s| ==> s[i] == ' '
  {
    if count <= 0 then "" else Blanks(count - 1) + " "
  }

  /**
   * spaces: a run whose only child is a `t` holding `count` spaces (one by
   * default) and marked `xml:space="preserve"`.
   */
  function Spaces(count: int := 1): (r: Element)
    ensures IsW(r, "r") && |r.children| == 1 && Tags(r) == ["r", "t"]
    ensures IsW(r.children[0], "t") && r.children[0].children == []
    ensures |r.children[0].text| == (if count < 0 then 0 else count)
    ensures forall i :: 0 <= i < |r.children[0].text| ==> r.children[0].text[i] == ' '
    ensures Lookup(r.children[0].attrs, Clark(XML, "space")) == Some("preserve")
  {
    var t := Element(W, "t", [], Blanks(count), []);
    var t' := t.(attrs := SetAttr(t.attrs, Clark(XML, "space"), "preserve"));
    var r := Run(Built(t'), NoStyle);
    TagsOfLeaf(t');
    TagsOfOne(t');
    assert RunPropsOf(NoStyle) + [Content(Built(t'))] == [t'];
    r
  }

  /** `E.br(type='page')`. */
  function PageBreakMark(): Element {
    Element(W, "br", [(Clark(W, "type"), "page")], "", [])
  }

  lemma PageBreakMarkIsMade()
    ensures PageBreakMark() == Make("br", [("type", "page")], "", [])
  {
    var items := [("type", "page")];
    var e := Node("br", []);
    assert items[..0] == [];
    assert WithAttrs(e, items[..0]) == e;
    assert QualifyKey(e, "type") == Clark(W, "type");
  }

  /** pagebreak: a paragraph whose single run holds a `br` of type `page`. */
  function Pagebreak(): (r: Element)
    ensures Tags(r) == ["p", "r", "br"]
    ensures IsW(r, "p") && |r.children| == 1 && IsW(r.children[0], "r") && |r.children[0].children| == 1
    ensures IsW(r.children[0].children[0], "br") && WAttr(r.children[0].children[0], "type") == Some("page")
  {
    var br := PageBreakMark();
    var run := Run(Built(br), NoStyle);
    var r := Paragraph([run], NoParaStyle);
    TagsOfLeaf(br);
    TagsOfOne(br);
    TagsOfOne(run);
    assert RunPropsOf(NoStyle) + [Content(Built(br))] == [br];
    assert ParaPropsOf(NoParaStyle) + [run] == [run];
    r
  }
}
