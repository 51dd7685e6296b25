/**
 * The namespace registry of docxgen: a fixed map from short prefixes to the
 * OOXML namespace URIs, and the resolution of a prefix (or a URI) plus a local
 * name into a qualified name written in Clark notation, `{uri}local`.
 */
module Namespaces {
  import opened Wrappers

  /** Hosts shared by most of the registry's URIs. */
  const OPENXML := "http://schemas.openxmlformats.org/"
  const MSOFFICE := "http://schemas.microsoft.com/office/"
  const MSURN := "urn:schemas-microsoft-com:"

  const W := OPENXML + "wordprocessingml/2006/main"
  const CP := OPENXML + "package/2006/metadata/" + "core-properties"
  const DC := "http://purl.org/dc/elements/1.1/"
  const DCTERMS := "http://purl.org/dc/terms/"
  const XSI := "http://www.w3.org/2001/" + "XMLSchema-instance"
  /** The reserved `xml` namespace; lxml knows it without a registry entry. */
  const XML := "http://www.w3.org/XML/1998/namespace"

  /** The registry, prefix to URI. */
  const NSMAP: map<string, string> := map[
    "mo" := MSOFFICE + "mac/office/2008/main",
    "o" := MSURN + "office:office",
    "ve" := OPENXML + "markup-compatibility/2006",
    "w" := W,
    "w10" := MSURN + "office:word",
    "wne" := MSOFFICE + "word/2006/wordml",
    "a" := OPENXML + "drawingml/2006/main",
    "m" := OPENXML + "officeDocument/2006/math",
    "mv" := MSURN + "mac:vml",
    "pic" := OPENXML + "drawingml/2006/picture",
    "v" := MSURN + "vml",
    "wp" := OPENXML + "drawingml/2006/" + "wordprocessingDrawing",
    "cp" := CP,
    "dc" := DC,
    "ep" := OPENXML + "officeDocument/2006/" + "extended-properties",
    "xsi" := XSI,
    "ct" := OPENXML + "package/2006/content-types",
    "r" := OPENXML + "officeDocument/2006/" + "relationships",
    "pr" := OPENXML + "package/2006/relationships",
    "dcmitype" := "http://purl.org/dc/dcmitype/",
    "dcterms" := DCTERMS
  ]

  /** A URI the registry knows. */
  predicate Known(uri: string) {
    uri in NSMAP.Values
  }

  /** A string in which a closing brace cannot end the namespace part early. */
  predicate NoBrace(s: string) {
    forall i :: 0 <= i < |s| ==> s[i] != '}'
  }

  /** Clark notation: `{uri}local`. */
  function Clark(uri: string, local: string): string {
    "{" + uri + "}" + local
  }

  /** Index of the first `}` in `s`, or `|s|` when there is none. */
  function FindBrace(s: string): (i: nat)
    ensures i <= |s|
    ensures i < |s| ==> s[i] == '}'
    ensures forall j :: 0 <= j < i ==> s[j] != '}'
  {
    if s == [] then 0 else if s[0] == '}' then 0 else 1 + FindBrace(s[1..])
  }

  /** Splits a Clark-notation name back into its namespace URI and local name. */
  function SplitClark(s: string): (r: Option<(string, string)>)
    ensures r.Some? ==> NoBrace(r.value.0) && s == Clark(r.value.0, r.value.1)
  {
    if |s| > 0 && s[0] == '{' then
      var i := FindBrace(s[1..]);
      if i < |s| - 1 then
        assert s == "{" + s[1..1 + i] + "}" + s[2 + i..];
        Some((s[1..1 + i], s[2 + i..]))
      else None
    else None
  }

  lemma {:induction false} FindBraceAfter(u: string, rest: string)
    requires NoBrace(u)
    ensures FindBrace(u + "}" + rest) == |u|
  {
    if u != [] {
      assert (u + "}" + rest)[1..] == u[1..] + "}" + rest;
      FindBraceAfter(u[1..], rest);
    }
  }

  /** SplitClark inverts Clark whenever the URI holds no brace. */
  lemma {:induction false} SplitClarkInverts(uri: string, local: string)
    requires NoBrace(uri)
    ensures SplitClark(Clark(uri, local)) == Some((uri, local))
  {
    var s := Clark(uri, local);
    assert s[1..] == uri + "}" + local;
    FindBraceAfter(uri, local);
    assert s[1..1 + |uri|] == uri;
    assert s[2 + |uri|..] == local;
  }

  /** Two qualified names are equal exactly when both URI and local name are. */
  lemma ClarkInjective(u1: string, n1: string, u2: string, n2: string)
    requires NoBrace(u1) && NoBrace(u2)
    ensures Clark(u1, n1) == Clark(u2, n2) <==> u1 == u2 && n1 == n2
  {
    SplitClarkInverts(u1, n1);
    SplitClarkInverts(u2, n2);
  }

  lemma NoBraceConcat(a: string, b: string)
    requires NoBrace(a) && NoBrace(b)
    ensures NoBrace(a + b)
  {
  }

  lemma HostsHaveNoBraces()
    ensures NoBrace(OPENXML) && NoBrace(MSOFFICE) && NoBrace(MSURN)
  {
  }

  lemma MicrosoftUrisHaveNoBraces()
    ensures forall p | p in {"mo", "wne", "o", "w10", "mv", "v"} :: NoBrace(NSMAP[p])
  {
    HostsHaveNoBraces();
    NoBraceConcat(MSOFFICE, "mac/office/2008/main");
    NoBraceConcat(MSOFFICE, "word/2006/wordml");
    NoBraceConcat(MSURN, "office:office");
    NoBraceConcat(MSURN, "office:word");
    NoBraceConcat(MSURN, "mac:vml");
    NoBraceConcat(MSURN, "vml");
  }

  lemma DrawingUrisHaveNoBraces()
    ensures forall p | p in {"w", "ve", "a", "m", "pic", "wp"} :: NoBrace(NSMAP[p])
  {
    HostsHaveNoBraces();
    NoBraceConcat(OPENXML, "wordprocessingml/2006/main");
    NoBraceConcat(OPENXML, "markup-compatibility/2006");
    NoBraceConcat(OPENXML, "drawingml/2006/main");
    NoBraceConcat(OPENXML, "officeDocument/2006/math");
    NoBraceConcat(OPENXML, "drawingml/2006/picture");
    NoBraceConcat(OPENXML, "drawingml/2006/");
    NoBraceConcat(OPENXML + "drawingml/2006/", "wordprocessingDrawing");
  }

  lemma PackageUrisHaveNoBraces()
    ensures forall p | p in {"cp", "ep", "ct", "r", "pr"} :: NoBrace(NSMAP[p])
  {
    HostsHaveNoBraces();
    NoBraceConcat(OPENXML, "package/2006/metadata/");
    NoBraceConcat(OPENXML + "package/2006/metadata/", "core-properties");
    NoBraceConcat(OPENXML, "officeDocument/2006/");
    NoBraceConcat(OPENXML + "officeDocument/2006/", "extended-properties");
    NoBraceConcat(OPENXML + "officeDocument/2006/", "relationships");
    NoBraceConcat(OPENXML, "package/2006/content-types");
    NoBraceConcat(OPENXML, "package/2006/relationships");
  }

  lemma DublinCoreUrisHaveNoBraces()
    ensures forall p | p in {"dc", "dcterms", "dcmitype", "xsi"} :: NoBrace(NSMAP[p])
  {
    NoBraceConcat("http://www.w3.org/2001/", "XMLSchema-instance");
  }

  /** No URI of the registry holds a `}`, so Clark names over them split back uniquely. */
  lemma RegistryHasNoBraces()
    ensures forall p | p in NSMAP :: NoBrace(NSMAP[p])
  {
    MicrosoftUrisHaveNoBraces();
    DrawingUrisHaveNoBraces();
    PackageUrisHaveNoBraces();
    DublinCoreUrisHaveNoBraces();
  }

  /**
   * `nsmap.get(namespace, namespace)`: a registered prefix becomes its URI
   * and anything else passes through, so the result is a registered URI
   * exactly when the argument was a registered prefix or URI.
   */
  function Resolve(p: string): (r: string)
    ensures Known(r) <==> p in NSMAP || Known(p)
    ensures Known(p) ==> r == p
  {
    if p in NSMAP then NSMAP[p] else p
  }

  /**
   * qname: resolve a prefix (or accept a URI as it is) and build `{uri}name`;
   * None stands for the failed assertion on an unknown namespace.
   */
  function QName(p: string, name: string): (r: Option<string>)
    ensures r.Some? <==> p in NSMAP || Known(p)
    ensures r.Some? ==> Known(Resolve(p)) && SplitClark(r.value) == Some((Resolve(p), name))
  {
    var uri := Resolve(p);
    if Known(uri) then
      RegistryHasNoBraces();
      SplitClarkInverts(uri, name);
      Some(Clark(uri, name))
    else None
  }

  /** For a registered prefix, the URI the registry gives; for a registered URI, that URI. */
  lemma QNameCases(p: string, name: string)
    ensures p in NSMAP ==> QName(p, name) == Some(Clark(NSMAP[p], name))
    ensures Known(p) ==> QName(p, name) == Some(Clark(p, name))
    ensures p !in NSMAP && !Known(p) ==> QName(p, name) == None
  {
    if Known(p) {
      assert p !in NSMAP;
    }
  }
}
