# docxgen in Dafny

A model of the core of docxgen, a small Python library that builds
Microsoft Word (WordprocessingML) documents. The library assembles an lxml
element tree through a factory bound to the `w` namespace and packages it
with fixed template parts into a `.docx` archive. The model covers the
following:

- **Namespaces** (`namespaces.dfy`): the prefix-to-URI registry `nsmap`,
  and `qname`, which resolves a prefix (or accepts a registered URI) and
  builds a Clark-notation name `{uri}local`. A parser for Clark names is
  included as the partner of `qname`.
- **Tree** (`tree.dfy`): the element tree, with tag, attributes in order,
  text and children. It also covers the element factory `E` and its
  attribute handler `add_dict`, which appears as a loop over the keyword
  items. The tag sequence in document order is the order that `root.iter()`
  visits.
- **Markup** (`markup.dfy`): the builders `run`, `paragraph`, `li`, the
  heading partials `title`/`subtitle`/`h1`/`h2`/`h3`, `spaces` and
  `pagebreak`. Each is a function returning a fresh tree. Where the source
  accepts either a pre-built element or a plain value, the argument is a
  sum type.
- **Tables** (`table.dfy`): `table`, as a method with the source's two
  nested loops. It is proved equal to a functional definition, and lemmas
  give that definition's shape and the tag sequence of text grids.
- **Timestamps** (`stamps.dfy`): a `datetime` as integer fields. It covers
  the `strftime('%Y-%m-%dT%H:%M:%SZ')` text and a strict reader that
  inverts it to the second.
- **Core properties** (`coreprops.dfy`): `get_core_props` as a projection
  of the metadata map onto a `cp:coreProperties` element. It includes
  `','.join` and its inverse, the split at commas.
- **Document** (`document.dfy`): the class `Document`, which holds the
  root tree and the metadata map. It covers the constructor, `body`,
  `update`, `get_core_props` (as a method with the source's loops) and the
  sequence of entries that `save` writes.

A Python exception (a failed `assert`, a `TypeError` or an
`AttributeError`) is modelled in one of two ways:

- as `None` of an `Option` where the source can raise for a caller's data;
- as a `requires` where the source asserts a precondition, as `li` and
  `table` do.

Non-string attribute values: `add_dict` hands a mapping value to
`typemap[dict](None, v)`, that is to `add_dict` itself with no element.
The call suggests that nested mappings were meant to be flattened, but it
reads `None.attrib` and raises; any other non-string value is a `KeyError`
in `typemap`. The model follows the code: `Tree.AddDict` fails on any
non-string value.

## Model

| member | source | states |
|---|---|---|
| Namespaces.RegistryHasNoBraces | docxgen/__init__.py:23-54 | no URI in the registry contains `}`, so every qualified name built from one splits back uniquely |
| Namespaces.SplitClarkInverts | docxgen/__init__.py:61 | the `{uri}name` text built by qname splits back into the same URI and local name when the URI holds no `}` |
| Namespaces.ClarkInjective | docxgen/__init__.py:61 | two qualified names are equal exactly when their URIs and their local names are equal |
| Namespaces.Resolve | docxgen/__init__.py:59 | the resolved namespace is a registered URI exactly when the argument was a registered prefix or URI; a registered URI passes through |
| Namespaces.QName | docxgen/__init__.py:57-61 | qname succeeds exactly for a registered prefix or a registered URI; its result is a Clark name of a known URI and the given local name |
| Namespaces.QNameCases | docxgen/__init__.py:57-61 | a registered prefix gives `{nsmap[p]}name`; a registered URI gives `{p}name`; anything else fails the assertion |
| Tree.TagTest | docxgen/__init__.py:114-120 | comparing an element's tag with `qname('w', local)` is exactly the test "namespace is `w` and local name is `local`" |
| Tree.Lookup | docxgen/__init__.py:76 | an attribute is found exactly when some entry has that key |
| Tree.SetAttr | docxgen/__init__.py:76 | `attrib[k] = v` makes `k` read `v`, leaves every other key's value as it was, keeps keys unique, and adds an entry only for a new key |
| Tree.QualifyKey | docxgen/__init__.py:69-73 | a key already in Clark notation is kept; an element without a namespace keeps the bare key |
| Tree.QualifyKeySplits | docxgen/__init__.py:69-73 | any other key on a namespaced element becomes a Clark name that splits back into the element's namespace and the key |
| Tree.Strings | docxgen/__init__.py:75-76 | the string items of a mapping keep their keys, values and order |
| Tree.WithAttrs | docxgen/__init__.py:66-79 | storing the items changes only the attributes (not tag, text or children) and keeps attribute keys unique |
| Tree.WithAttrsLookup | docxgen/__init__.py:66-79 | after add_dict, each attribute holds the value of the last item qualifying to its key (last write wins); keys no item names keep their values |
| Tree.AddDict | docxgen/__init__.py:66-79 | the loop succeeds exactly when every value is a string, and then yields the element with every item stored under its qualified key |
| Tree.Make | docxgen/__init__.py:81 | the factory makes a `w` element of the given name with the given text and children, whose attribute keys are unique |
| Tree.ValIsMade | docxgen/__init__.py:145 | the literal `E.x(val=v)` element used by the builders is what the factory with add_dict produces |
| Markup.StyleString | docxgen/__init__.py:117 | a style string is iterated character by character, one code per character in order |
| Markup.Toggles | docxgen/__init__.py:117 | one empty element per style code, in the given order |
| Markup.Content | docxgen/__init__.py:119-123 | a pre-built `t` or `br` is attached unchanged; a string, or any other element, is wrapped in a fresh `t` |
| Markup.Run | docxgen/__init__.py:84-124 | an `r` with exactly one content child last, preceded by nothing without a style, by the given `rPr`, or by an `rPr` of one empty element per code in order |
| Markup.TogglesTags | docxgen/__init__.py:117 | the toggle elements' tags are the codes themselves, in order |
| Markup.RunTags | tests/test_wordml.py:6-15 | a text run's tags are `r, t` without a style and `r, rPr, <codes>, t` with style codes |
| Markup.Paragraph | docxgen/__init__.py:127-149 | a `p` whose children are the optional `pPr` followed by all runs, in order and unchanged; a name gives exactly `pPr > pStyle@val=name` |
| Markup.ParagraphTags | tests/test_wordml.py:32-38 | a named-style paragraph's tags are `p, pPr, pStyle` followed by the runs' tags |
| Markup.Title | docxgen/__init__.py:182 | a `p` whose `pPr` holds exactly `pStyle@val=Title`, then the runs unchanged; tags `p, pPr, pStyle` then the runs' |
| Markup.Subtitle | docxgen/__init__.py:183 | a `p` whose `pPr` holds exactly `pStyle@val=Subtitle`, then the runs unchanged; tags `p, pPr, pStyle` then the runs' |
| Markup.H1 | docxgen/__init__.py:184 | a `p` whose `pPr` holds exactly `pStyle@val=Heading1`, then the runs unchanged; tags `p, pPr, pStyle` then the runs' |
| Markup.H2 | docxgen/__init__.py:185 | a `p` whose `pPr` holds exactly `pStyle@val=Heading2`, then the runs unchanged; tags `p, pPr, pStyle` then the runs' |
| Markup.H3 | docxgen/__init__.py:186 | a `p` whose `pPr` holds exactly `pStyle@val=Heading3`, then the runs unchanged; tags `p, pPr, pStyle` then the runs' |
| Markup.ListItem | docxgen/__init__.py:152-180 | for one of the four list styles: a `ListParagraph` paragraph numbered at level `0` with numId `1`..`4` by style, runs unchanged after the `pPr`, tags `p, pPr, pStyle, numPr, ilvl, numId` then the runs' |
| Markup.Blanks | docxgen/__init__.py:194 | `' ' * count`: `count` spaces, none for a count below one |
| Markup.Spaces | docxgen/__init__.py:189-196 | a run holding one `t` of exactly `count` spaces (one by default) with `xml:space="preserve"`; tags `r, t` |
| Markup.PageBreakMarkIsMade | docxgen/__init__.py:204 | the page break mark is what `E.br(type='page')` produces |
| Markup.Pagebreak | docxgen/__init__.py:199-204 | a `p` holding one `r` holding one `br` whose `w:type` is `page`; tags `p, r, br` |
| Tables.CellPropsWidth | docxgen/__init__.py:246-249 | the cell properties' `tcW` is what `E.tcW(w='0', type='auto')` produces, with `w:w="0"` and `w:type="auto"` |
| Tables.CellOf | docxgen/__init__.py:240-254 | a cell is kept exactly when it is an `r`, a `p` or a `tc`, and then becomes a `tc` |
| Tables.CellWrapping | docxgen/__init__.py:242-254 | a run becomes `tc(tcPr, p(run))`, a paragraph becomes `tc(tcPr, p)` unchanged inside, a `tc` passes through |
| Tables.CellKindTest | docxgen/__init__.py:242-253 | for a cell in a registered namespace, the `qname(cell.prefix, name)` comparison is a test of the local name alone |
| Tables.CellConversion | docxgen/__init__.py:242-254 | the two in-place rewrites of `cell` followed by the `tc` test append exactly CellOf's result |
| Tables.CellsOf | docxgen/__init__.py:240-254 | the cells kept from a row are all `tc` elements, never more than the row had cells |
| Tables.Row | docxgen/__init__.py:235-254 | a `tr` whose first child is the row properties and whose other children are all `tc`, at most one per cell |
| Tables.TableOf | docxgen/__init__.py:219-256 | a `tbl` whose first child is the table properties, followed by as many children as there are input rows |
| Tables.RowsInOrder | docxgen/__init__.py:234-255 | one row per input row, row i built from input row i |
| Tables.RowAppend | docxgen/__init__.py:235-254 | a row starts as `tr(trPr)` and grows by the next cell's `tc`, if it has one |
| Tables.TableAppend | docxgen/__init__.py:222-255 | a table starts as `tbl(tblPr)` and grows by the next row |
| Tables.Table | docxgen/__init__.py:207-256 | the nested loops that append cells to each `tr` and rows to the `tbl` build exactly the functional table |
| Tables.RowCells | docxgen/__init__.py:240-254 | when every cell is an `r`, `p` or `tc`, a row holds exactly one `tc` per cell, in order |
| Tables.TableShape | docxgen/__init__.py:219-256 | the table is `tblPr > tblStyle@val=style` followed by exactly one `tr` per input row, in order |
| Tables.TextRunTags | tests/test_wordml.py:50-60 | a text run's tags are `r, t` |
| Tables.TextCellTags | tests/test_wordml.py:50-60 | a text cell, run or one-run paragraph, yields the tags `tc, tcPr, tcW, p, r, t` |
| Tables.TextRowTags | tests/test_wordml.py:50-60 | a row of text cells yields those six tags once per cell |
| Tables.RowPropsTags | docxgen/__init__.py:235-239 | the row properties' tags are `trPr, cnfStyle` |
| Tables.TableTags | tests/test_wordml.py:50-60 | a rectangular grid of text cells yields `tbl, tblPr, tblStyle`, then per row `tr, trPr, cnfStyle` and six tags per cell |
| Stamps.PadIsDigits | docxgen/__init__.py:323 | a zero-padded field is all decimal digits |
| Stamps.PadValue | docxgen/__init__.py:323 | reading a zero-padded field back gives the number when it fits the width |
| Stamps.LayoutSlices | docxgen/__init__.py:323 | the format puts each field at its fixed offset between the separators `-`, `-`, `T`, `:`, `:`, `Z` |
| Stamps.FormatStamp | docxgen/__init__.py:323 | the W3CDTF text of a timestamp is twenty characters long |
| Stamps.ParseStamp | tests/test_docx.py:71 | the strict reader accepts only a real date and time, with no fraction of a second |
| Stamps.FormatThenParse | tests/test_docx.py:69-71 | a written timestamp reads back as the same date and time truncated to the second |
| Stamps.FormatInjective | docxgen/__init__.py:323 | two timestamps are written identically exactly when they agree to the second |
| Stamps.FormatExample | docxgen/__init__.py:323 | 2020-01-02 03:04:05 is written `2020-01-02T03:04:05Z` |
| CoreProps.Join | docxgen/__init__.py:313 | `','.join`: no pieces give the empty text; otherwise the first piece opens the text and the last one closes it |
| CoreProps.Split | docxgen/__init__.py:313 | splitting at commas always yields at least one piece |
| CoreProps.SplitExtend | docxgen/__init__.py:313 | appending comma-free text extends the last piece |
| CoreProps.SplitJoin | docxgen/__init__.py:313 | the `','.join` of one or more comma-free keywords splits back into the same keywords |
| CoreProps.JoinSplit | docxgen/__init__.py:313 | joining the comma-separated pieces of any text gives the text back |
| CoreProps.Property | docxgen/__init__.py:302-323 | a recognised key yields an element exactly when its value has an accepted type; the element is named by the key and has no children |
| CoreProps.PropertyContents | docxgen/__init__.py:302-323 | `cp`/`dc` text fields carry the string; keywords carry a string verbatim or the list joined with `,`, which splits back; a date carries `xsi:type="dcterms:W3CDTF"` and a 20-character text that reads back as the date to the second |
| CoreProps.Present | docxgen/__init__.py:302-320 | the emitted keys are exactly the recognised keys present in the map |
| CoreProps.Properties | docxgen/__init__.py:302-323 | the children built for a run of keys are never more than the keys |
| CoreProps.PropertiesOrder | docxgen/__init__.py:302-323 | building succeeds exactly when every present recognised key is well typed; then there is one child per present key, in key order, each that key's element |
| CoreProps.CoreKeysDistinct | docxgen/__init__.py:302-320 | the eight recognised keys are distinct |
| CoreProps.PresentDistinct | docxgen/__init__.py:302-320 | no key is emitted twice |
| CoreProps.FindChild | tests/test_docx.py:60-70 | `core.find(tag)` returns a child with that local name, and nothing exactly when no child has it |
| CoreProps.FindChildAt | tests/test_docx.py:60-70 | a child whose local name no other child has is the one found |
| CoreProps.CoreProperties | docxgen/__init__.py:297-324 | get_core_props yields a `cp:coreProperties` root with no attributes and no text, holding at most one child per recognised key |
| CoreProps.CorePropertiesOk | docxgen/__init__.py:297-324 | get_core_props succeeds exactly when every recognised key present in the map holds a value of an accepted type |
| CoreProps.CorePropertiesChildren | docxgen/__init__.py:297-324 | the root is `cp:coreProperties`, holding one child per present recognised key, in the fixed key order, each that key's element |
| CoreProps.CorePropertiesFind | tests/test_docx.py:58-70 | for each recognised key, the child found under its name is the element for the key's value when present and none when absent |
| CoreProps.PropertiesIgnore | docxgen/__init__.py:302-323 | adding a key the source does not recognise changes no emitted child |
| CoreProps.UnknownKeysIgnored | docxgen/__init__.py:297-324 | a key outside the eight recognised ones does not change the core properties |
| Docx.DefaultDoc | docxgen/__init__.py:264-266 | a new document is `document` holding one `body`; tags `document, body` |
| Docx.SavedParts | docxgen/__init__.py:347-364 | the templates under their own names, then `word/document.xml` with the tree, then, when get_core_props succeeds, `docProps/core.xml` with its result |
| Docx.TemplateParts | docxgen/__init__.py:348-351 | one template entry per static name, in order, named as the template it copies |
| Docx.Names | docxgen/__init__.py:347-364 | the names of the written entries, in order |
| Docx.StaticPartsDistinct | docxgen/__init__.py:335-364 | the eleven static names and the two generated ones are distinct |
| Docx.SavedPartsComplete | tests/test_docx.py:14-28 | a successful save writes thirteen distinct names, exactly the package's names whatever the document holds: templates first, then `word/document.xml` with the tree, then `docProps/core.xml` |
| Docx.SavedPartsFailed | docxgen/__init__.py:353-362 | when get_core_props raises, the package has the templates and `word/document.xml` but no `docProps/core.xml` |
| Docx.Document.constructor | docxgen/__init__.py:263-267 | a root with children is kept; a missing or childless one is replaced by `document > body` (tags `document, body`); the metadata starts empty |
| Docx.Document.Body | docxgen/__init__.py:269-274 | the body is a child of the root, its first |
| Docx.Document.Update | docxgen/__init__.py:276-280 | the metadata becomes the old map overridden by the new one (last write wins), other keys unchanged, the tree untouched |
| Docx.Document.GetCoreProps | docxgen/__init__.py:297-324 | the two `cp` steps and the two loops over `dc` and `dcterms` keys compute exactly the core properties of the current metadata |
| Docx.PropertiesNext | docxgen/__init__.py:302-323 | one step of get_core_props adds nothing for an absent key, the key's element for a present one, and raises for a wrongly typed one |
| Docx.PropertiesFail | docxgen/__init__.py:302-323 | once one key raises, the whole call raises |
| Docx.Document.Save | docxgen/__init__.py:326-364 | save writes the templates, the document tree and the core properties, in that order; it completes exactly when get_core_props does; it modifies neither the tree nor the metadata |

## Left out

- ZIP archive writing and reading, deflate compression, the template bytes
  from `resource_string`, and `load`'s XML parsing. Save records which
  entries it writes and what each holds (a template path, the tree or the
  core properties), not the bytes.
- `dumps` and the `tostring` calls of `save` (pretty printing, XML
  declaration, encoding): lxml serialisation is not part of this model.
- The namespace declarations put on the `cp:coreProperties` root (the
  `_nsmap` subset), which only affect serialisation.
- The Python 2.6 `ZipFile` context-manager shim.
- lxml `ElementMaker` and `typemap` dispatch internals. The factory
  appears as explicit constructors (`Node`, `Make`, `Val`), and "pre-built
  element or scalar" as sum types.
- Element tails, and the move-on-append behaviour of lxml (appending an
  element that already has a parent detaches it). The trees are values, so
  aliasing between a caller's element and the built tree is not modelled.
- `Tables.Table`: the branch for a pre-built `tblPr` style is not
  modelled. It calls `run.append` on the function `run` and raises instead
  of attaching the element. The style is a required string; a `None` style
  is not supported either.
- `Tables.Table`: a cell's prefix is taken to be the registry's key for its
  namespace. A cell with some other prefix for a registered URI fails
  `qname` in the source.
- `Markup.Run`: the `requires` keeps the style to the forms the docstring
  demands, an `rPr` element or font-style codes. The source also accepts
  any other pre-built element and iterates its children with `map(E,
  style)`: a childless one gives an empty `rPr` (`run('x', E.b())` is
  `r > rPr, t`), and one with children fails in `E(child)`. Neither case
  is modelled.
- `Markup.Paragraph`: the `requires` keeps the style to the forms the
  docstring demands, a `pPr` element or a style name. Any other pre-built
  element reaches `E.pStyle(val=style)` as an attribute value, where
  `add_dict` finds no handler for its type and raises; that failure is not
  modelled.
- `Markup.ValidCode`: a code is taken to be non-empty and not in Clark
  notation. The factory also accepts a code in Clark notation and builds
  the element in that code's namespace, so `'{uri}b'` with the `w` URI
  gives the same `w:b` as `'b'`; such codes are not modelled, and neither
  are lxml's full XML name rules.
- `Stamps.FormatStamp`: years below 1000 are padded to four digits. The
  width `%Y` gives them depends on the platform's C library.
- `Stamps.FormatStamp`: under Python 2, which the library's tests use,
  `strftime` raises `ValueError` for any year before 1900. The model formats
  every year from 1 to 9999, as Python 3 does, so `CoreProps.CoreProperties`
  succeeds for a pre-1900 date where get_core_props under Python 2 raises.
- `CoreProps.Property`: metadata values other than strings, sequences of
  strings and `datetime`s (None, numbers, lists holding non-strings) are
  not modelled. Neither is lxml's rejection of text with characters that
  XML does not allow.
- `Markup.Run`: lxml raises `ValueError` for text holding characters XML
  does not allow (`E.t(text)`); the model builds the run for any text.
- `Markup.Paragraph`: the same rejection of a style name holding such
  characters (`E.pStyle(val=style)`) is not modelled.
- `Tables.Table`: the same rejection of a style name holding such
  characters (`E.tblStyle(val=style)`) is not modelled.
- `Tree.AddDict`: the same rejection of an attribute value holding such
  characters is not modelled; only non-string values fail.
- `Tree.QualifyKey`: a plain key is qualified whenever the element has a
  namespace. `add_dict` qualifies only when the element has a prefix
  (`elif elem.prefix:`), so it keeps the bare key on an element in a
  default (unprefixed) namespace; every element the factory `E` makes has
  the `w` prefix, so that case does not arise in the library.
- `Docx.Document.Update`: only the single-mapping form of `update` is
  modelled; keyword arguments merge the same way.
- `datetime.now()` in the tests: a timestamp is an argument, not read from
  a clock.
