/**
 * The `table` builder of docxgen: a `tbl` element with a style, one `tr`
 * per input row and one `tc` per usable cell. The source builds it with
 * two nested loops that append to the row and to the table.
 */
module Tables {
  import opened Wrappers
  import opened Namespaces
  import opened Tree
  import opened Markup

  /** The cell properties every wrapped cell gets: a zero-width, auto-sized `tcW`. */
  function CellProps(): Element {
    Node("tcPr", [Element(W, "tcW", [(Clark(W, "w"), "0"), (Clark(W, "type"), "auto")], "", [])])
  }

  /**
   * The cell width is what `E.tcW(w='0', type='auto')` builds: `w:w="0"`
   * and `w:type="auto"`, so layout is left to Word.
   */
  lemma CellPropsWidth()
    ensures var tcW := CellProps().children[0];
      tcW == Make("tcW", [("w", "0"), ("type", "auto")], "", []) &&
      WAttr(tcW, "w") == Some("0") && WAttr(tcW, "type") == Some("auto")
  {
    var items := [("w", "0"), ("type", "auto")];
    var e := Node("tcW", []);
    RegistryHasNoBraces();
    ClarkInjective(W, "w", W, "type");
    assert items[..1][..0] == [] && items[..1] == [("w", "0")];
    assert WithAttrs(e, items[..1][..0]) == e;
    assert QualifyKey(e, "w") == Clark(W, "w");
    assert QualifyKey(e, "type") == Clark(W, "type");
    assert WithAttrs(e, items[..1]).attrs == [(Clark(W, "w"), "0")];
  }

  /** The row properties every row gets: the fixed conditional-formatting flag. */
  function RowProps(): Element {
    Node("trPr", [Val("cnfStyle", "000000100000")])
  }

  /** The table properties for a style name. */
  function TableProps(style: string): Element {
    Node("tblPr", [Val("tblStyle", style)])
  }

  /**
   * What a cell becomes in its row: a run is first wrapped in a paragraph,
   * a paragraph is wrapped in a `tc` with the cell properties, a `tc` is
   * kept as it is, and a cell of any other kind is dropped.
   */
  function CellOf(c: Element): (r: Option<Element>)
    ensures r.Some? <==> c.local in {"r", "p", "tc"}
    ensures r.Some? ==> r.value.local == "tc"
  {
    if c.local == "r" then Some(Node("tc", [CellProps(), Paragraph([c], NoParaStyle)]))
    else if c.local == "p" then Some(Node("tc", [CellProps(), c]))
    else if c.local == "tc" then Some(c)
    else None
  }

  /**
   * A run cell ends up as the paragraph of a `tc`, alone in it; a paragraph
   * cell as the paragraph of a `tc`, unchanged; a `tc` cell is kept as it is.
   * A wrapped cell's `tc` opens with the cell properties.
   */
  lemma CellWrapping(c: Element)
    ensures c.local in {"r", "p"} ==>
      IsW(CellOf(c).value, "tc") && |CellOf(c).value.children| == 2 &&
      CellOf(c).value.children[0] == CellProps()
    ensures c.local == "r" ==>
      var p := CellOf(c).value.children[1]; IsW(p, "p") && p.children == [c]
    ensures c.local == "p" ==> CellOf(c).value.children[1] == c
    ensures c.local == "tc" ==> CellOf(c).value == c
  {
  }

  /**
   * The source classifies a cell by comparing its tag with
   * `qname(cell.prefix, name)`. For a cell in a registered namespace, whose
   * prefix is the registry's key for it, that comparison is a test of the
   * local name alone; for any other cell `qname` fails its assertion.
   */
  lemma CellKindTest(c: Element, name: string)
    requires Known(c.ns)
    ensures exists p :: p in NSMAP && NSMAP[p] == c.ns && (QName(p, name) == Some(Tag(c)) <==> c.local == name)
  {
    var p :| p in NSMAP && NSMAP[p] == c.ns;
    QNameCases(p, name);
    RegistryHasNoBraces();
    ClarkInjective(c.ns, name, c.ns, c.local);
  }

  /**
   * The `tc` elements a row of cells yields, in order: only `tc` elements,
   * and never more of them than the row had cells.
   */
  function CellsOf(row: seq<Element>): (r: seq<Element>)
    ensures |r| <= |row|
    ensures forall k :: 0 <= k < |r| ==> r[k].local == "tc"
  {
    if row == [] then []
    else
      var last := CellOf(row[|row| - 1]);
      CellsOf(row[..|row| - 1]) + (if last.Some? then [last.value] else [])
  }

  /** The `tr` for a row of cells: its properties, then a `tc` per usable cell. */
  function Row(row: seq<Element>): (r: Element)
    ensures IsW(r, "tr") && 1 <= |r.children| <= |row| + 1 && r.children[0] == RowProps()
    ensures forall k :: 1 <= k < |r.children| ==> r.children[k].local == "tc"
  {
    Node("tr", [RowProps()] + CellsOf(row))
  }

  function Rows(cells: seq<seq<Element>>): (r: seq<Element>)
    ensures |r| == |cells|
  {
    if cells == [] then [] else Rows(cells[..|cells| - 1]) + [Row(cells[|cells| - 1])]
  }

  /** Row i of the table is built from input row i: one row per input row, in order. */
  lemma {:induction false} RowsInOrder(cells: seq<seq<Element>>)
    ensures |Rows(cells)| == |cells|
    ensures forall i :: 0 <= i < |cells| ==> Rows(cells)[i] == Row(cells[i])
  {
    if cells != [] {
      RowsInOrder(cells[..|cells| - 1]);
    }
  }

  /** The table the source builds for a grid of cells and a style name. */
  function TableOf(cells: seq<seq<Element>>, style: string): (r: Element)
    ensures IsW(r, "tbl") && |r.children| == |cells| + 1 && r.children[0] == TableProps(style)
  {
    Node("tbl", [TableProps(style)] + Rows(cells))
  }

  /**
   * table: iterate the rows in order, and in each row the cells in order,
   * appending each usable cell to its `tr` and each `tr` to the `tbl`.
   * An empty grid, or an empty first row, fails the source's assertions;
   * so does a cell outside the registered namespaces.
   */
  method Table(cells: seq<seq<Element>>, style: string) returns (tbl: Element)
    requires |cells| > 0 && |cells[0]| > 0
    requires forall i, j :: 0 <= i < |cells| && 0 <= j < |cells[i]| ==> Known(cells[i][j].ns)
    ensures tbl == TableOf(cells, style)
  {
    tbl := Node("tbl", [TableProps(style)]);
    TableAppend(cells, style, 0);
    var i := 0;
    while i < |cells|
      invariant 0 <= i <= |cells|
      invariant tbl == TableOf(cells[..i], style)
    {
      var row := cells[i];
      var tr := Node("tr", [RowProps()]);
      RowAppend(row, 0);
      var j := 0;
      while j < |row|
        invariant 0 <= j <= |row|
        invariant tr == Row(row[..j])
      {
        var cell := row[j];
        CellConversion(cell);
        RowAppend(row, j);
        // the tag tests against qname(cell.prefix, ...), see CellKindTest
        if cell.local == "r" {
          cell := Paragraph([cell], NoParaStyle);
        }
        if cell.local == "p" {
          cell := Node("tc", [CellProps(), cell]);
        }
        if cell.local == "tc" {
          tr := tr.(children := tr.children + [cell]);
        }
        j := j + 1;
      }
      assert row[..j] == row;
      TableAppend(cells, style, i);
      tbl := tbl.(children := tbl.children + [tr]);
      i := i + 1;
    }
    assert cells[..i] == cells;
  }

  /** The two in-place rewrites of a cell in the source's loop compute CellOf. */
  lemma CellConversion(c: Element)
    ensures var c1 := if c.local == "r" then Paragraph([c], NoParaStyle) else c;
      var c2 := if c1.local == "p" then Node("tc", [CellProps(), c1]) else c1;
      (c2.local == "tc" <==> CellOf(c).Some?) && (c2.local == "tc" ==> CellOf(c) == Some(c2))
  {
  }

  /** A row grows by appending the next cell's `tc`, if it has one; an empty row holds only its properties. */
  lemma RowAppend(row: seq<Element>, j: nat)
    requires j <= |row|
    ensures j == 0 ==> Row(row[..0]) == Node("tr", [RowProps()])
    ensures j < |row| ==>
      Row(row[..j + 1]) ==
        if CellOf(row[j]).Some? then Row(row[..j]).(children := Row(row[..j]).children + [CellOf(row[j]).value])
        else Row(row[..j])
  {
    if j == 0 {
      assert row[..0] == [];
      assert [RowProps()] + [] == [RowProps()];
    }
    if j < |row| {
      CellsOfStep(row, j);
      var prev := CellsOf(row[..j]);
      if CellOf(row[j]).Some? {
        assert [RowProps()] + (prev + [CellOf(row[j]).value]) == ([RowProps()] + prev) + [CellOf(row[j]).value];
      } else {
        assert prev + [] == prev;
      }
    }
  }

  /** A table grows by appending the next row; with no rows it holds only its properties. */
  lemma TableAppend(cells: seq<seq<Element>>, style: string, i: nat)
    requires i <= |cells|
    ensures i == 0 ==> TableOf(cells[..0], style) == Node("tbl", [TableProps(style)])
    ensures i < |cells| ==>
      TableOf(cells[..i + 1], style) ==
        TableOf(cells[..i], style).(children := TableOf(cells[..i], style).children + [Row(cells[i])])
  {
    if i == 0 {
      assert cells[..0] == [];
      assert [TableProps(style)] + [] == [TableProps(style)];
    }
    if i < |cells| {
      RowsStep(cells, i);
      var prev := Rows(cells[..i]);
      assert [TableProps(style)] + (prev + [Row(cells[i])]) == ([TableProps(style)] + prev) + [Row(cells[i])];
    }
  }

  lemma CellsOfStep(row: seq<Element>, j: nat)
    requires j < |row|
    ensures CellsOf(row[..j + 1]) ==
      CellsOf(row[..j]) + (if CellOf(row[j]).Some? then [CellOf(row[j]).value] else [])
  {
    assert row[..j + 1][..j] == row[..j];
  }

  lemma RowsStep(cells: seq<seq<Element>>, i: nat)
    requires i < |cells|
    ensures Rows(cells[..i + 1]) == Rows(cells[..i]) + [Row(cells[i])]
  {
    assert cells[..i + 1][..i] == cells[..i];
  }

  /**
   * A row keeps its cells: it opens with the row properties and, when every
   * cell is a run, a paragraph or a `tc`, holds exactly one `tc` per cell in
   * the same order.
   */
  lemma {:induction false} RowCells(row: seq<Element>)
    requires forall j :: 0 <= j < |row| ==> row[j].local in {"r", "p", "tc"}
    ensures |CellsOf(row)| == |row|
    ensures forall j :: 0 <= j < |row| ==> CellOf(row[j]) == Some(CellsOf(row)[j])
  {
    if row != [] {
      RowCells(row[..|row| - 1]);
    }
  }

  /**
   * The table is `tblPr > tblStyle@val=style` followed by one row per input
   * row, in order: a `tr` opening with `trPr > cnfStyle@val="000000100000"`
   * and holding that row's cells.
   */
  lemma TableShape(cells: seq<seq<Element>>, style: string)
    ensures var t := TableOf(cells, style);
      IsW(t, "tbl") && |t.children| == |cells| + 1 &&
      t.children[0] == TableProps(style) &&
      forall i :: 0 <= i < |cells| ==> t.children[i + 1] == Row(cells[i])
  {
    var t := TableOf(cells, style);
    assert t.children[1..] == Rows(cells);
    RowsInOrder(cells);
  }

  /** A run holding plain text and nothing else: `r > t`. */
  predicate TextRun(c: Element) {
    IsW(c, "r") && |c.children| == 1 && IsW(c.children[0], "t") && c.children[0].children == []
  }

  /** A cell the source's table test uses: a text run, or a paragraph holding one. */
  predicate TextCell(c: Element) {
    TextRun(c) || (IsW(c, "p") && |c.children| == 1 && TextRun(c.children[0]))
  }

  const CELL_TAGS: seq<string> := ["tc", "tcPr", "tcW", "p", "r", "t"]

  function Repeat(xs: seq<string>, n: nat): seq<string> {
    if n == 0 then [] else Repeat(xs, n - 1) + xs
  }

  lemma TextRunTags(c: Element)
    requires TextRun(c)
    ensures Tags(c) == ["r", "t"]
  {
    assert c.children == [c.children[0]];
    TagsOfLeaf(c.children[0]);
    TagsOfOne(c.children[0]);
  }

  /** A paragraph of one text run, wrapped in a `tc`, has the tags `tc, tcPr, tcW, p, r, t`. */
  lemma WrappedParagraphTags(p: Element)
    requires IsW(p, "p") && |p.children| == 1 && TextRun(p.children[0])
    ensures Tags(Node("tc", [CellProps(), p])) == CELL_TAGS
  {
    var props := CellProps();
    assert props.children == [props.children[0]];
    TagsOfLeaf(props.children[0]);
    TagsOfOne(props.children[0]);
    assert p.children == [p.children[0]];
    TextRunTags(p.children[0]);
    TagsOfOne(p.children[0]);
    TagsOfTwo(props, p);
  }

  lemma TextCellTags(c: Element)
    requires TextCell(c)
    ensures Tags(CellOf(c).value) == CELL_TAGS
  {
    if c.local == "r" {
      var p := Paragraph([c], NoParaStyle);
      assert p.children == [c];
      WrappedParagraphTags(p);
    } else {
      WrappedParagraphTags(c);
    }
  }

  lemma {:induction false} TextRowTags(row: seq<Element>)
    requires forall j :: 0 <= j < |row| ==> TextCell(row[j])
    ensures TagsOf(CellsOf(row)) == Repeat(CELL_TAGS, |row|)
  {
    if row != [] {
      var init := row[..|row| - 1];
      TextRowTags(init);
      TextCellTags(row[|row| - 1]);
      TagsOfConcat(CellsOf(init), [CellOf(row[|row| - 1]).value]);
      TagsOfOne(CellOf(row[|row| - 1]).value);
    }
  }

  /** Concatenation of the tag sequences of `n` copies of a row. */
  function RowsTags(rowTags: seq<string>, n: nat): seq<string> {
    if n == 0 then [] else RowsTags(rowTags, n - 1) + rowTags
  }

  lemma RowPropsTags()
    ensures TagsOf([RowProps()]) == ["trPr", "cnfStyle"]
  {
    var props := RowProps();
    TagsOfLeaf(props.children[0]);
    TagsOfOne(props.children[0]);
    TagsOfOne(props);
  }

  lemma TextRowTagsOfRow(row: seq<Element>, cellTags: seq<string>)
    requires TagsOf(CellsOf(row)) == cellTags
    ensures Tags(Row(row)) == ["tr", "trPr", "cnfStyle"] + cellTags
  {
    RowPropsTags();
    TagsOfConcat([RowProps()], CellsOf(row));
  }

  lemma {:induction false} TextRowsTags(cells: seq<seq<Element>>, width: nat)
    requires forall i :: 0 <= i < |cells| ==> |cells[i]| == width
    requires forall i, j :: 0 <= i < |cells| && 0 <= j < |cells[i]| ==> TextCell(cells[i][j])
    ensures TagsOf(Rows(cells)) == RowsTags(["tr", "trPr", "cnfStyle"] + Repeat(CELL_TAGS, width), |cells|)
  {
    if cells != [] {
      var init := cells[..|cells| - 1];
      var last := cells[|cells| - 1];
      TextRowsTags(init, width);
      TextRowTags(last);
      TextRowTagsOfRow(last, Repeat(CELL_TAGS, width));
      TagsOfConcat(Rows(init), [Row(last)]);
      TagsOfOne(Row(last));
    }
  }

  /**
   * A rectangular grid of text cells, such as runs of text mixed with
   * paragraphs of one run, yields the tag sequence
   * `tbl, tblPr, tblStyle, (tr, trPr, cnfStyle, (tc, tcPr, tcW, p, r, t) * width) * height`.
   */
  lemma TableTags(cells: seq<seq<Element>>, width: nat, style: string)
    requires forall i :: 0 <= i < |cells| ==> |cells[i]| == width
    requires forall i, j :: 0 <= i < |cells| && 0 <= j < |cells[i]| ==> TextCell(cells[i][j])
    ensures Tags(TableOf(cells, style)) ==
      ["tbl", "tblPr", "tblStyle"] + RowsTags(["tr", "trPr", "cnfStyle"] + Repeat(CELL_TAGS, width), |cells|)
  {
    var props := TableProps(style);
    TagsOfLeaf(props.children[0]);
    TagsOfOne(props.children[0]);
    TagsOfConcat([props], Rows(cells));
    TagsOfOne(props);
    TextRowsTags(cells, width);
  }
}
