/**
 * Tables of docai_converter.py: a Document AI table becomes a grid of
 * escaped cell texts padded to a common width (_table_to_renderable), then
 * a Markdown table when no cell spans (_render_table_md) or an HTML table
 * that keeps the spans (_render_table_html).
 */
module Tables {
  import opened Results
  import opened Text
  import opened Segments
  import opened Geometry
  import opened DocLayout
  import opened MarkdownText

  /** A table cell as Document AI gives it; a span may be absent. */
  datatype DocCell = DocCell(layout: Layout, rowSpan: Option<int>, colSpan: Option<int>)

  datatype DocRow = DocRow(cells: seq<DocCell>)

  datatype DocTable = DocTable(headerRows: seq<DocRow>, bodyRows: seq<DocRow>)

  /** A rendered cell: `{"text", "rowSpan", "colSpan"}`. */
  datatype Cell = Cell(text: string, rowSpan: int, colSpan: int)

  datatype Renderable = Renderable(rows: seq<seq<Cell>>, anySpan: bool, bbox: Box, segs: seq<Segment>)

  const EmptyCell := Cell("", 1, 1)

  /** `int(span or 1)`: an absent or zero span counts as 1. */
  function SpanValue(o: Option<int>): (n: int)
    ensures n != 0
    ensures o.None? || o == Some(0) ==> n == 1
    ensures o.Some? && o.value != 0 ==> n == o.value
  {
    if o.Some? && o.value != 0 then o.value else 1
  }

  /** cell_info: the escaped text the cell's anchor selects and its spans. */
  function CellOf(c: DocCell, fullText: string): Cell {
    Cell(EscapeMd(TextOf(fullText, LayoutSegments(c.layout))), SpanValue(c.rowSpan), SpanValue(c.colSpan))
  }

  predicate HasSpan(c: DocCell) {
    SpanValue(c.rowSpan) > 1 || SpanValue(c.colSpan) > 1
  }

  function RowCells(cells: seq<DocCell>, fullText: string): (r: seq<Cell>)
    ensures |r| == |cells|
  {
    if cells == [] then [] else RowCells(cells[..|cells| - 1], fullText) + [CellOf(cells[|cells| - 1], fullText)]
  }

  /** The `j`-th rendered cell of a row is the `j`-th raw cell, converted. */
  lemma {:induction false} RowCellsAt(cells: seq<DocCell>, fullText: string, j: nat)
    requires j < |cells|
    ensures RowCells(cells, fullText)[j] == CellOf(cells[j], fullText)
  {
    if j < |cells| - 1 {
      var init := cells[..|cells| - 1];
      assert init[j] == cells[j];
      RowCellsAt(init, fullText, j);
    }
  }

  /** Header rows followed by body rows, as the source iterates them. */
  function AllRows(t: DocTable): seq<DocRow> {
    t.headerRows + t.bodyRows
  }

  /** The cells of `rows`, row after row. */
  function AllCells(rows: seq<DocRow>): seq<DocCell> {
    if rows == [] then [] else AllCells(rows[..|rows| - 1]) + rows[|rows| - 1].cells
  }

  /** Whether some cell spans more than one row or column, accumulated left to right. */
  function AnySpan(cells: seq<DocCell>): bool {
    if cells == [] then false else AnySpan(cells[..|cells| - 1]) || HasSpan(cells[|cells| - 1])
  }

  lemma {:induction false} AnySpanExists(cells: seq<DocCell>)
    ensures AnySpan(cells) <==> exists k :: 0 <= k < |cells| && HasSpan(cells[k])
  {
    if cells != [] {
      var init := cells[..|cells| - 1];
      AnySpanExists(init);
      assert forall k :: 0 <= k < |init| ==> init[k] == cells[k];
    }
  }

  /** Some cell's anchor covers offset `p`. */
  predicate SomeCellCovers(cells: seq<DocCell>, p: int) {
    exists k :: 0 <= k < |cells| && Covers(LayoutSegments(cells[k].layout), p)
  }

  /** The union of the anchors of `cells`, accumulated left to right. */
  function SpanUnion(cells: seq<DocCell>): seq<Segment> {
    if cells == [] then [] else Union(SpanUnion(cells[..|cells| - 1]), LayoutSegments(cells[|cells| - 1].layout))
  }

  /** The union covers exactly the offsets some cell's anchor covers, and its pieces are separated. */
  lemma {:induction false} SpanUnionCovers(cells: seq<DocCell>, p: int)
    ensures Covers(SpanUnion(cells), p) <==> SomeCellCovers(cells, p)
  {
    if cells != [] {
      var init, last := cells[..|cells| - 1], cells[|cells| - 1];
      SpanUnionCovers(init, p);
      UnionCovers(SpanUnion(init), LayoutSegments(last.layout));
      SomeCellCoversSnoc(cells, p);
    }
  }

  lemma SomeCellCoversSnoc(cells: seq<DocCell>, p: int)
    requires cells != []
    ensures SomeCellCovers(cells, p) <==>
            SomeCellCovers(cells[..|cells| - 1], p) || Covers(LayoutSegments(cells[|cells| - 1].layout), p)
  {
    var init := cells[..|cells| - 1];
    if SomeCellCovers(cells, p) {
      var k :| 0 <= k < |cells| && Covers(LayoutSegments(cells[k].layout), p);
      if k < |init| {
        assert init[k] == cells[k];
      }
    }
    if SomeCellCovers(init, p) {
      var k :| 0 <= k < |init| && Covers(LayoutSegments(init[k].layout), p);
      assert init[k] == cells[k];
    }
  }

  lemma SpanUnionSeparated(cells: seq<DocCell>)
    ensures Separated(SpanUnion(cells))
  {
    if cells != [] {
      UnionCovers(SpanUnion(cells[..|cells| - 1]), LayoutSegments(cells[|cells| - 1].layout));
    }
  }

  /** The vertices of all cells, cell after cell. */
  function CellVertices(cells: seq<DocCell>): seq<Point> {
    if cells == [] then [] else CellVertices(cells[..|cells| - 1]) + cells[|cells| - 1].layout.vertices
  }

  /** The merged box of the cells, accumulated left to right. */
  function CellsBox(cells: seq<DocCell>): Box {
    if cells == [] then NoBox else MergeBox(CellsBox(cells[..|cells| - 1]), LayoutBox(cells[|cells| - 1].layout))
  }

  /** Merging cell by cell gives the bounding box of all cell vertices at once. */
  lemma {:induction false} CellsBoxPoints(cells: seq<DocCell>)
    ensures CellsBox(cells) == BoxOfPoints(CellVertices(cells))
  {
    if cells != [] {
      var init := cells[..|cells| - 1];
      CellsBoxPoints(init);
      BoxOfPointsConcat(CellVertices(init), cells[|cells| - 1].layout.vertices);
    }
  }

  /** The widest row: `max(len(r) for r in rows)`, 0 for no rows. */
  function MaxCells(rows: seq<DocRow>): (w: nat)
    ensures forall i :: 0 <= i < |rows| ==> |rows[i].cells| <= w
    ensures rows != [] ==> exists i :: 0 <= i < |rows| && |rows[i].cells| == w
    ensures rows == [] ==> w == 0
  {
    if rows == [] then 0
    else
      var init := rows[..|rows| - 1];
      assert forall i :: 0 <= i < |init| ==> init[i] == rows[i];
      var w0 := MaxCells(init);
      var n := |rows[|rows| - 1].cells|;
      if n > w0 then n else w0
  }

  lemma SnocPrefix<T>(s: seq<T>, i: nat)
    requires i < |s|
    ensures s[..i + 1] == s[..i] + [s[i]]
    ensures s[..i + 1][..i] == s[..i]
  {
  }

  /** The cell loop of one row keeps the accumulators equal to their folds. */
  lemma FoldStep(done: seq<DocCell>, c: DocCell)
    ensures AnySpan(done + [c]) == (AnySpan(done) || HasSpan(c))
    ensures SpanUnion(done + [c]) == Union(SpanUnion(done), LayoutSegments(c.layout))
    ensures CellsBox(done + [c]) == MergeBox(CellsBox(done), LayoutBox(c.layout))
  {
    assert (done + [c])[..|done|] == done;
  }

  /** `row + [EMPTY] * (width - len(row))`. */
  function Padded(row: seq<Cell>, width: nat): (r: seq<Cell>)
    requires |row| <= width
    ensures |r| == width && r[..|row|] == row
    ensures forall j :: |row| <= j < width ==> r[j] == EmptyCell
  {
    row + Repeat(EmptyCell, width - |row|)
  }

  /**
   * The cell loop of one row: its cells, with the three table-wide
   * accumulators carried on from the cells `before` it.
   */
  method ConvertRow(cells: seq<DocCell>, fullText: string, ghost before: seq<DocCell>,
                    anySpan0: bool, spans0: seq<Segment>, bbox0: Box)
    returns (rCells: seq<Cell>, anySpan: bool, spans: seq<Segment>, bbox: Box)
    requires anySpan0 == AnySpan(before) && spans0 == SpanUnion(before) && bbox0 == CellsBox(before)
    ensures rCells == RowCells(cells, fullText)
    ensures anySpan == AnySpan(before + cells)
    ensures spans == SpanUnion(before + cells)
    ensures bbox == CellsBox(before + cells)
  {
    rCells, anySpan, spans, bbox := [], anySpan0, spans0, bbox0;
    var j := 0;
    assert before + cells[..0] == before;
    while j < |cells|
      invariant 0 <= j <= |cells|
      invariant rCells == RowCells(cells[..j], fullText)
      invariant anySpan == AnySpan(before + cells[..j])
      invariant spans == SpanUnion(before + cells[..j])
      invariant bbox == CellsBox(before + cells[..j])
    {
      var c := cells[j];
      ghost var done := before + cells[..j];
      ConcatSnoc(before, cells, j);
      var cell, segs := ConvertCell(c, fullText);
      if cell.rowSpan > 1 || cell.colSpan > 1 {
        anySpan := true;
      }
      rCells := rCells + [cell];
      spans := UnionSegments(spans, segs);
      bbox := MergeBox(bbox, LayoutBox(c.layout));
      FoldStep(done, c);
      j := j + 1;
    }
    assert cells[..j] == cells;
  }

  lemma ConcatSnoc<T>(a: seq<T>, b: seq<T>, j: nat)
    requires j < |b|
    ensures a + b[..j + 1] == (a + b[..j]) + [b[j]]
    ensures b[..j + 1][..j] == b[..j]
  {
    assert b[..j + 1] == b[..j] + [b[j]];
  }

  /** One cell: its anchor parsed, its text resolved and escaped, its spans read. */
  method ConvertCell(c: DocCell, fullText: string) returns (cell: Cell, segs: seq<Segment>)
    ensures cell == CellOf(c, fullText)
    ensures segs == LayoutSegments(c.layout)
  {
    segs := ParseSegments(c.layout.anchor);
    var txt := TextFromSegments(fullText, segs);
    cell := Cell(EscapeMd(txt), SpanValue(c.rowSpan), SpanValue(c.colSpan));
  }

  /** The padding loop: every row is filled with empty cells up to `width`. */
  method PadRows(rows: seq<seq<Cell>>, width: nat) returns (padded: seq<seq<Cell>>)
    requires forall i :: 0 <= i < |rows| ==> |rows[i]| <= width
    ensures |padded| == |rows|
    ensures forall i :: 0 <= i < |rows| ==> padded[i] == Padded(rows[i], width)
  {
    padded := rows;
    var k := 0;
    while k < |padded|
      invariant 0 <= k <= |padded| == |rows|
      invariant forall m :: 0 <= m < k ==> padded[m] == Padded(rows[m], width)
      invariant forall m :: k <= m < |rows| ==> padded[m] == rows[m]
    {
      padded := padded[k := padded[k] + Repeat(EmptyCell, width - |padded[k]|)];
      k := k + 1;
    }
  }

  /** The unpadded cells of every row. */
  function TableCells(raw: seq<DocRow>, fullText: string): seq<seq<Cell>> {
    if raw == [] then [] else TableCells(raw[..|raw| - 1], fullText) + [RowCells(raw[|raw| - 1].cells, fullText)]
  }

  lemma {:induction false} TableCellsAt(raw: seq<DocRow>, fullText: string, k: nat)
    requires k < |raw|
    ensures |TableCells(raw, fullText)| == |raw|
    ensures TableCells(raw, fullText)[k] == RowCells(raw[k].cells, fullText)
  {
    var init := raw[..|raw| - 1];
    if k < |raw| - 1 {
      assert init[k] == raw[k];
      TableCellsAt(init, fullText, k);
    } else {
      TableCellsLength(init, fullText);
    }
  }

  lemma {:induction false} TableCellsLength(raw: seq<DocRow>, fullText: string)
    ensures |TableCells(raw, fullText)| == |raw|
  {
    if raw != [] {
      TableCellsLength(raw[..|raw| - 1], fullText);
    }
  }

  lemma AllCellsSnoc(raw: seq<DocRow>, fullText: string, i: nat)
    requires i < |raw|
    ensures AllCells(raw[..i + 1]) == AllCells(raw[..i]) + raw[i].cells
    ensures TableCells(raw[..i + 1], fullText) == TableCells(raw[..i], fullText) + [RowCells(raw[i].cells, fullText)]
  {
    assert raw[..i + 1][..i] == raw[..i];
  }

  /** The row loop: every row's cells, and the accumulators over all cells. */
  method ConvertRows(raw: seq<DocRow>, fullText: string)
    returns (rows: seq<seq<Cell>>, anySpan: bool, spans: seq<Segment>, bbox: Box)
    ensures rows == TableCells(raw, fullText)
    ensures anySpan == AnySpan(AllCells(raw))
    ensures spans == SpanUnion(AllCells(raw))
    ensures bbox == CellsBox(AllCells(raw))
  {
    rows, anySpan, spans, bbox := [], false, [], NoBox;
    var i := 0;
    while i < |raw|
      invariant 0 <= i <= |raw|
      invariant rows == TableCells(raw[..i], fullText)
      invariant anySpan == AnySpan(AllCells(raw[..i]))
      invariant spans == SpanUnion(AllCells(raw[..i]))
      invariant bbox == CellsBox(AllCells(raw[..i]))
    {
      AllCellsSnoc(raw, fullText, i);
      var rCells;
      rCells, anySpan, spans, bbox := ConvertRow(raw[i].cells, fullText, AllCells(raw[..i]), anySpan, spans, bbox);
      rows := rows + [rCells];
      i := i + 1;
    }
    assert raw[..i] == raw;
  }

  /**
   * _table_to_renderable: one row of cells per header and body row, each
   * padded with empty cells to the widest row, whether any cell spans,
   * the union of all cell anchors and the box around all cell polygons.
   */
  function RenderableOf(table: DocTable, fullText: string): Renderable {
    var raw := AllRows(table);
    var w := MaxCells(raw);
    Renderable(seq(|raw|, i requires 0 <= i < |raw| => Padded(RowCells(raw[i].cells, fullText), w)),
               AnySpan(AllCells(raw)), CellsBox(AllCells(raw)), SpanUnion(AllCells(raw)))
  }

  method TableToRenderable(table: DocTable, fullText: string) returns (t: Renderable)
    ensures t == RenderableOf(table, fullText)
  {
    var raw := table.headerRows + table.bodyRows;
    var rows, anySpan, allSpans, bbox := ConvertRows(raw, fullText);
    var width := MaxCells(raw);
    TableCellsFit(raw, fullText);
    rows := PadRows(rows, width);
    PaddedRows(table, fullText, rows);
    t := Renderable(rows, anySpan, bbox, allSpans);
  }

  /** Every unpadded row is its raw row's cells, and none is wider than the widest raw row. */
  lemma TableCellsFit(raw: seq<DocRow>, fullText: string)
    ensures |TableCells(raw, fullText)| == |raw|
    ensures forall i :: 0 <= i < |raw| ==>
              TableCells(raw, fullText)[i] == RowCells(raw[i].cells, fullText)
              && |TableCells(raw, fullText)[i]| <= MaxCells(raw)
  {
    TableCellsLength(raw, fullText);
    forall i | 0 <= i < |raw|
      ensures TableCells(raw, fullText)[i] == RowCells(raw[i].cells, fullText)
    {
      TableCellsAt(raw, fullText, i);
    }
  }

  /** Padding the unpadded rows gives the rows of the renderable table. */
  lemma PaddedRows(table: DocTable, fullText: string, padded: seq<seq<Cell>>)
    requires |padded| == |AllRows(table)|
    requires forall i :: 0 <= i < |padded| ==>
               |TableCells(AllRows(table), fullText)| == |padded|
               && |TableCells(AllRows(table), fullText)[i]| <= MaxCells(AllRows(table))
               && TableCells(AllRows(table), fullText)[i] == RowCells(AllRows(table)[i].cells, fullText)
               && padded[i] == Padded(TableCells(AllRows(table), fullText)[i], MaxCells(AllRows(table)))
    ensures padded == RenderableOf(table, fullText).rows
  {
  }

  // ---------------------------------------------------------------------------
  // _render_table_md
  // ---------------------------------------------------------------------------

  function Texts(cells: seq<Cell>): (r: seq<string>)
    ensures |r| == |cells| && forall i :: 0 <= i < |cells| ==> r[i] == cells[i].text
  {
    if cells == [] then [] else [cells[0].text] + Texts(cells[1..])
  }

  /** `[f"Col {i + 1}" for i in range(n)]`. */
  function ColNames(n: nat): (r: seq<string>)
    ensures |r| == n && forall i :: 0 <= i < n ==> r[i] == "Col " + NatToString(i + 1)
  {
    if n == 0 then [] else ColNames(n - 1) + ["Col " + NatToString(n)]
  }

  predicate AllEmpty(texts: seq<string>) {
    forall i :: 0 <= i < |texts| ==> texts[i] == ""
  }

  function MdRow(texts: seq<string>): string {
    "| " + Join(" | ", texts) + " |"
  }

  function MdHeader(cells: seq<Cell>): seq<string> {
    if AllEmpty(Texts(cells)) then ColNames(|cells|) else Texts(cells)
  }

  function MdBody(rows: seq<seq<Cell>>): (r: seq<string>)
    ensures |r| == |rows| && forall i :: 0 <= i < |rows| ==> r[i] == MdRow(Texts(rows[i]))
  {
    if rows == [] then []
    else
      var init := rows[..|rows| - 1];
      assert forall i :: 0 <= i < |init| ==> init[i] == rows[i];
      MdBody(init) + [MdRow(Texts(rows[|rows| - 1]))]
  }

  /** The Markdown lines of a table: header, separator, then the other rows. */
  function TableMdLines(rows: seq<seq<Cell>>): seq<string> {
    if rows == [] then [] else [MdRow(MdHeader(rows[0])), MdRow(Repeat("---", |rows[0]|))] + MdBody(rows[1..])
  }

  /**
   * The markdown table is empty for no rows; otherwise its first line is
   * the header (placeholders when every header text is empty), the second
   * the separator with one `---` per header cell, and then one line per
   * further row.
   */
  lemma TableMdShape(rows: seq<seq<Cell>>)
    ensures rows == [] ==> TableMdLines(rows) == []
    ensures rows != [] ==> |TableMdLines(rows)| == |rows| + 1
    ensures rows != [] && AllEmpty(Texts(rows[0])) ==> TableMdLines(rows)[0] == MdRow(ColNames(|rows[0]|))
    ensures rows != [] && !AllEmpty(Texts(rows[0])) ==> TableMdLines(rows)[0] == MdRow(Texts(rows[0]))
    ensures rows != [] ==> TableMdLines(rows)[1] == MdRow(Repeat("---", |rows[0]|))
    ensures forall i :: 1 <= i < |rows| ==> TableMdLines(rows)[i + 1] == MdRow(Texts(rows[i]))
  {
    if rows != [] {
      var lines := TableMdLines(rows);
      forall i | 1 <= i < |rows| ensures lines[i + 1] == MdRow(Texts(rows[i])) {
        assert rows[1..][i - 1] == rows[i];
      }
    }
  }

  method RenderTableMd(rows: seq<seq<Cell>>) returns (lines: seq<string>)
    ensures lines == TableMdLines(rows)
  {
    if |rows| == 0 {
      return [];
    }
    var header := Texts(rows[0]);
    if AllEmpty(header) {
      header := ColNames(|header|);
    }
    var body: seq<string> := [];
    var i := 1;
    while i < |rows|
      invariant 1 <= i <= |rows|
      invariant body == MdBody(rows[1..i])
    {
      assert rows[1..i + 1][..i - 1] == rows[1..i];
      body := body + [MdRow(Texts(rows[i]))];
      i := i + 1;
    }
    assert rows[1..i] == rows[1..];
    lines := [MdRow(header), MdRow(Repeat("---", |header|))] + body;
  }

  // ---------------------------------------------------------------------------
  // _render_table_html
  // ---------------------------------------------------------------------------

  /** The attribute text of a cell: colspan before rowspan, each only when above 1. */
  function SpanAttrs(c: Cell): (r: string)
    ensures r == "" <==> c.colSpan <= 1 && c.rowSpan <= 1
  {
    var attrs := (if c.colSpan > 1 then ["colspan=\"" + IntToString(c.colSpan) + "\""] else [])
               + (if c.rowSpan > 1 then ["rowspan=\"" + IntToString(c.rowSpan) + "\""] else []);
    if attrs != [] then " " + Join(" ", attrs) else ""
  }

  function HeadLine(c: Cell): string {
    "      <th" + SpanAttrs(c) + ">" + c.text + "</th>"
  }

  function DataLine(c: Cell): string {
    "      <td" + SpanAttrs(c) + ">" + c.text + "</td>"
  }

  function HeadLines(cells: seq<Cell>): (r: seq<string>)
    ensures |r| == |cells|
  {
    if cells == [] then [] else HeadLines(cells[..|cells| - 1]) + [HeadLine(cells[|cells| - 1])]
  }

  function DataLines(cells: seq<Cell>): (r: seq<string>)
    ensures |r| == |cells|
  {
    if cells == [] then [] else DataLines(cells[..|cells| - 1]) + [DataLine(cells[|cells| - 1])]
  }

  /** The `<tr>` blocks of the body rows. */
  function BodyHtml(rows: seq<seq<Cell>>): seq<string> {
    if rows == [] then []
    else BodyHtml(rows[..|rows| - 1]) + ["    <tr>"] + DataLines(rows[|rows| - 1]) + ["    </tr>"]
  }

  function CellCount(rows: seq<seq<Cell>>): nat {
    if rows == [] then 0 else CellCount(rows[..|rows| - 1]) + |rows[|rows| - 1]|
  }

  function TableHtmlLines(rows: seq<seq<Cell>>): seq<string> {
    ["<table>"]
    + (if rows == [] then []
       else ["  <thead>", "    <tr>"] + HeadLines(rows[0]) + ["    </tr>", "  </thead>"]
            + (if |rows| > 1 then ["  <tbody>"] + BodyHtml(rows[1..]) + ["  </tbody>"] else []))
    + ["</table>"]
  }

  lemma {:induction false} BodyHtmlCount(rows: seq<seq<Cell>>)
    ensures |BodyHtml(rows)| == CellCount(rows) + 2 * |rows|
  {
    if rows != [] {
      BodyHtmlCount(rows[..|rows| - 1]);
    }
  }

  /** Line `j` of a head row is the `<th>` line of cell `j`. */
  lemma {:induction false} HeadLinesAt(cells: seq<Cell>)
    ensures forall j :: 0 <= j < |cells| ==> HeadLines(cells)[j] == HeadLine(cells[j])
  {
    if cells != [] {
      HeadLinesAt(cells[..|cells| - 1]);
      assert forall j :: 0 <= j < |cells| - 1 ==> cells[..|cells| - 1][j] == cells[j];
    }
  }

  /** Line `j` of a body row is the `<td>` line of cell `j`. */
  lemma {:induction false} DataLinesAt(cells: seq<Cell>)
    ensures forall j :: 0 <= j < |cells| ==> DataLines(cells)[j] == DataLine(cells[j])
  {
    if cells != [] {
      DataLinesAt(cells[..|cells| - 1]);
      assert forall j :: 0 <= j < |cells| - 1 ==> cells[..|cells| - 1][j] == cells[j];
    }
  }

  /** The block of one body row: `<tr>`, one `<td>` line per cell, `</tr>`. */
  function RowBlock(cells: seq<Cell>): (r: seq<string>)
    ensures |r| == |cells| + 2
  {
    ["    <tr>"] + DataLines(cells) + ["    </tr>"]
  }

  /** The positions of `[x] + d + [y]`. */
  lemma FrameAt<T>(x: T, d: seq<T>, y: T)
    ensures ([x] + d + [y])[0] == x && ([x] + d + [y])[|d| + 1] == y
    ensures forall j :: 0 <= j < |d| ==> ([x] + d + [y])[1 + j] == d[j]
  {
  }

  /** A row block is `<tr>`, the `<td>` line of each cell in order, then `</tr>`. */
  lemma RowBlockAt(cells: seq<Cell>)
    ensures RowBlock(cells)[0] == "    <tr>" && RowBlock(cells)[|cells| + 1] == "    </tr>"
    ensures forall j :: 0 <= j < |cells| ==> RowBlock(cells)[1 + j] == DataLine(cells[j])
  {
    DataLinesAt(cells);
    FrameAt("    <tr>", DataLines(cells), "    </tr>");
  }

  lemma Regroup<T>(a: seq<T>, x: seq<T>, d: seq<T>, y: seq<T>)
    ensures a + x + d + y == a + (x + d + y)
  {
  }

  /** The body is the blocks of the rows before the last, then the last row's block. */
  lemma BodyHtmlSnoc(rows: seq<seq<Cell>>)
    requires rows != []
    ensures BodyHtml(rows) == BodyHtml(rows[..|rows| - 1]) + RowBlock(rows[|rows| - 1])
  {
    var last := rows[|rows| - 1];
    Regroup(BodyHtml(rows[..|rows| - 1]), ["    <tr>"], DataLines(last), ["    </tr>"]);
  }

  /** A slice of the front part of `a + b` is the same slice of `a`. */
  lemma SliceOfFront<T>(a: seq<T>, b: seq<T>, k: nat, len: nat)
    requires k + len <= |a|
    ensures (a + b)[k..k + len] == a[k..k + len]
  {
    var u, v := (a + b)[k..k + len], a[k..k + len];
    forall t | 0 <= t < len ensures u[t] == v[t] {
    }
  }

  /** The last part of `a + b` is `b`. */
  lemma SliceOfBack<T>(a: seq<T>, b: seq<T>)
    ensures (a + b)[|a|..|a| + |b|] == b
  {
    var u := (a + b)[|a|..|a| + |b|];
    forall t | 0 <= t < |b| ensures u[t] == b[t] {
    }
  }

  /** The blocks `f` gives for each of `cs`, one after the other. */
  function FlatMap<C, T>(f: C -> seq<T>, cs: seq<C>): seq<T> {
    if cs == [] then [] else FlatMap(f, cs[..|cs| - 1]) + f(cs[|cs| - 1])
  }

  /** The block of `cs[i]` starts after the blocks before it and is found there whole. */
  lemma {:induction false} FlatMapAt<C, T>(f: C -> seq<T>, cs: seq<C>, i: nat)
    requires i < |cs|
    ensures |FlatMap(f, cs[..i])| + |f(cs[i])| <= |FlatMap(f, cs)|
    ensures FlatMap(f, cs)[|FlatMap(f, cs[..i])|..|FlatMap(f, cs[..i])| + |f(cs[i])|] == f(cs[i])
  {
    var n := |cs| - 1;
    var init := cs[..n];
    if i == n {
      SliceOfBack(FlatMap(f, init), f(cs[n]));
    } else {
      FlatMapAt(f, init, i);
      assert init[..i] == cs[..i];
      assert init[i] == cs[i];
      SliceOfFront(FlatMap(f, init), f(cs[n]), |FlatMap(f, cs[..i])|, |f(cs[i])|);
    }
  }

  /** The body is the row blocks one after the other. */
  lemma {:induction false} BodyHtmlFlat(rows: seq<seq<Cell>>)
    ensures BodyHtml(rows) == FlatMap(RowBlock, rows)
  {
    if rows != [] {
      BodyHtmlFlat(rows[..|rows| - 1]);
      BodyHtmlSnoc(rows);
    }
  }

  /** Where the block of body row `i` starts: after two lines per row and one per cell before it. */
  function BodyOffset(rows: seq<seq<Cell>>, i: nat): nat
    requires i <= |rows|
  {
    CellCount(rows[..i]) + 2 * i
  }

  /** Body row `i` is one block: `<tr>`, the `<td>` line of each of its cells in order, `</tr>`. */
  lemma BodyHtmlRowAt(rows: seq<seq<Cell>>, i: nat)
    requires i < |rows|
    ensures BodyOffset(rows, i) + |rows[i]| + 2 <= |BodyHtml(rows)|
    ensures BodyHtml(rows)[BodyOffset(rows, i)..BodyOffset(rows, i) + |rows[i]| + 2] == RowBlock(rows[i])
  {
    FlatMapAt(RowBlock, rows, i);
    BodyHtmlFlat(rows);
    BodyHtmlFlat(rows[..i]);
    BodyHtmlCount(rows[..i]);
    SliceTransport(FlatMap(RowBlock, rows), |FlatMap(RowBlock, rows[..i])|, RowBlock(rows[i]),
      BodyHtml(rows), BodyOffset(rows, i), RowBlock(rows[i]));
  }

  /** Equal sequences sliced at equal places give the same slice. */
  lemma SliceTransport<T>(a: seq<T>, lo: nat, x: seq<T>, b: seq<T>, lo': nat, y: seq<T>)
    requires lo + |x| <= |a| && a[lo..lo + |x|] == x
    requires a == b && lo == lo' && x == y
    ensures lo' + |y| <= |b| && b[lo'..lo' + |y|] == y
  {
  }

  /** The lines before the body, or before `</table>` when there is no body. */
  function HeadBlock(head: seq<Cell>): (r: seq<string>)
    ensures |r| == |head| + 5
  {
    ["<table>"] + (["  <thead>", "    <tr>"] + HeadLines(head) + ["    </tr>", "  </thead>"])
  }

  /** The positions of `[t] + ([a, b] + h + [c, d])`. */
  lemma HeadFrameAt<T>(t: T, a: T, b: T, h: seq<T>, c: T, d: T)
    ensures var s := [t] + ([a, b] + h + [c, d]);
      s[0] == t && s[1] == a && s[2] == b && s[3 + |h|] == c && s[4 + |h|] == d
    ensures forall j :: 0 <= j < |h| ==> ([t] + ([a, b] + h + [c, d]))[3 + j] == h[j]
  {
  }

  /** The head block is `<table>`, `<thead>`, `<tr>`, one `<th>` line per cell in order, `</tr>`, `</thead>`. */
  lemma HeadBlockAt(head: seq<Cell>)
    ensures HeadBlock(head)[0] == "<table>" && HeadBlock(head)[1] == "  <thead>" && HeadBlock(head)[2] == "    <tr>"
    ensures forall j :: 0 <= j < |head| ==> HeadBlock(head)[3 + j] == HeadLine(head[j])
    ensures HeadBlock(head)[3 + |head|] == "    </tr>" && HeadBlock(head)[4 + |head|] == "  </thead>"
  {
    HeadLinesAt(head);
    HeadFrameAt("<table>", "  <thead>", "    <tr>", HeadLines(head), "    </tr>", "  </thead>");
  }

  lemma RegroupHead<T>(t: seq<T>, m: seq<T>, e: seq<T>)
    ensures t + (m + []) + e == (t + m) + e
  {
  }

  lemma RegroupBody<T>(t: seq<T>, m: seq<T>, o: seq<T>, b: seq<T>, c: seq<T>, e: seq<T>)
    ensures t + (m + (o + b + c)) + e == (t + m + o) + b + (c + e)
  {
  }

  /** The HTML of a table with at least one row is its head block, its body block, then `</table>`. */
  lemma TableHtmlSplit(rows: seq<seq<Cell>>)
    requires rows != []
    ensures |rows| == 1 ==> TableHtmlLines(rows) == HeadBlock(rows[0]) + ["</table>"]
    ensures |rows| > 1 ==>
      TableHtmlLines(rows) == (HeadBlock(rows[0]) + ["  <tbody>"]) + BodyHtml(rows[1..]) + (["  </tbody>"] + ["</table>"])
  {
    var mid := ["  <thead>", "    <tr>"] + HeadLines(rows[0]) + ["    </tr>", "  </thead>"];
    if |rows| == 1 {
      RegroupHead(["<table>"], mid, ["</table>"]);
    } else {
      RegroupBody(["<table>"], mid, ["  <tbody>"], BodyHtml(rows[1..]), ["  </tbody>"], ["</table>"]);
    }
  }

  /** The positions of `p + b + [c, e]` at either end. */
  lemma EndsAt<T>(p: seq<T>, b: seq<T>, c: T, e: T)
    ensures forall j :: 0 <= j < |p| ==> (p + b + [c, e])[j] == p[j]
    ensures (p + b + [c, e])[|p| + |b|] == c && (p + b + [c, e])[|p| + |b| + 1] == e
  {
  }

  /** The head row is written inside `<thead>`, one `<th>` line per cell in order. */
  lemma TableHtmlHead(rows: seq<seq<Cell>>)
    requires rows != []
    ensures 5 + |rows[0]| <= |TableHtmlLines(rows)|
    ensures TableHtmlLines(rows)[1] == "  <thead>" && TableHtmlLines(rows)[2] == "    <tr>"
    ensures forall j :: 0 <= j < |rows[0]| ==> TableHtmlLines(rows)[3 + j] == HeadLine(rows[0][j])
    ensures TableHtmlLines(rows)[3 + |rows[0]|] == "    </tr>" && TableHtmlLines(rows)[4 + |rows[0]|] == "  </thead>"
  {
    TableHtmlSplit(rows);
    HeadBlockAt(rows[0]);
    if |rows| > 1 {
      var pre := HeadBlock(rows[0]) + ["  <tbody>"];
      assert forall j :: 0 <= j < |HeadBlock(rows[0])| ==> pre[j] == HeadBlock(rows[0])[j];
    }
  }

  /** With more than one row, the rows after the head are written inside `<tbody>`. */
  lemma TableHtmlBody(rows: seq<seq<Cell>>)
    requires |rows| > 1
    ensures |TableHtmlLines(rows)| == 8 + |rows[0]| + CellCount(rows[1..]) + 2 * (|rows| - 1)
    ensures TableHtmlLines(rows)[5 + |rows[0]|] == "  <tbody>"
    ensures TableHtmlLines(rows)[|TableHtmlLines(rows)| - 2] == "  </tbody>"
  {
    var pre := HeadBlock(rows[0]) + ["  <tbody>"];
    TableHtmlSplit(rows);
    BodyHtmlCount(rows[1..]);
    EndsAt(pre, BodyHtml(rows[1..]), "  </tbody>", "</table>");
  }

  /**
   * The HTML table opens with `<table>` and closes with `</table>`; the
   * first row is the head, in `<thead>`, one `<th>` line per cell in
   * order; further rows are in `<tbody>`; each cell gives exactly one line.
   */
  lemma TableHtmlShape(rows: seq<seq<Cell>>)
    ensures TableHtmlLines(rows)[0] == "<table>"
    ensures TableHtmlLines(rows)[|TableHtmlLines(rows)| - 1] == "</table>"
    ensures rows == [] ==> |TableHtmlLines(rows)| == 2
    ensures |rows| == 1 ==> |TableHtmlLines(rows)| == 6 + |rows[0]|
    ensures |rows| > 1 ==> |TableHtmlLines(rows)| == 8 + |rows[0]| + CellCount(rows[1..]) + 2 * (|rows| - 1)
    ensures rows != [] ==> TableHtmlLines(rows)[1] == "  <thead>" && TableHtmlLines(rows)[2] == "    <tr>"
    ensures rows != [] ==> forall j :: 0 <= j < |rows[0]| ==> TableHtmlLines(rows)[3 + j] == HeadLine(rows[0][j])
    ensures rows != [] ==> TableHtmlLines(rows)[3 + |rows[0]|] == "    </tr>" && TableHtmlLines(rows)[4 + |rows[0]|] == "  </thead>"
    ensures |rows| > 1 ==> TableHtmlLines(rows)[5 + |rows[0]|] == "  <tbody>"
    ensures |rows| > 1 ==> TableHtmlLines(rows)[|TableHtmlLines(rows)| - 2] == "  </tbody>"
  {
    if rows != [] {
      TableHtmlHead(rows);
      if |rows| > 1 {
        TableHtmlBody(rows);
      }
    }
  }

  method HeadCellsHtml(cells: seq<Cell>) returns (ls: seq<string>)
    ensures ls == HeadLines(cells)
  {
    ls := [];
    var j := 0;
    while j < |cells|
      invariant 0 <= j <= |cells|
      invariant ls == HeadLines(cells[..j])
    {
      assert cells[..j + 1][..j] == cells[..j];
      ls := ls + [HeadLine(cells[j])];
      j := j + 1;
    }
    assert cells[..j] == cells;
  }

  /** The `<td>` lines of one body row. */
  method DataCellsHtml(cells: seq<Cell>) returns (ls: seq<string>)
    ensures ls == DataLines(cells)
  {
    ls := [];
    var j := 0;
    while j < |cells|
      invariant 0 <= j <= |cells|
      invariant ls == DataLines(cells[..j])
    {
      assert cells[..j + 1][..j] == cells[..j];
      ls := ls + [DataLine(cells[j])];
      j := j + 1;
    }
    assert cells[..j] == cells;
  }

  method RenderTableHtml(rows: seq<seq<Cell>>) returns (lines: seq<string>)
    ensures lines == TableHtmlLines(rows)
  {
    if |rows| == 0 {
      return ["<table>"] + [] + ["</table>"];
    }
    var head := HeadCellsHtml(rows[0]);
    var body: seq<string> := [];
    if |rows| > 1 {
      var i := 1;
      while i < |rows|
        invariant 1 <= i <= |rows|
        invariant body == BodyHtml(rows[1..i])
      {
        assert rows[1..i + 1][..i - 1] == rows[1..i];
        var cellLines := DataCellsHtml(rows[i]);
        body := body + ["    <tr>"] + cellLines + ["    </tr>"];
        i := i + 1;
      }
      assert rows[1..i] == rows[1..];
      body := ["  <tbody>"] + body + ["  </tbody>"];
    }
    lines := ["<table>"] + (["  <thead>", "    <tr>"] + head + ["    </tr>", "  </thead>"] + body) + ["</table>"];
  }
}
