/**
 * PDFExtractor (services/pdf_extractor.py): turns the Document AI response
 * object into page records, table records, metadata and the raw text.  The
 * response here is the protobuf object itself (pixel vertices, per-layout
 * confidence), not the JSON form the Markdown converter reads, so it has
 * its own small data model.  The call to Document AI is a parameter.
 */
module Extractor {
  import opened Results
  import opened Text
  import opened Seqs

  // ---------------------------------------------------------------------------
  // The response object
  // ---------------------------------------------------------------------------

  datatype TextSegment = TextSegment(startIndex: int, endIndex: int)

  datatype Vertex = Vertex(x: int, y: int)

  /**
   * `layout`: the segments of its text anchor (an anchor that is missing
   * and one with no segments both read as the empty list), its confidence
   * when the object has one, and the vertices of its bounding polygon.
   */
  datatype Layout = Layout(anchor: seq<TextSegment>, confidence: Option<real>, vertices: seq<Vertex>)

  datatype Paragraph = Paragraph(layout: Layout)

  datatype TableCell = TableCell(layout: Layout)

  datatype TableRow = TableRow(cells: seq<TableCell>)

  datatype Table = Table(layout: Layout, headerRows: seq<TableRow>, bodyRows: seq<TableRow>)

  datatype DocPage = DocPage(paragraphs: seq<Paragraph>, tables: seq<Table>)

  datatype Document = Document(text: string, pages: seq<DocPage>)

  // ---------------------------------------------------------------------------
  // The extracted records
  // ---------------------------------------------------------------------------

  datatype BoundingBox = BoundingBox(x1: int, y1: int, x2: int, y2: int)

  datatype TextElement = TextElement(text: string, confidence: real, bbox: BoundingBox)

  datatype PageRecord = PageRecord(pageNumber: nat, text: string, elements: seq<TextElement>,
                                   wordCount: nat, confidence: real)

  datatype TableData = TableData(rows: seq<seq<string>>, headers: seq<string>, confidence: real)

  datatype TableRecord = TableRecord(tableId: string, pageNumber: nat, tableNumber: nat,
                                     data: seq<seq<string>>, headers: seq<string>, confidence: real,
                                     bbox: BoundingBox, rowCount: nat, columnCount: nat)

  datatype TextResult = TextResult(pages: seq<PageRecord>, rawText: string)

  datatype Metadata = Metadata(totalPages: nat, totalTables: nat, extractionMethod: string, confidence: real)

  datatype ExtractionResult = ExtractionResult(pages: seq<PageRecord>, tables: seq<TableRecord>,
                                               metadata: Metadata, rawText: string)

  const ExtractionMethod := "google_document_ai"

  /** _calculate_overall_confidence: a constant. */
  const OverallConfidence := 0.95

  /** The confidence _parse_table gives every table. */
  const TableConfidence := 0.9

  /** The confidence of a paragraph whose layout has none. */
  const DefaultConfidence := 1.0

  const ProcessingFailed := "Document AI processing failed"

  // ---------------------------------------------------------------------------
  // Layout helpers
  // ---------------------------------------------------------------------------

  /**
   * _get_text_from_layout: the document text between the bounds of the
   * first segment, with Python's slice clamping; "" without a segment.
   */
  function LayoutText(l: Layout, text: string): (r: string)
    ensures |r| <= |text|
    ensures l.anchor == [] ==> r == ""
  {
    if l.anchor == [] then "" else PySlice(text, l.anchor[0].startIndex, l.anchor[0].endIndex)
  }

  /** Only the first segment is read; a segment inside the text gives exactly its slice. */
  lemma LayoutTextFirstSegment(g: TextSegment, rest: seq<TextSegment>, l: Layout, text: string)
    requires l.anchor != [] && l.anchor[0] == g
    ensures LayoutText(l, text) == LayoutText(l.(anchor := [g] + rest), text)
    ensures 0 <= g.startIndex <= g.endIndex <= |text| ==> LayoutText(l, text) == text[g.startIndex..g.endIndex]
  {
  }

  /** _get_bounding_box: vertex 0 and, when there is one, vertex 2 as the opposite corner. */
  function BoundingBoxOf(vs: seq<Vertex>): BoundingBox {
    if vs == [] then BoundingBox(0, 0, 0, 0)
    else if |vs| > 2 then BoundingBox(vs[0].x, vs[0].y, vs[2].x, vs[2].y)
    else BoundingBox(vs[0].x, vs[0].y, vs[0].x, vs[0].y)
  }

  /** The four corners of an axis-aligned rectangle, clockwise from the top left. */
  predicate IsRectangle(vs: seq<Vertex>) {
    |vs| == 4 && vs[0].x <= vs[1].x && vs[0].y <= vs[3].y
    && vs[1] == Vertex(vs[1].x, vs[0].y) && vs[2] == Vertex(vs[1].x, vs[3].y) && vs[3] == Vertex(vs[0].x, vs[3].y)
  }

  predicate InBox(b: BoundingBox, v: Vertex) {
    b.x1 <= v.x <= b.x2 && b.y1 <= v.y <= b.y2
  }

  /**
   * For the rectangles Document AI reports, the box encloses every vertex;
   * a polygon of fewer than three vertices gives a box of zero size.
   */
  lemma BoundingBoxEncloses(vs: seq<Vertex>)
    ensures IsRectangle(vs) ==> forall i :: 0 <= i < |vs| ==> InBox(BoundingBoxOf(vs), vs[i])
    ensures |vs| < 3 ==> BoundingBoxOf(vs).x1 == BoundingBoxOf(vs).x2 && BoundingBoxOf(vs).y1 == BoundingBoxOf(vs).y2
  {
  }

  // ---------------------------------------------------------------------------
  // Page confidence
  // ---------------------------------------------------------------------------

  function ConfidenceSum(els: seq<TextElement>): real {
    if els == [] then 0.0 else ConfidenceSum(els[..|els| - 1]) + els[|els| - 1].confidence
  }

  /** _calculate_page_confidence: the mean confidence of the elements, 0.0 for none. */
  function PageConfidence(els: seq<TextElement>): real {
    if els == [] then 0.0 else ConfidenceSum(els) / (|els| as real)
  }

  predicate ConfidencesWithin(els: seq<TextElement>, lo: real, hi: real) {
    forall i :: 0 <= i < |els| ==> lo <= els[i].confidence <= hi
  }

  lemma {:induction false} ConfidenceSumBounds(els: seq<TextElement>, lo: real, hi: real)
    requires ConfidencesWithin(els, lo, hi)
    ensures lo * (|els| as real) <= ConfidenceSum(els) <= hi * (|els| as real)
  {
    if els != [] {
      var init := els[..|els| - 1];
      assert ConfidencesWithin(init, lo, hi) by {
        forall i | 0 <= i < |init| ensures lo <= init[i].confidence <= hi {
          assert init[i] == els[i];
        }
      }
      ConfidenceSumBounds(init, lo, hi);
      assert lo * (|els| as real) == lo * (|init| as real) + lo;
      assert hi * (|els| as real) == hi * (|init| as real) + hi;
    }
  }

  /** The mean lies between the least and the greatest confidence. */
  lemma PageConfidenceBounds(els: seq<TextElement>, lo: real, hi: real)
    requires els != [] && ConfidencesWithin(els, lo, hi)
    ensures lo <= PageConfidence(els) <= hi
  {
    ConfidenceSumBounds(els, lo, hi);
    var n := |els| as real;
    assert PageConfidence(els) * n == ConfidenceSum(els);
  }

  // ---------------------------------------------------------------------------
  // Text extraction, as functions
  // ---------------------------------------------------------------------------

  /** A paragraph is kept when its text is not blank. */
  predicate Kept(p: Paragraph, text: string) {
    Strip(LayoutText(p.layout, text)) != ""
  }

  function ElementOf(p: Paragraph, text: string): TextElement {
    TextElement(Strip(LayoutText(p.layout, text)), p.layout.confidence.GetOr(DefaultConfidence),
                BoundingBoxOf(p.layout.vertices))
  }

  /** The page text: each kept paragraph's text followed by a line break. */
  function PageText(ps: seq<Paragraph>, text: string): string {
    if ps == [] then ""
    else
      var p := ps[|ps| - 1];
      PageText(ps[..|ps| - 1], text) + (if Kept(p, text) then LayoutText(p.layout, text) + "\n" else "")
  }

  /** One text element per kept paragraph, in order. */
  function PageElements(ps: seq<Paragraph>, text: string): seq<TextElement> {
    if ps == [] then []
    else
      var p := ps[|ps| - 1];
      PageElements(ps[..|ps| - 1], text) + (if Kept(p, text) then [ElementOf(p, text)] else [])
  }

  function PageRecordOf(page: DocPage, pageNumber: nat, text: string): PageRecord {
    var pt := PageText(page.paragraphs, text);
    var els := PageElements(page.paragraphs, text);
    PageRecord(pageNumber, Strip(pt), els, |Words(pt)|, PageConfidence(els))
  }

  /** The page records, numbered from 1. */
  function PageRecords(pages: seq<DocPage>, text: string): (r: seq<PageRecord>)
    ensures |r| == |pages|
  {
    if pages == [] then []
    else PageRecords(pages[..|pages| - 1], text) + [PageRecordOf(pages[|pages| - 1], |pages|, text)]
  }

  function PageTexts(recs: seq<PageRecord>): (r: seq<string>)
    ensures |r| == |recs|
  {
    if recs == [] then [] else PageTexts(recs[..|recs| - 1]) + [recs[|recs| - 1].text]
  }

  /** _extract_text_from_document. */
  function TextResultOf(doc: Document): TextResult {
    var recs := PageRecords(doc.pages, doc.text);
    TextResult(recs, Join("\n\n", PageTexts(recs)))
  }

  // ---------------------------------------------------------------------------
  // Text extraction, as the source's loops
  // ---------------------------------------------------------------------------

  /** The paragraph loop of _extract_text_from_document. */
  method ExtractPageText(ps: seq<Paragraph>, text: string) returns (pageText: string, elements: seq<TextElement>)
    ensures pageText == PageText(ps, text)
    ensures elements == PageElements(ps, text)
  {
    pageText, elements := "", [];
    var i := 0;
    while i < |ps|
      invariant 0 <= i <= |ps|
      invariant pageText == PageText(ps[..i], text)
      invariant elements == PageElements(ps[..i], text)
    {
      var p := ps[i];
      var paragraphText := LayoutText(p.layout, text);
      if Strip(paragraphText) != "" {
        pageText := pageText + paragraphText + "\n";
        elements := elements + [TextElement(Strip(paragraphText), p.layout.confidence.GetOr(DefaultConfidence),
                                            BoundingBoxOf(p.layout.vertices))];
      }
      assert ps[..i + 1][..i] == ps[..i];
      i := i + 1;
    }
    assert ps[..i] == ps;
  }

  /** _extract_text_from_document: the page loop. */
  method ExtractText(doc: Document) returns (r: TextResult)
    ensures r == TextResultOf(doc)
  {
    var pagesData: seq<PageRecord> := [];
    var allText: seq<string> := [];
    var i := 0;
    while i < |doc.pages|
      invariant 0 <= i <= |doc.pages|
      invariant pagesData == PageRecords(doc.pages[..i], doc.text)
      invariant allText == PageTexts(pagesData)
    {
      var pageText, elements := ExtractPageText(doc.pages[i].paragraphs, doc.text);
      var pageData := PageRecord(i + 1, Strip(pageText), elements, |Words(pageText)|, PageConfidence(elements));
      assert doc.pages[..i + 1][..i] == doc.pages[..i];
      pagesData := pagesData + [pageData];
      allText := allText + [Strip(pageText)];
      assert pagesData[..|pagesData| - 1] == pagesData[..i];
      i := i + 1;
    }
    assert doc.pages[..i] == doc.pages;
    r := TextResult(pagesData, Join("\n\n", allText));
  }

  // ---------------------------------------------------------------------------
  // Properties of the text extraction
  // ---------------------------------------------------------------------------

  /** Page `i` of the response becomes record `i`, numbered `i + 1`. */
  lemma {:induction false} PageRecordsAt(pages: seq<DocPage>, text: string, i: nat)
    requires i < |pages|
    ensures PageRecords(pages, text)[i] == PageRecordOf(pages[i], i + 1, text)
    decreases |pages|
  {
    if i < |pages| - 1 {
      var init := pages[..|pages| - 1];
      PageRecordsAt(init, text, i);
      assert init[i] == pages[i];
    }
  }

  lemma {:induction false} PageTextsAt(recs: seq<PageRecord>, i: nat)
    requires i < |recs|
    ensures PageTexts(recs)[i] == recs[i].text
    decreases |recs|
  {
    if i < |recs| - 1 {
      PageTextsAt(recs[..|recs| - 1], i);
    }
  }

  predicate Trimmed(s: string) {
    s != [] && !IsSpace(s[0]) && !IsSpace(s[|s| - 1])
  }

  /** Every text element is non-blank and trimmed, and there are no more elements than paragraphs. */
  lemma {:induction false} ElementsTrimmed(ps: seq<Paragraph>, text: string)
    ensures |PageElements(ps, text)| <= |ps|
    ensures forall i :: 0 <= i < |PageElements(ps, text)| ==> Trimmed(PageElements(ps, text)[i].text)
  {
    if ps != [] {
      var init := ps[..|ps| - 1];
      ElementsTrimmed(init, text);
      var els := PageElements(ps, text);
      forall i | 0 <= i < |els| ensures Trimmed(els[i].text) {
        if i < |PageElements(init, text)| {
          assert els[i] == PageElements(init, text)[i];
        }
      }
    }
  }

  /**
   * The raw text holds every page's stripped text, in page order, each at
   * its offset in the "\n\n" join.
   */
  lemma RawTextHoldsPages(doc: Document, i: nat)
    requires i < |doc.pages|
    ensures var r := TextResultOf(doc);
            var o := JoinOffset("\n\n", PageTexts(r.pages), i);
            i < |r.pages| && o + |r.pages[i].text| <= |r.rawText| && r.rawText[o..o + |r.pages[i].text|] == r.pages[i].text
  {
    var recs := PageRecords(doc.pages, doc.text);
    PageTextsAt(recs, i);
    JoinAt("\n\n", PageTexts(recs), i);
  }

  // ---------------------------------------------------------------------------
  // Tables, as functions
  // ---------------------------------------------------------------------------

  function CellText(c: TableCell, text: string): string {
    Strip(LayoutText(c.layout, text))
  }

  /** The stripped text of each cell of a row. */
  function RowTexts(cells: seq<TableCell>, text: string): (r: seq<string>)
    ensures |r| == |cells|
  {
    if cells == [] then [] else RowTexts(cells[..|cells| - 1], text) + [CellText(cells[|cells| - 1], text)]
  }

  lemma {:induction false} RowTextsAt(cells: seq<TableCell>, text: string, j: nat)
    requires j < |cells|
    ensures RowTexts(cells, text)[j] == CellText(cells[j], text)
    decreases |cells|
  {
    if j < |cells| - 1 {
      RowTextsAt(cells[..|cells| - 1], text, j);
    }
  }

  /** One list of cell texts per body row. */
  function BodyTexts(rows: seq<TableRow>, text: string): (r: seq<seq<string>>)
    ensures |r| == |rows|
    ensures forall i :: 0 <= i < |rows| ==> r[i] == RowTexts(rows[i].cells, text)
  {
    if rows == [] then [] else BodyTexts(rows[..|rows| - 1], text) + [RowTexts(rows[|rows| - 1].cells, text)]
  }

  function CellCount(rows: seq<TableRow>): nat {
    if rows == [] then 0 else CellCount(rows[..|rows| - 1]) + |rows[|rows| - 1].cells|
  }

  /** The header rows flattened into one list of cell texts. */
  function HeaderTexts(rows: seq<TableRow>, text: string): (r: seq<string>)
    ensures |r| == CellCount(rows)
  {
    if rows == [] then [] else HeaderTexts(rows[..|rows| - 1], text) + RowTexts(rows[|rows| - 1].cells, text)
  }

  /** _parse_table. */
  function TableDataOf(t: Table, text: string): TableData {
    TableData(BodyTexts(t.bodyRows, text), HeaderTexts(t.headerRows, text), TableConfidence)
  }

  function TableId(pageNumber: nat, tableNumber: nat): string {
    "page_" + NatToString(pageNumber) + "_table_" + NatToString(tableNumber)
  }

  function TableRecordOf(t: Table, pageNumber: nat, tableNumber: nat, text: string): TableRecord {
    var d := TableDataOf(t, text);
    TableRecord(TableId(pageNumber, tableNumber), pageNumber, tableNumber, d.rows, d.headers, d.confidence,
                BoundingBoxOf(t.layout.vertices), |d.rows|, if d.headers != [] then |d.headers| else 0)
  }

  /** The records of one page's tables, numbered from 1. */
  function PageTableRecords(tables: seq<Table>, pageNumber: nat, text: string): (r: seq<TableRecord>)
    ensures |r| == |tables|
  {
    if tables == [] then []
    else PageTableRecords(tables[..|tables| - 1], pageNumber, text)
         + [TableRecordOf(tables[|tables| - 1], pageNumber, |tables|, text)]
  }

  /** _extract_tables_from_document. */
  function TableRecords(pages: seq<DocPage>, text: string): seq<TableRecord> {
    if pages == [] then []
    else TableRecords(pages[..|pages| - 1], text) + PageTableRecords(pages[|pages| - 1].tables, |pages|, text)
  }

  function TableCount(pages: seq<DocPage>): nat {
    if pages == [] then 0 else TableCount(pages[..|pages| - 1]) + |pages[|pages| - 1].tables|
  }

  // ---------------------------------------------------------------------------
  // Tables, as the source's loops
  // ---------------------------------------------------------------------------

  /** The cell loop of _parse_table. */
  method ParseRow(cells: seq<TableCell>, text: string) returns (row: seq<string>)
    ensures row == RowTexts(cells, text)
  {
    row := [];
    var j := 0;
    while j < |cells|
      invariant 0 <= j <= |cells|
      invariant row == RowTexts(cells[..j], text)
    {
      var cellText := LayoutText(cells[j].layout, text);
      assert cells[..j + 1][..j] == cells[..j];
      row := row + [Strip(cellText)];
      j := j + 1;
    }
    assert cells[..j] == cells;
  }

  /** The body-row loop of _parse_table. */
  method ParseBodyRows(rowsIn: seq<TableRow>, text: string) returns (rows: seq<seq<string>>)
    ensures rows == BodyTexts(rowsIn, text)
  {
    rows := [];
    var i := 0;
    while i < |rowsIn|
      invariant 0 <= i <= |rowsIn|
      invariant rows == BodyTexts(rowsIn[..i], text)
    {
      var rowData := ParseRow(rowsIn[i].cells, text);
      assert rowsIn[..i + 1][..i] == rowsIn[..i];
      rows := rows + [rowData];
      i := i + 1;
    }
    assert rowsIn[..i] == rowsIn;
  }

  /** The header-row loop of _parse_table: each row's cells extend one flat list. */
  method ParseHeaderRows(rowsIn: seq<TableRow>, text: string) returns (headers: seq<string>)
    ensures headers == HeaderTexts(rowsIn, text)
  {
    headers := [];
    var k := 0;
    while k < |rowsIn|
      invariant 0 <= k <= |rowsIn|
      invariant headers == HeaderTexts(rowsIn[..k], text)
    {
      var headerRow := ParseRow(rowsIn[k].cells, text);
      assert rowsIn[..k + 1][..k] == rowsIn[..k];
      headers := headers + headerRow;
      k := k + 1;
    }
    assert rowsIn[..k] == rowsIn;
  }

  /** _parse_table: the body rows, then the header rows flattened. */
  method ParseTable(t: Table, text: string) returns (d: TableData)
    ensures d == TableDataOf(t, text)
  {
    var rows := ParseBodyRows(t.bodyRows, text);
    var headers: seq<string> := [];
    if t.headerRows != [] {
      headers := ParseHeaderRows(t.headerRows, text);
    }
    d := TableData(rows, headers, TableConfidence);
  }

  /** The table loop of _extract_tables_from_document for one page. */
  method ExtractPageTables(tables: seq<Table>, pageNumber: nat, text: string) returns (r: seq<TableRecord>)
    ensures r == PageTableRecords(tables, pageNumber, text)
  {
    r := [];
    var t := 0;
    while t < |tables|
      invariant 0 <= t <= |tables|
      invariant r == PageTableRecords(tables[..t], pageNumber, text)
    {
      var tableData := ParseTable(tables[t], text);
      var info := TableRecord(TableId(pageNumber, t + 1), pageNumber, t + 1, tableData.rows, tableData.headers,
                              tableData.confidence, BoundingBoxOf(tables[t].layout.vertices), |tableData.rows|,
                              if tableData.headers != [] then |tableData.headers| else 0);
      assert tables[..t + 1][..t] == tables[..t];
      r := r + [info];
      t := t + 1;
    }
    assert tables[..t] == tables;
  }

  /** _extract_tables_from_document: the page loop. */
  method ExtractTables(doc: Document) returns (tables: seq<TableRecord>)
    ensures tables == TableRecords(doc.pages, doc.text)
  {
    tables := [];
    var p := 0;
    while p < |doc.pages|
      invariant 0 <= p <= |doc.pages|
      invariant tables == TableRecords(doc.pages[..p], doc.text)
    {
      var pageTables := ExtractPageTables(doc.pages[p].tables, p + 1, doc.text);
      TableRecordsSnoc(doc.pages, doc.text, p);
      tables := tables + pageTables;
      p := p + 1;
    }
    assert doc.pages[..p] == doc.pages;
  }

  lemma TableRecordsSnoc(pages: seq<DocPage>, text: string, p: nat)
    requires p < |pages|
    ensures TableRecords(pages[..p + 1], text) == TableRecords(pages[..p], text) + PageTableRecords(pages[p].tables, p + 1, text)
  {
    assert pages[..p + 1][..p] == pages[..p];
  }

  // ---------------------------------------------------------------------------
  // Properties of the table extraction
  // ---------------------------------------------------------------------------

  /** Body row `i` yields data row `i`, one stripped text per cell; headers count every header cell. */
  lemma TableDataShape(t: Table, text: string, i: nat, j: nat)
    requires i < |t.bodyRows| && j < |t.bodyRows[i].cells|
    ensures var d := TableDataOf(t, text);
            |d.rows| == |t.bodyRows| && |d.headers| == CellCount(t.headerRows)
            && |d.rows[i]| == |t.bodyRows[i].cells| && d.rows[i][j] == CellText(t.bodyRows[i].cells[j], text)
  {
    RowTextsAt(t.bodyRows[i].cells, text, j);
  }

  /** A table record's fields agree with each other. */
  predicate Consistent(r: TableRecord) {
    r.tableId == TableId(r.pageNumber, r.tableNumber) && r.rowCount == |r.data| && r.columnCount == |r.headers|
    && r.tableNumber >= 1
  }

  lemma {:induction false} PageTableRecordsConsistent(tables: seq<Table>, pageNumber: nat, text: string)
    ensures forall k :: 0 <= k < |tables| ==>
              Consistent(PageTableRecords(tables, pageNumber, text)[k])
              && PageTableRecords(tables, pageNumber, text)[k].pageNumber == pageNumber
              && PageTableRecords(tables, pageNumber, text)[k].tableNumber == k + 1
  {
    if tables != [] {
      PageTableRecordsConsistent(tables[..|tables| - 1], pageNumber, text);
    }
  }

  /** Records are ordered by page, then by table within the page. */
  predicate Ascending(recs: seq<TableRecord>) {
    forall i, j :: 0 <= i < j < |recs| ==>
      recs[i].pageNumber < recs[j].pageNumber
      || (recs[i].pageNumber == recs[j].pageNumber && recs[i].tableNumber < recs[j].tableNumber)
  }

  predicate PagesUpTo(recs: seq<TableRecord>, n: nat) {
    forall i :: 0 <= i < |recs| ==> 1 <= recs[i].pageNumber <= n
  }

  /** Every record is consistent, the records ascend and their page numbers name pages of the document. */
  lemma {:induction false} TableRecordsShape(pages: seq<DocPage>, text: string)
    ensures |TableRecords(pages, text)| == TableCount(pages)
    ensures forall k :: 0 <= k < |TableRecords(pages, text)| ==> Consistent(TableRecords(pages, text)[k])
    ensures Ascending(TableRecords(pages, text))
    ensures PagesUpTo(TableRecords(pages, text), |pages|)
  {
    TableRecordsCount(pages, text);
    TableRecordsConsistent(pages, text);
    TableRecordsAscending(pages, text);
  }

  lemma {:induction false} TableRecordsCount(pages: seq<DocPage>, text: string)
    ensures |TableRecords(pages, text)| == TableCount(pages)
  {
    if pages != [] {
      TableRecordsCount(pages[..|pages| - 1], text);
    }
  }

  lemma {:induction false} TableRecordsConsistent(pages: seq<DocPage>, text: string)
    ensures forall k :: 0 <= k < |TableRecords(pages, text)| ==> Consistent(TableRecords(pages, text)[k])
  {
    if pages != [] {
      var init := pages[..|pages| - 1];
      var n := |pages|;
      var a := TableRecords(init, text);
      var b := PageTableRecords(pages[n - 1].tables, n, text);
      TableRecordsConsistent(init, text);
      PageTableRecordsConsistent(pages[n - 1].tables, n, text);
      var r := a + b;
      assert r == TableRecords(pages, text);
      forall k | 0 <= k < |r| ensures Consistent(r[k]) {
        if k < |a| { assert r[k] == a[k]; } else { assert r[k] == b[k - |a|]; }
      }
    }
  }

  lemma {:induction false} PageTableRecordsNumbered(tables: seq<Table>, pageNumber: nat, text: string)
    ensures forall k :: 0 <= k < |tables| ==>
              PageTableRecords(tables, pageNumber, text)[k].pageNumber == pageNumber
              && PageTableRecords(tables, pageNumber, text)[k].tableNumber == k + 1
  {
    if tables != [] {
      PageTableRecordsNumbered(tables[..|tables| - 1], pageNumber, text);
    }
  }

  lemma {:induction false} TableRecordsAscending(pages: seq<DocPage>, text: string)
    ensures Ascending(TableRecords(pages, text))
    ensures PagesUpTo(TableRecords(pages, text), |pages|)
  {
    if pages != [] {
      var init := pages[..|pages| - 1];
      var n := |pages|;
      TableRecordsAscending(init, text);
      PageTableRecordsNumbered(pages[n - 1].tables, n, text);
      AscendingConcat(TableRecords(init, text), PageTableRecords(pages[n - 1].tables, n, text), n);
    }
  }

  /** The tables of page `n`, numbered 1, 2, ..., after those of the pages before it keep the records ascending. */
  lemma AscendingConcat(a: seq<TableRecord>, b: seq<TableRecord>, n: nat)
    requires n >= 1 && Ascending(a) && PagesUpTo(a, n - 1)
    requires forall k :: 0 <= k < |b| ==> b[k].pageNumber == n && b[k].tableNumber == k + 1
    ensures Ascending(a + b) && PagesUpTo(a + b, n)
  {
    var r := a + b;
    forall k | 0 <= k < |r| ensures 1 <= r[k].pageNumber <= n {
      if k < |a| { assert r[k] == a[k]; } else { assert r[k] == b[k - |a|]; }
    }
    forall i, j | 0 <= i < j < |r|
      ensures r[i].pageNumber < r[j].pageNumber
              || (r[i].pageNumber == r[j].pageNumber && r[i].tableNumber < r[j].tableNumber)
    {
      if j < |a| {
        assert r[i] == a[i] && r[j] == a[j];
      } else if i < |a| {
        assert r[i] == a[i] && r[j] == b[j - |a|];
      } else {
        assert r[i] == b[i - |a|] && r[j] == b[j - |a|];
      }
    }
  }

  /** Two different (page, table) pairs never share a table id. */
  lemma TableIdInjective(p1: nat, t1: nat, p2: nat, t2: nat)
    requires TableId(p1, t1) == TableId(p2, t2)
    ensures p1 == p2 && t1 == t2
  {
    var d1, d2 := NatToString(p1), NatToString(p2);
    var x1, x2 := "_table_" + NatToString(t1), "_table_" + NatToString(t2);
    var s1, s2 := "page_" + (d1 + x1), "page_" + (d2 + x2);
    assert s1 == TableId(p1, t1) && s2 == TableId(p2, t2);
    assert s1[5..] == d1 + x1 && s2[5..] == d2 + x2;
    DigitsPrefix(d1, d2, x1, x2);
    NatToStringInjective(p1, p2);
    assert NatToString(t1) == x1[7..] && NatToString(t2) == x2[7..];
    NatToStringInjective(t1, t2);
  }

  /** No two table records of a document share an id. */
  lemma TableIdsUnique(pages: seq<DocPage>, text: string, i: nat, j: nat)
    requires i < j < |TableRecords(pages, text)|
    ensures TableRecords(pages, text)[i].tableId != TableRecords(pages, text)[j].tableId
  {
    var r := TableRecords(pages, text);
    TableRecordsShape(pages, text);
    assert Consistent(r[i]) && Consistent(r[j]);
    if r[i].tableId == r[j].tableId {
      TableIdInjective(r[i].pageNumber, r[i].tableNumber, r[j].pageNumber, r[j].tableNumber);
    }
  }

  // ---------------------------------------------------------------------------
  // The response and the entry point
  // ---------------------------------------------------------------------------

  /** _parse_document_ai_response. */
  function ResultOf(doc: Document): ExtractionResult {
    var tr := TextResultOf(doc);
    var tables := TableRecords(doc.pages, doc.text);
    ExtractionResult(tr.pages, tables, Metadata(|doc.pages|, |tables|, ExtractionMethod, OverallConfidence), tr.rawText)
  }

  method ParseResponse(doc: Document) returns (r: ExtractionResult)
    ensures r == ResultOf(doc)
  {
    var textResult := ExtractText(doc);
    var tables := ExtractTables(doc);
    r := ExtractionResult(textResult.pages, tables,
                          Metadata(|doc.pages|, |tables|, ExtractionMethod, OverallConfidence), textResult.rawText);
  }

  /** The metadata counts agree with the records: one page record per page, every table once. */
  lemma ResultCounts(doc: Document)
    ensures var r := ResultOf(doc);
            r.metadata.totalPages == |r.pages| == |doc.pages|
            && r.metadata.totalTables == |r.tables| == TableCount(doc.pages)
  {
    TableRecordsShape(doc.pages, doc.text);
  }

  /**
   * extract_from_pdf: `process` stands for _process_with_document_ai, which
   * answers None when the service call fails.
   */
  method ExtractFromPdf(process: string -> Option<Document>, pdfPath: string) returns (r: Result<ExtractionResult>)
    ensures process(pdfPath).None? <==> r.Err?
    ensures r.Err? ==> r.error == ProcessingFailed
    ensures r.Ok? ==> r.value == ResultOf(process(pdfPath).value)
  {
    var document := process(pdfPath);
    if document.None? {
      return Err(ProcessingFailed);
    }
    var result := ParseResponse(document.value);
    return Ok(result);
  }
}
