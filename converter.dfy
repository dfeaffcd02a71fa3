/**
 * convert_document_ai_to_markdown: the title line, then per page a header,
 * the page's items in reading order rendered as Markdown (text blocks,
 * key-value tables, tables as Markdown or HTML), and an optional separator
 * between pages; the lines are joined with line feeds.
 */
module Converter {
  import opened Results
  import opened Text
  import opened Segments
  import opened Geometry
  import opened DocLayout
  import opened MarkdownText
  import opened Tables
  import opened FormFields
  import opened PageItems
  import opened Sorting
  import opened Seqs

  /** The keyword arguments of the converter. */
  datatype Options = Options(kvRowThreshold: real, colGapThreshold: real, includeKvHeader: bool,
                             labelTables: bool, pageSep: bool, headerHeuristics: bool, debugSpans: bool)

  const DefaultOptions := Options(0.018, 0.18, true, false, false, true, false)

  /**
   * The parts of a Document AI document the converter reads: the schema's
   * display name ("" when the schema or the name is absent), the full text
   * and the pages.
   */
  datatype DocAiDocument = DocAiDocument(displayName: string, text: string, pages: seq<Page>)

  const PageSeparator := "\n---\n"

  const KvHeader := ["| Field | Value |", "|---|---|"]

  // ---------------------------------------------------------------------------
  // The Markdown lines, as functions
  // ---------------------------------------------------------------------------

  /** An empty display name falls back to "Document". */
  function Title(doc: DocAiDocument): string {
    if doc.displayName == "" then "Document" else doc.displayName
  }

  function TitleLine(doc: DocAiDocument): string {
    "# " + EscapeMd(Title(doc)) + "\n"
  }

  function PageHeader(p: nat): string {
    "\n## Page " + NatToString(p) + "\n"
  }

  function DebugLines(segs: seq<Segment>, opts: Options): seq<string> {
    if opts.debugSpans then [SpansComment(segs)] else []
  }

  /** A text item: its rendered lines joined, with a final line feed. */
  function TextLine(text: string, headerHeuristics: bool): string {
    Join("\n", RenderLines(SplitLines(text), headerHeuristics)) + "\n"
  }

  function KvRowLine(row: (string, string)): string {
    "| " + EscapeMd(row.0) + " | " + EscapeMd(row.1) + " |"
  }

  function KvRowLines(rows: seq<(string, string)>): (r: seq<string>)
    ensures |r| == |rows|
  {
    if rows == [] then [] else KvRowLines(rows[..|rows| - 1]) + [KvRowLine(rows[|rows| - 1])]
  }

  function TableLines(t: Renderable): seq<string> {
    if t.anySpan then TableHtmlLines(t.rows) else TableMdLines(t.rows)
  }

  function TextItemLines(text: string, segs: seq<Segment>, opts: Options): seq<string> {
    [TextLine(text, opts.headerHeuristics)] + DebugLines(segs, opts)
  }

  /** A key-value group without rows contributes no line. */
  function KvItemLines(g: Group, opts: Options): seq<string> {
    if g.rows == [] then []
    else (if opts.includeKvHeader then KvHeader else []) + KvRowLines(g.rows) + [""] + DebugLines(g.segs, opts)
  }

  function TableItemLines(t: Renderable, opts: Options): seq<string> {
    (if opts.labelTables then ["### Table"] else []) + TableLines(t) + [""] + DebugLines(t.segs, opts)
  }

  /** The lines one item contributes. */
  function ItemLines(it: Item, opts: Options): seq<string> {
    match it
    case TextItem(text, _, segs) => TextItemLines(text, segs, opts)
    case KvItem(g) => KvItemLines(g, opts)
    case TableItem(t, _) => TableItemLines(t, opts)
  }

  function ItemsLines(items: seq<Item>, opts: Options): seq<string> {
    if items == [] then [] else ItemsLines(items[..|items| - 1], opts) + ItemLines(items[|items| - 1], opts)
  }

  /** The items of a page in their final order. */
  function OrderedPageItems(page: Page, fullText: string, opts: Options): seq<Item> {
    OrderItems(PageItemsOf(page, fullText, opts.kvRowThreshold), opts.colGapThreshold)
  }

  /** Page `p` of `n`: header, items, and the separator when asked for and not on the last page. */
  function PageLines(items: seq<Item>, p: nat, n: nat, opts: Options): seq<string> {
    [PageHeader(p)] + ItemsLines(items, opts) + (if opts.pageSep && p < n then [PageSeparator] else [])
  }

  /** The ordered items of each page. */
  function PagesItems(pages: seq<Page>, fullText: string, opts: Options): (r: seq<seq<Item>>)
    ensures |r| == |pages|
  {
    if pages == [] then []
    else PagesItems(pages[..|pages| - 1], fullText, opts) + [OrderedPageItems(pages[|pages| - 1], fullText, opts)]
  }

  /** The lines of the first `|pagesItems|` pages of a document of `n` pages. */
  function PagesLines(pagesItems: seq<seq<Item>>, n: nat, opts: Options): seq<string> {
    if pagesItems == [] then []
    else PagesLines(pagesItems[..|pagesItems| - 1], n, opts) + PageLines(pagesItems[|pagesItems| - 1], |pagesItems|, n, opts)
  }

  function DocLines(doc: DocAiDocument, opts: Options): seq<string> {
    [TitleLine(doc)] + PagesLines(PagesItems(doc.pages, doc.text, opts), |doc.pages|, opts)
  }

  /** The converter's result. */
  function Markdown(doc: DocAiDocument, opts: Options): string {
    Join("\n", DocLines(doc, opts))
  }

  // ---------------------------------------------------------------------------
  // The rendering loops
  // ---------------------------------------------------------------------------

  lemma KvRowLinesSnoc(rows: seq<(string, string)>, i: nat)
    requires i < |rows|
    ensures KvRowLines(rows[..i + 1]) == KvRowLines(rows[..i]) + [KvRowLine(rows[i])]
  {
    assert rows[..i + 1][..i] == rows[..i];
  }

  /** The row loop of a key-value group. */
  method RenderKvRows(rows: seq<(string, string)>) returns (lines: seq<string>)
    ensures lines == KvRowLines(rows)
  {
    lines := [];
    var i := 0;
    while i < |rows|
      invariant 0 <= i <= |rows|
      invariant lines == KvRowLines(rows[..i])
    {
      KvRowLinesSnoc(rows, i);
      var (k, v) := rows[i];
      lines := lines + ["| " + EscapeMd(k) + " | " + EscapeMd(v) + " |"];
      i := i + 1;
    }
    TakeAll(rows);
  }

  /** One item of the render loop. */
  method RenderItem(it: Item, opts: Options) returns (lines: seq<string>)
    ensures lines == ItemLines(it, opts)
  {
    match it
    case TextItem(text, _, segs) =>
      lines := RenderTextItem(text, segs, opts);
    case KvItem(g) =>
      lines := RenderKvItem(g, opts);
    case TableItem(t, _) =>
      lines := RenderTableItem(t, opts);
  }

  method RenderTextItem(text: string, segs: seq<Segment>, opts: Options) returns (lines: seq<string>)
    ensures lines == TextItemLines(text, segs, opts)
  {
    var outLines := RenderTextLines(text, opts.headerHeuristics);
    lines := [Join("\n", outLines) + "\n"];
    if opts.debugSpans {
      lines := lines + [SpansComment(segs)];
    }
  }

  method RenderKvItem(g: Group, opts: Options) returns (lines: seq<string>)
    ensures lines == KvItemLines(g, opts)
  {
    if g.rows == [] {
      return [];
    }
    var header: seq<string> := [];
    if opts.includeKvHeader {
      header := KvHeader;
    }
    var rowLines := RenderKvRows(g.rows);
    lines := header + rowLines + [""];
    if opts.debugSpans {
      lines := lines + [SpansComment(g.segs)];
    }
  }

  method RenderTableItem(t: Renderable, opts: Options) returns (lines: seq<string>)
    ensures lines == TableItemLines(t, opts)
  {
    var heading: seq<string> := [];
    if opts.labelTables {
      heading := ["### Table"];
    }
    var tableLines;
    if t.anySpan {
      tableLines := RenderTableHtml(t.rows);
    } else {
      tableLines := RenderTableMd(t.rows);
    }
    lines := heading + tableLines + [""];
    if opts.debugSpans {
      lines := lines + [SpansComment(t.segs)];
    }
  }

  lemma ItemsLinesSnoc(items: seq<Item>, opts: Options, i: nat)
    requires i < |items|
    ensures ItemsLines(items[..i + 1], opts) == ItemsLines(items[..i], opts) + ItemLines(items[i], opts)
  {
    assert items[..i + 1][..i] == items[..i];
  }

  /** The render loop of a page. */
  method RenderItems(items: seq<Item>, opts: Options) returns (lines: seq<string>)
    ensures lines == ItemsLines(items, opts)
  {
    lines := [];
    var i := 0;
    while i < |items|
      invariant 0 <= i <= |items|
      invariant lines == ItemsLines(items[..i], opts)
    {
      ItemsLinesSnoc(items, opts, i);
      var itemLines := RenderItem(items[i], opts);
      lines := lines + itemLines;
      i := i + 1;
    }
    TakeAll(items);
  }

  /** One iteration of the page loop: collect, order and render page `p` of `n`. */
  method RenderPage(page: Page, p: nat, n: nat, fullText: string, opts: Options) returns (lines: seq<string>)
    ensures lines == PageLines(OrderedPageItems(page, fullText, opts), p, n, opts)
  {
    var items := AssemblePage(page, fullText, opts.kvRowThreshold);
    items := SortItems(items, opts.colGapThreshold);
    lines := [PageHeader(p)];
    var body := RenderItems(items, opts);
    lines := lines + body;
    if opts.pageSep && p < n {
      lines := lines + [PageSeparator];
    }
  }

  /** The final sort of a page: by column and position on a two-column page, else by position. */
  method SortItems(items: seq<Item>, colGapThreshold: real) returns (sorted: seq<Item>)
    ensures sorted == OrderItems(items, colGapThreshold)
  {
    var cols := MaybeTwoColumns(Boxes(items), colGapThreshold);
    if cols.twoCol {
      sorted := SortBy(items, ColKeyOf(cols.splitX));
    } else {
      sorted := SortBy(items, PosKey);
    }
  }

  lemma PagesItemsSnoc(pages: seq<Page>, fullText: string, opts: Options, i: nat)
    requires i < |pages|
    ensures PagesItems(pages[..i + 1], fullText, opts)
            == PagesItems(pages[..i], fullText, opts) + [OrderedPageItems(pages[i], fullText, opts)]
  {
    assert pages[..i + 1][..i] == pages[..i];
  }

  lemma PagesLinesSnoc(pagesItems: seq<seq<Item>>, items: seq<Item>, n: nat, opts: Options)
    ensures PagesLines(pagesItems + [items], n, opts)
            == PagesLines(pagesItems, n, opts) + PageLines(items, |pagesItems| + 1, n, opts)
  {
    assert (pagesItems + [items])[..|pagesItems|] == pagesItems;
  }

  /** convert_document_ai_to_markdown. */
  method ConvertDocument(doc: DocAiDocument, opts: Options) returns (md: string)
    ensures md == Markdown(doc, opts)
  {
    var lines := [TitleLine(doc)];
    var i := 0;
    while i < |doc.pages|
      invariant 0 <= i <= |doc.pages|
      invariant lines == [TitleLine(doc)] + PagesLines(PagesItems(doc.pages[..i], doc.text, opts), |doc.pages|, opts)
    {
      ghost var done := PagesItems(doc.pages[..i], doc.text, opts);
      ghost var items := OrderedPageItems(doc.pages[i], doc.text, opts);
      PagesItemsSnoc(doc.pages, doc.text, opts, i);
      PagesLinesSnoc(done, items, |doc.pages|, opts);
      ConcatAssoc([TitleLine(doc)], PagesLines(done, |doc.pages|, opts), PageLines(items, i + 1, |doc.pages|, opts));
      var pageLines := RenderPage(doc.pages[i], i + 1, |doc.pages|, doc.text, opts);
      lines := lines + pageLines;
      i := i + 1;
    }
    TakeAll(doc.pages);
    md := Join("\n", lines);
  }

  // ---------------------------------------------------------------------------
  // What the Markdown guarantees
  // ---------------------------------------------------------------------------

  /** The Markdown opens with the title line. */
  lemma MarkdownStartsWithTitle(doc: DocAiDocument, opts: Options)
    ensures StartsWith(Markdown(doc, opts), TitleLine(doc))
  {
    var rest := PagesLines(PagesItems(doc.pages, doc.text, opts), |doc.pages|, opts);
    JoinPrefix("\n", [TitleLine(doc)] + rest);
  }

  /** The title line is a level-one heading. */
  lemma TitleLineHeading(doc: DocAiDocument)
    ensures StartsWith(TitleLine(doc), "# ")
  {
    var e := EscapeMd(Title(doc));
    assert ("# " + e + "\n")[..2] == "# ";
  }

  /** When the schema names no title the heading is "# Document", which needs no escaping. */
  lemma DefaultTitleLine(doc: DocAiDocument)
    requires doc.displayName == ""
    ensures Title(doc) == "Document"
    ensures TitleLine(doc) == "# " + Title(doc) + "\n"
  {
    var d := "Document";
    assert d[0] == 'D' && d[|d| - 1] == 't';
    EscapeMdPlain(d);
  }

  lemma {:induction false} PagesLinesPrefix(pagesItems: seq<seq<Item>>, n: nat, opts: Options, i: nat, j: nat)
    requires i <= j <= |pagesItems|
    ensures PagesLines(pagesItems[..i], n, opts) <= PagesLines(pagesItems[..j], n, opts)
    decreases j
  {
    if i < j {
      var pre, last := pagesItems[..j - 1], pagesItems[j - 1];
      assert pagesItems[..j] == pre + [last];
      PagesLinesPrefix(pagesItems, n, opts, i, j - 1);
      PagesLinesSnoc(pre, last, n, opts);
      PrefixExtend(PagesLines(pagesItems[..i], n, opts), PagesLines(pre, n, opts), PageLines(last, j, n, opts));
    }
  }

  /** Where page `i` (counting from 0) begins among the document's lines. */
  function PageStart(doc: DocAiDocument, opts: Options, i: nat): nat
    requires i <= |doc.pages|
  {
    1 + |PagesLines(PagesItems(doc.pages, doc.text, opts)[..i], |doc.pages|, opts)|
  }

  /** The pages appear in order, page `i` under the header numbered `i + 1`. */
  lemma PageHeaderAt(doc: DocAiDocument, opts: Options, i: nat)
    requires i < |doc.pages|
    ensures PageStart(doc, opts, i) < PageStart(doc, opts, i + 1) <= |DocLines(doc, opts)|
    ensures DocLines(doc, opts)[PageStart(doc, opts, i)] == PageHeader(i + 1)
  {
    var all := PagesItems(doc.pages, doc.text, opts);
    var lines := PagesLines(all, |doc.pages|, opts);
    PagesHeaderAt(all, |doc.pages|, opts, i);
    assert DocLines(doc, opts) == [TitleLine(doc)] + lines;
  }

  lemma PagesHeaderAt(pagesItems: seq<seq<Item>>, n: nat, opts: Options, i: nat)
    requires i < |pagesItems|
    ensures |PagesLines(pagesItems[..i], n, opts)| < |PagesLines(pagesItems[..i + 1], n, opts)| <= |PagesLines(pagesItems, n, opts)|
    ensures PagesLines(pagesItems, n, opts)[|PagesLines(pagesItems[..i], n, opts)|] == PageHeader(i + 1)
  {
    var page := PageLines(pagesItems[i], i + 1, n, opts);
    assert page[0] == PageHeader(i + 1);
    assert pagesItems[..i + 1] == pagesItems[..i] + [pagesItems[i]];
    PagesLinesSnoc(pagesItems[..i], pagesItems[i], n, opts);
    PagesLinesPrefix(pagesItems, n, opts, i + 1, |pagesItems|);
    assert pagesItems[..|pagesItems|] == pagesItems;
    PrefixAt(PagesLines(pagesItems[..i], n, opts), page, PagesLines(pagesItems, n, opts));
  }

  // Lines that never start with a line feed, so never equal the page separator

  predicate BodyLine(l: string) {
    l == [] || l[0] != '\n'
  }

  predicate BodyLines(ls: seq<string>) {
    forall i :: 0 <= i < |ls| ==> BodyLine(ls[i])
  }

  lemma BodyLinesConcat(a: seq<string>, b: seq<string>)
    requires BodyLines(a) && BodyLines(b)
    ensures BodyLines(a + b)
  {
    assert forall i :: |a| <= i < |a + b| ==> (a + b)[i] == b[i - |a|];
  }

  lemma MdLinesBody(rows: seq<seq<Cell>>)
    ensures BodyLines(TableMdLines(rows))
  {
    TableMdShape(rows);
    var lines := TableMdLines(rows);
    forall i | 0 <= i < |lines| ensures BodyLine(lines[i]) {
      var cells := if i == 0 then MdHeader(rows[0]) else if i == 1 then Repeat("---", |rows[0]|) else Texts(rows[i - 1]);
      assert lines[i] == MdRow(cells);
      assert MdRow(cells)[0] == '|';
    }
  }

  lemma {:induction false} HeadLinesBody(cells: seq<Cell>)
    ensures BodyLines(HeadLines(cells))
  {
    if cells != [] {
      HeadLinesBody(cells[..|cells| - 1]);
      assert HeadLine(cells[|cells| - 1])[0] == ' ';
      BodyLinesConcat(HeadLines(cells[..|cells| - 1]), [HeadLine(cells[|cells| - 1])]);
    }
  }

  lemma {:induction false} DataLinesBody(cells: seq<Cell>)
    ensures BodyLines(DataLines(cells))
  {
    if cells != [] {
      DataLinesBody(cells[..|cells| - 1]);
      assert DataLine(cells[|cells| - 1])[0] == ' ';
      BodyLinesConcat(DataLines(cells[..|cells| - 1]), [DataLine(cells[|cells| - 1])]);
    }
  }

  lemma {:induction false} BodyHtmlBody(rows: seq<seq<Cell>>)
    ensures BodyLines(BodyHtml(rows))
  {
    if rows != [] {
      var init := rows[..|rows| - 1];
      BodyHtmlBody(init);
      DataLinesBody(rows[|rows| - 1]);
      BodyLinesConcat(BodyHtml(init), ["    <tr>"]);
      BodyLinesConcat(BodyHtml(init) + ["    <tr>"], DataLines(rows[|rows| - 1]));
      BodyLinesConcat(BodyHtml(init) + ["    <tr>"] + DataLines(rows[|rows| - 1]), ["    </tr>"]);
    }
  }

  lemma HtmlLinesBody(rows: seq<seq<Cell>>)
    ensures BodyLines(TableHtmlLines(rows))
  {
    if rows != [] {
      var head := ["  <thead>", "    <tr>"] + HeadLines(rows[0]) + ["    </tr>", "  </thead>"];
      HeadLinesBody(rows[0]);
      BodyLinesConcat(["  <thead>", "    <tr>"], HeadLines(rows[0]));
      BodyLinesConcat(["  <thead>", "    <tr>"] + HeadLines(rows[0]), ["    </tr>", "  </thead>"]);
      var body := if |rows| > 1 then ["  <tbody>"] + BodyHtml(rows[1..]) + ["  </tbody>"] else [];
      if |rows| > 1 {
        BodyHtmlBody(rows[1..]);
        BodyLinesConcat(["  <tbody>"], BodyHtml(rows[1..]));
        BodyLinesConcat(["  <tbody>"] + BodyHtml(rows[1..]), ["  </tbody>"]);
      }
      BodyLinesConcat(head, body);
      BodyLinesConcat(["<table>"], head + body);
      BodyLinesConcat(["<table>"] + (head + body), ["</table>"]);
    }
  }

  /** A text whose first character is not whitespace renders to a line that does not start with a line feed. */
  lemma TextLineBody(text: string, headerHeuristics: bool)
    requires text != [] && !IsSpace(text[0])
    ensures BodyLine(TextLine(text, headerHeuristics))
  {
    var lines := SplitLines(text);
    var j := LineEnd(text);
    assert j > 0;
    assert lines[0] == text[..j];
    var first := lines[0];
    assert first[0] == text[0];
    assert !AllSpace(first);
    var rendered := RenderLines(lines, headerHeuristics);
    RenderLinesAt(lines, headerHeuristics, 0);
    var r := RenderLine(first, headerHeuristics);
    assert r != [];
    if IsBullet(Strip(first)) {
      assert r[..2] == "- ";
      assert r[0] == '-';
    } else if headerHeuristics && IsHeadingLike(Strip(first)) {
      assert r[0] == '#';
    } else {
      assert r[0] == Strip(first)[0];
    }
    JoinPrefix("\n", rendered);
    var joined := Join("\n", rendered);
    assert joined[0] == r[0];
  }

  lemma {:induction false} KvRowLinesAt(rows: seq<(string, string)>, i: nat)
    requires i < |rows|
    ensures KvRowLines(rows)[i] == KvRowLine(rows[i])
  {
    if i < |rows| - 1 {
      KvRowLinesAt(rows[..|rows| - 1], i);
    }
  }

  lemma KvRowLinesBody(rows: seq<(string, string)>)
    ensures BodyLines(KvRowLines(rows))
  {
    forall i | 0 <= i < |rows| ensures BodyLine(KvRowLines(rows)[i]) {
      KvRowLinesAt(rows, i);
    }
  }

  lemma DebugLinesBody(segs: seq<Segment>, opts: Options)
    ensures BodyLines(DebugLines(segs, opts))
  {
  }

  lemma ItemLinesBody(it: Item, opts: Options)
    requires Producible(it)
    ensures BodyLines(ItemLines(it, opts))
  {
    match it
    case TextItem(text, _, segs) => TextItemBody(text, segs, opts);
    case KvItem(g) => KvItemBody(g, opts);
    case TableItem(t, _) => TableItemBody(t, opts);
  }

  lemma TextItemBody(text: string, segs: seq<Segment>, opts: Options)
    requires text != [] && !IsSpace(text[0])
    ensures BodyLines(TextItemLines(text, segs, opts))
  {
    TextLineBody(text, opts.headerHeuristics);
    DebugLinesBody(segs, opts);
    BodyLinesConcat([TextLine(text, opts.headerHeuristics)], DebugLines(segs, opts));
  }

  lemma KvItemBody(g: Group, opts: Options)
    ensures BodyLines(KvItemLines(g, opts))
  {
    if g.rows != [] {
      var header := if opts.includeKvHeader then KvHeader else [];
      var rows := KvRowLines(g.rows);
      KvRowLinesBody(g.rows);
      DebugLinesBody(g.segs, opts);
      BodyLinesConcat(header, rows);
      BodyLinesConcat(header + rows, [""]);
      BodyLinesConcat(header + rows + [""], DebugLines(g.segs, opts));
    }
  }

  lemma TableItemBody(t: Renderable, opts: Options)
    ensures BodyLines(TableItemLines(t, opts))
  {
    var heading := if opts.labelTables then ["### Table"] else [];
    var lines := TableLines(t);
    if t.anySpan { HtmlLinesBody(t.rows); } else { MdLinesBody(t.rows); }
    DebugLinesBody(t.segs, opts);
    BodyLinesConcat(heading, lines);
    BodyLinesConcat(heading + lines, [""]);
    BodyLinesConcat(heading + lines + [""], DebugLines(t.segs, opts));
  }

  predicate PagesProducible(pagesItems: seq<seq<Item>>) {
    forall i :: 0 <= i < |pagesItems| ==> ItemsProducible(pagesItems[i])
  }

  lemma {:induction false} ItemsLinesBody(items: seq<Item>, opts: Options)
    requires ItemsProducible(items)
    ensures BodyLines(ItemsLines(items, opts))
  {
    if items != [] {
      var init := items[..|items| - 1];
      assert forall k :: 0 <= k < |init| ==> init[k] == items[k];
      ItemsLinesBody(init, opts);
      ItemLinesBody(items[|items| - 1], opts);
      BodyLinesConcat(ItemsLines(init, opts), ItemLines(items[|items| - 1], opts));
    }
  }

  /** Ordering only permutes a page's items, so each stays producible. */
  lemma OrderedProducible(page: Page, fullText: string, opts: Options)
    ensures ItemsProducible(OrderedPageItems(page, fullText, opts))
  {
    var items := PageItemsOf(page, fullText, opts.kvRowThreshold);
    var r := OrderedPageItems(page, fullText, opts);
    PageItemsProducible(page, fullText, opts.kvRowThreshold);
    forall k | 0 <= k < |r| ensures Producible(r[k]) {
      assert r[k] in multiset(items);
      var j :| 0 <= j < |items| && items[j] == r[k];
    }
  }

  lemma PagesProducibleSnoc(pagesItems: seq<seq<Item>>, items: seq<Item>)
    requires PagesProducible(pagesItems) && ItemsProducible(items)
    ensures PagesProducible(pagesItems + [items])
  {
    assert forall i :: 0 <= i < |pagesItems| ==> (pagesItems + [items])[i] == pagesItems[i];
  }

  lemma {:induction false} PagesItemsProducible(pages: seq<Page>, fullText: string, opts: Options)
    ensures PagesProducible(PagesItems(pages, fullText, opts))
  {
    if pages != [] {
      var init := pages[..|pages| - 1];
      var last := OrderedPageItems(pages[|pages| - 1], fullText, opts);
      assert PagesItems(pages, fullText, opts) == PagesItems(init, fullText, opts) + [last];
      PagesItemsProducible(init, fullText, opts);
      OrderedProducible(pages[|pages| - 1], fullText, opts);
      PagesProducibleSnoc(PagesItems(init, fullText, opts), last);
    }
  }

  /** Page `p` of `n` holds one separator when separators are on and it is not the last page, else none. */
  lemma PageSeparatorCount(items: seq<Item>, p: nat, n: nat, opts: Options)
    requires ItemsProducible(items)
    ensures Count(PageLines(items, p, n, opts), PageSeparator) == if opts.pageSep && p < n then 1 else 0
  {
    var header := PageHeader(p);
    var body := ItemsLines(items, opts);
    var sep := opts.pageSep && p < n;
    var tail := if sep then [PageSeparator] else [];
    assert PageLines(items, p, n, opts) == [header] + body + tail;
    ItemsLinesBody(items, opts);
    PageHeaderNotSeparator(p);
    SeparatorsInTail(header, body, tail);
    SeparatorTailCount(sep);
  }

  lemma PageHeaderNotSeparator(p: nat)
    ensures PageHeader(p) != PageSeparator
  {
    assert PageHeader(p)[1] == '#';
  }

  lemma SeparatorTailCount(sep: bool)
    ensures Count(if sep then [PageSeparator] else [], PageSeparator) == if sep then 1 else 0
  {
    if sep {
      assert [PageSeparator][..0] == [];
    }
  }

  /** Between a header that is not the separator and the tail, body lines hold no separator. */
  lemma SeparatorsInTail(header: string, body: seq<string>, tail: seq<string>)
    requires header != PageSeparator && BodyLines(body)
    ensures Count([header] + body + tail, PageSeparator) == Count(tail, PageSeparator)
  {
    assert forall i :: 0 <= i < |body| ==> body[i] != PageSeparator by {
      forall i | 0 <= i < |body| ensures body[i] != PageSeparator {
        assert BodyLine(body[i]);
      }
    }
    CountAbsent(body, PageSeparator);
    CountAfterHead(header, body, PageSeparator);
    CountConcat([header] + body, tail, PageSeparator);
  }

  lemma {:induction false} PagesSeparatorCount(pagesItems: seq<seq<Item>>, n: nat, opts: Options)
    requires |pagesItems| <= n && PagesProducible(pagesItems)
    ensures Count(PagesLines(pagesItems, n, opts), PageSeparator)
            == if !opts.pageSep || pagesItems == [] then 0 else if |pagesItems| < n then |pagesItems| else |pagesItems| - 1
  {
    if pagesItems != [] {
      var init := pagesItems[..|pagesItems| - 1];
      var last := pagesItems[|pagesItems| - 1];
      assert forall i :: 0 <= i < |init| ==> init[i] == pagesItems[i];
      PagesSeparatorCount(init, n, opts);
      PageSeparatorCount(last, |pagesItems|, n, opts);
      CountConcat(PagesLines(init, n, opts), PageLines(last, |pagesItems|, n, opts), PageSeparator);
    }
  }

  /** With `page_sep` the pages are separated by exactly one separator line each; without it there is none. */
  lemma SeparatorsBetweenPages(doc: DocAiDocument, opts: Options)
    ensures Count(DocLines(doc, opts), PageSeparator)
            == if opts.pageSep && |doc.pages| > 0 then |doc.pages| - 1 else 0
  {
    var all := PagesItems(doc.pages, doc.text, opts);
    var title := TitleLine(doc);
    PagesItemsProducible(doc.pages, doc.text, opts);
    PagesSeparatorCount(all, |doc.pages|, opts);
    TitleLineHeading(doc);
    assert title[0] == '#' != PageSeparator[0];
    CountAfterHead(title, PagesLines(all, |doc.pages|, opts), PageSeparator);
  }

  /**
   * A table renders as HTML exactly when some cell spans rows or columns,
   * else as Markdown; with `label_tables` a "### Table" line comes first,
   * and a blank line follows.
   */
  lemma TableRendering(t: Renderable, opts: Options)
    ensures var lines := TableItemLines(t, opts);
            var off := if opts.labelTables then 1 else 0;
            |lines| > off
            && (opts.labelTables ==> lines[0] == "### Table")
            && (t.anySpan ==> lines[off] == "<table>")
            && (!t.anySpan && t.rows != [] ==> StartsWith(lines[off], "| "))
            && (!t.anySpan && t.rows == [] ==> lines[off] == "")
  {
    var heading := if opts.labelTables then ["### Table"] else [];
    var body := TableLines(t);
    var rest := [""] + DebugLines(t.segs, opts);
    assert TableItemLines(t, opts) == heading + body + rest;
    TableFirstLine(t);
    if body == [] {
      assert heading + body + rest == heading + rest;
      ConcatAt(heading, rest, |heading|);
    } else {
      InMiddle(heading, body, rest, 0);
    }
  }

  lemma TableFirstLine(t: Renderable)
    ensures var lines := TableLines(t);
            (t.anySpan ==> lines != [] && lines[0] == "<table>")
            && (!t.anySpan && t.rows != [] ==> lines != [] && StartsWith(lines[0], "| "))
            && (!t.anySpan && t.rows == [] ==> lines == [])
  {
    if t.anySpan {
      TableHtmlShape(t.rows);
    } else if t.rows != [] {
      TableMdShape(t.rows);
      var first := TableMdLines(t.rows)[0];
      assert first == MdRow(MdHeader(t.rows[0]));
      assert first[..2] == "| ";
    } else {
      TableMdShape(t.rows);
    }
  }

  /**
   * A key-value group renders as an optional "| Field | Value |" header,
   * one line per row, and a blank line.
   */
  lemma KvRendering(g: Group, opts: Options)
    requires g.rows != []
    ensures var lines := KvItemLines(g, opts);
            var off := if opts.includeKvHeader then 2 else 0;
            |lines| == off + |g.rows| + 1 + (if opts.debugSpans then 1 else 0)
            && (opts.includeKvHeader ==> lines[0] == "| Field | Value |" && lines[1] == "|---|---|")
            && lines[off + |g.rows|] == ""
  {
    var header := if opts.includeKvHeader then KvHeader else [];
    var rows := KvRowLines(g.rows);
    var lines := KvItemLines(g, opts);
    assert lines == header + rows + [""] + DebugLines(g.segs, opts);
    assert lines[|header| + |rows|] == "";
  }

  /** Row `i` of a key-value group is the line `| key | value |` of its two escaped cells. */
  lemma KvRowRendered(g: Group, opts: Options, i: nat)
    requires i < |g.rows|
    ensures var off := if opts.includeKvHeader then 2 else 0;
            off + i < |KvItemLines(g, opts)| && KvItemLines(g, opts)[off + i] == KvRowLine(g.rows[i])
  {
    var header := if opts.includeKvHeader then KvHeader else [];
    var rows := KvRowLines(g.rows);
    var rest := [""] + DebugLines(g.segs, opts);
    assert KvItemLines(g, opts) == header + rows + rest;
    KvRowLinesAt(g.rows, i);
    InMiddle(header, rows, rest, i);
  }

  /** On the pages of a document no key-value group is skipped for want of rows. */
  lemma KvGroupsRendered(page: Page, fullText: string, opts: Options, k: nat)
    requires k < |OrderedPageItems(page, fullText, opts)|
    requires OrderedPageItems(page, fullText, opts)[k].KvItem?
    ensures OrderedPageItems(page, fullText, opts)[k].group.rows != []
    ensures |ItemLines(OrderedPageItems(page, fullText, opts)[k], opts)| > |OrderedPageItems(page, fullText, opts)[k].group.rows|
  {
    OrderedProducible(page, fullText, opts);
    KvRendering(OrderedPageItems(page, fullText, opts)[k].group, opts);
  }
}
