/**
 * One page of convert_document_ai_to_markdown in docai_converter.py, up to
 * the order in which its items are rendered: the tables first, then the
 * key-value groups, each adding its anchor segments to the text already
 * consumed; then the text containers, each keeping only the text no table
 * or group has consumed; finally the items sorted by position, by column
 * first when the page has two columns.
 */
module PageItems {
  import opened Results
  import opened Text
  import opened Sorting
  import opened Segments
  import opened Geometry
  import opened DocLayout
  import opened MarkdownText
  import opened Tables
  import opened FormFields
  import opened Seqs

  /**
   * The parts of a page the converter reads.  `blocks` and `paragraphs` are
   * `None` when the page has no list under that name; missing `lines` are
   * an empty list.
   */
  datatype Page = Page(tables: seq<DocTable>, formFields: seq<FormField>,
                       blocks: Option<seq<Layout>>, paragraphs: Option<seq<Layout>>, lines: seq<Layout>)

  datatype Item =
    | TableItem(table: Renderable, labelIndex: nat)
    | KvItem(group: Group)
    | TextItem(text: string, bbox: Box, segs: seq<Segment>)

  function ItemSegs(it: Item): seq<Segment> {
    match it
    case TableItem(t, _) => t.segs
    case KvItem(g) => g.segs
    case TextItem(_, _, segs) => segs
  }

  function ItemBox(it: Item): Box {
    match it
    case TableItem(t, _) => t.bbox
    case KvItem(g) => g.bbox
    case TextItem(_, bbox, _) => bbox
  }

  /** The item's `y`: the top of its box, or for a group the middle of its first field. */
  function ItemY(it: Item): Option<real> {
    if it.KvItem? then it.group.y else Top(ItemBox(it))
  }

  function ItemX(it: Item): Option<real> {
    if it.KvItem? then it.group.x else Left(ItemBox(it))
  }

  /** Blocks if the page lists them, else paragraphs, else lines. */
  function Containers(page: Page): seq<Layout> {
    if page.blocks.Some? then page.blocks.value
    else if page.paragraphs.Some? then page.paragraphs.value
    else page.lines
  }

  // ---------------------------------------------------------------------------
  // Tables, groups and the consumed text
  // ---------------------------------------------------------------------------

  /** One item per table, labelled with its position among the page's tables. */
  function TableItems(tables: seq<DocTable>, fullText: string): (r: seq<Item>)
    ensures |r| == |tables|
  {
    if tables == [] then []
    else TableItems(tables[..|tables| - 1], fullText)
         + [TableItem(RenderableOf(tables[|tables| - 1], fullText), |tables| - 1)]
  }

  function KvItems(groups: seq<Group>): (r: seq<Item>)
    ensures |r| == |groups|
  {
    if groups == [] then [] else KvItems(groups[..|groups| - 1]) + [KvItem(groups[|groups| - 1])]
  }

  /** `consumed` after the items: each item's segments merged into it in turn. */
  function ConsumedBy(items: seq<Item>): seq<Segment> {
    if items == [] then [] else Merge(ConsumedBy(items[..|items| - 1]) + ItemSegs(items[|items| - 1]))
  }

  lemma ConsumedBySnoc(items: seq<Item>, it: Item)
    ensures ConsumedBy(items + [it]) == Merge(ConsumedBy(items) + ItemSegs(it))
  {
    assert (items + [it])[..|items|] == items;
  }

  /** Some item's segments cover offset `p`. */
  predicate ItemCovers(items: seq<Item>, p: int) {
    exists k :: 0 <= k < |items| && Covers(ItemSegs(items[k]), p)
  }

  lemma ItemCoversSnoc(items: seq<Item>, it: Item, p: int)
    ensures ItemCovers(items + [it], p) <==> ItemCovers(items, p) || Covers(ItemSegs(it), p)
  {
    var all := items + [it];
    if ItemCovers(all, p) && !Covers(ItemSegs(it), p) {
      var k :| 0 <= k < |all| && Covers(ItemSegs(all[k]), p);
      assert all[k] == items[k];
    }
    if ItemCovers(items, p) {
      var k :| 0 <= k < |items| && Covers(ItemSegs(items[k]), p);
      assert all[k] == items[k];
    }
    if Covers(ItemSegs(it), p) {
      assert all[|items|] == it;
    }
  }

  /** The consumed text is exactly the text the items' anchors cover. */
  lemma {:induction false} ConsumedCovers(items: seq<Item>, p: int)
    ensures Covers(ConsumedBy(items), p) <==> ItemCovers(items, p)
  {
    if items != [] {
      var init, it := items[..|items| - 1], items[|items| - 1];
      ConsumedCovers(init, p);
      MergeCovers(ConsumedBy(init) + ItemSegs(it), p);
      CoversConcat(ConsumedBy(init), ItemSegs(it), p);
      ItemCoversSnoc(init, it, p);
      SnocSplit(items);
    }
  }

  // ---------------------------------------------------------------------------
  // Residual text
  // ---------------------------------------------------------------------------

  /**
   * A text container's item: the segments of its anchor less the consumed
   * text, and the cleaned-up text they select; none when nothing is left
   * or the text is blank.
   */
  function TextItemOf(c: Layout, consumed: seq<Segment>, fullText: string): Option<Item> {
    var residual := Subtract(LayoutSegments(c), consumed);
    if residual == [] then None
    else
      var text := CleanupText(TextOf(fullText, residual));
      if Strip(text) == [] then None else Some(TextItem(text, LayoutBox(c), residual))
  }

  function TextItems(cs: seq<Layout>, consumed: seq<Segment>, fullText: string): (r: seq<Item>)
    ensures |r| <= |cs|
  {
    if cs == [] then []
    else TextItems(cs[..|cs| - 1], consumed, fullText) + OptItem(TextItemOf(cs[|cs| - 1], consumed, fullText))
  }

  function OptItem(o: Option<Item>): (r: seq<Item>)
    ensures |r| <= 1
  {
    if o.Some? then [o.value] else []
  }

  /** The items of a page before ordering: tables, then groups, then residual text. */
  function PageItemsOf(page: Page, fullText: string, kvRowThreshold: real): seq<Item> {
    var placed := TableItems(page.tables, fullText)
                  + KvItems(GroupsOf(RunsOf(SortedTuples(page.formFields, fullText), kvRowThreshold)));
    placed + TextItems(Containers(page), ConsumedBy(placed), fullText)
  }

  lemma TableItemsSnoc(tables: seq<DocTable>, fullText: string, i: nat)
    requires i < |tables|
    ensures TableItems(tables[..i + 1], fullText)
            == TableItems(tables[..i], fullText) + [TableItem(RenderableOf(tables[i], fullText), i)]
  {
    assert tables[..i + 1][..i] == tables[..i];
  }

  lemma KvItemsSnoc(groups: seq<Group>, i: nat)
    requires i < |groups|
    ensures KvItems(groups[..i + 1]) == KvItems(groups[..i]) + [KvItem(groups[i])]
  {
    assert groups[..i + 1][..i] == groups[..i];
  }

  lemma TextItemsSnoc(cs: seq<Layout>, consumed: seq<Segment>, fullText: string, i: nat)
    requires i < |cs|
    ensures TextItems(cs[..i + 1], consumed, fullText)
            == TextItems(cs[..i], consumed, fullText) + OptItem(TextItemOf(cs[i], consumed, fullText))
  {
    assert cs[..i + 1][..i] == cs[..i];
  }

  /** The table loop of a page. */
  method PlaceTables(tables: seq<DocTable>, fullText: string) returns (items: seq<Item>, consumed: seq<Segment>)
    ensures items == TableItems(tables, fullText)
    ensures consumed == ConsumedBy(items)
  {
    items, consumed := [], [];
    var i := 0;
    while i < |tables|
      invariant 0 <= i <= |tables|
      invariant items == TableItems(tables[..i], fullText)
      invariant consumed == ConsumedBy(items)
    {
      var tinfo := TableToRenderable(tables[i], fullText);
      TableItemsSnoc(tables, fullText, i);
      ConsumedBySnoc(items, TableItem(tinfo, i));
      items := items + [TableItem(tinfo, i)];
      consumed := MergeIntervals(consumed + tinfo.segs);
      i := i + 1;
    }
    TakeAll(tables);
  }

  /** The key-value loop of a page. */
  method PlaceGroups(groups: seq<Group>, items0: seq<Item>, consumed0: seq<Segment>)
    returns (items: seq<Item>, consumed: seq<Segment>)
    requires consumed0 == ConsumedBy(items0)
    ensures items == items0 + KvItems(groups)
    ensures consumed == ConsumedBy(items)
  {
    items, consumed := items0, consumed0;
    var j := 0;
    while j < |groups|
      invariant 0 <= j <= |groups|
      invariant items == items0 + KvItems(groups[..j])
      invariant consumed == ConsumedBy(items)
    {
      KvItemsSnoc(groups, j);
      ConcatAssoc(items0, KvItems(groups[..j]), [KvItem(groups[j])]);
      ConsumedBySnoc(items, KvItem(groups[j]));
      items := items + [KvItem(groups[j])];
      consumed := MergeIntervals(consumed + groups[j].segs);
      j := j + 1;
    }
    TakeAll(groups);
  }

  /** The body of the text-container loop: the container's item, if any. */
  method ContainerItem(c: Layout, consumed: seq<Segment>, fullText: string) returns (r: Option<Item>)
    ensures r == TextItemOf(c, consumed, fullText)
  {
    var segs := ParseSegments(c.anchor);
    var residual := SubtractIntervals(segs, consumed);
    if residual == [] {
      return None;
    }
    var text := TextFromSegments(fullText, residual);
    text := CleanupText(text);
    if Strip(text) == [] {
      return None;
    }
    return Some(TextItem(text, LayoutBox(c), residual));
  }

  /** The text-container loop of a page. */
  method PlaceText(cs: seq<Layout>, consumed: seq<Segment>, fullText: string, items0: seq<Item>)
    returns (items: seq<Item>)
    ensures items == items0 + TextItems(cs, consumed, fullText)
  {
    items := items0;
    var k := 0;
    while k < |cs|
      invariant 0 <= k <= |cs|
      invariant items == items0 + TextItems(cs[..k], consumed, fullText)
    {
      TextItemsSnoc(cs, consumed, fullText, k);
      var r := ContainerItem(cs[k], consumed, fullText);
      ConcatAssoc(items0, TextItems(cs[..k], consumed, fullText), OptItem(r));
      items := items + OptItem(r);
      k := k + 1;
    }
    TakeAll(cs);
  }

  /** The items of one page, in the order they are collected. */
  method AssemblePage(page: Page, fullText: string, kvRowThreshold: real) returns (items: seq<Item>)
    ensures items == PageItemsOf(page, fullText, kvRowThreshold)
  {
    var consumed;
    items, consumed := PlaceTables(page.tables, fullText);
    var groups := FieldsToGroups(page.formFields, fullText, kvRowThreshold);
    items, consumed := PlaceGroups(groups, items, consumed);
    items := PlaceText(Containers(page), consumed, fullText, items);
  }

  // ---------------------------------------------------------------------------
  // What a page's items guarantee
  // ---------------------------------------------------------------------------

  /**
   * A text item keeps only text no table or group consumed: its segments
   * cover exactly the container's offsets outside the consumed ones, and
   * its text is the cleaned-up, non-blank text they select.
   */
  lemma TextItemExcludes(c: Layout, consumed: seq<Segment>, fullText: string)
    requires TextItemOf(c, consumed, fullText).Some?
    ensures var it := TextItemOf(c, consumed, fullText).value;
            it.TextItem? && it.segs != [] && Strip(it.text) != []
            && it.text == CleanupText(TextOf(fullText, it.segs))
            && it.bbox == LayoutBox(c)
    ensures var it := TextItemOf(c, consumed, fullText).value;
            forall p :: Covers(it.segs, p) <==> Covers(LayoutSegments(c), p) && !Covers(consumed, p)
  {
    SubtractProperties(LayoutSegments(c), consumed);
  }

  /** A container whose text is all consumed yields no item. */
  lemma ConsumedContainerDropped(c: Layout, consumed: seq<Segment>, fullText: string)
    requires consumed != []
    requires forall p :: Covers(LayoutSegments(c), p) ==> Covers(consumed, p)
    ensures TextItemOf(c, consumed, fullText).None?
  {
    var residual := Subtract(LayoutSegments(c), consumed);
    SubtractProperties(LayoutSegments(c), consumed);
    FirstPieceCovered(residual);
  }

  lemma {:induction false} TextItemsFrom(cs: seq<Layout>, consumed: seq<Segment>, fullText: string, k: nat)
    requires k < |TextItems(cs, consumed, fullText)|
    ensures exists i :: 0 <= i < |cs| && TextItemOf(cs[i], consumed, fullText) == Some(TextItems(cs, consumed, fullText)[k])
  {
    var init := cs[..|cs| - 1];
    var rest := TextItems(init, consumed, fullText);
    var last := OptItem(TextItemOf(cs[|cs| - 1], consumed, fullText));
    assert TextItems(cs, consumed, fullText) == rest + last;
    if k < |rest| {
      TextItemsFrom(init, consumed, fullText, k);
      var i :| 0 <= i < |init| && TextItemOf(init[i], consumed, fullText) == Some(rest[k]);
      assert cs[i] == init[i];
    } else {
      ConcatAt(rest, last, k);
      assert TextItemOf(cs[|cs| - 1], consumed, fullText) == Some(TextItems(cs, consumed, fullText)[k]);
    }
  }

  /** The `k`-th table item is table `k`, converted, with `k` as its label index. */
  lemma {:induction false} TableItemsAt(tables: seq<DocTable>, fullText: string, k: nat)
    requires k < |tables|
    ensures TableItems(tables, fullText)[k] == TableItem(RenderableOf(tables[k], fullText), k)
  {
    if k < |tables| - 1 {
      TableItemsAt(tables[..|tables| - 1], fullText, k);
    }
  }

  lemma {:induction false} KvItemsAt(groups: seq<Group>, k: nat)
    requires k < |groups|
    ensures KvItems(groups)[k] == KvItem(groups[k])
  {
    if k < |groups| - 1 {
      KvItemsAt(groups[..|groups| - 1], k);
    }
  }

  /**
   * What the renderer may rely on for an item of a page: a text item's
   * text is non-empty and starts with a non-whitespace character, and a
   * key-value group has at least one row.
   */
  predicate Producible(it: Item) {
    (it.TextItem? ==> it.text != [] && !IsSpace(it.text[0]))
    && (it.KvItem? ==> it.group.rows != [])
  }

  lemma TextItemsProducible(cs: seq<Layout>, consumed: seq<Segment>, fullText: string, k: nat)
    requires k < |TextItems(cs, consumed, fullText)|
    ensures Producible(TextItems(cs, consumed, fullText)[k])
  {
    TextItemsFrom(cs, consumed, fullText, k);
    var i :| 0 <= i < |cs| && TextItemOf(cs[i], consumed, fullText) == Some(TextItems(cs, consumed, fullText)[k]);
    TextItemExcludes(cs[i], consumed, fullText);
  }

  predicate TablesOnly(items: seq<Item>) {
    forall j :: 0 <= j < |items| ==> items[j].TableItem?
  }

  predicate GroupsWithRows(items: seq<Item>) {
    forall j :: 0 <= j < |items| ==> items[j].KvItem? && items[j].group.rows != []
  }

  lemma {:induction false} TableItemsKind(tables: seq<DocTable>, fullText: string, k: nat)
    requires k < |tables|
    ensures TableItems(tables, fullText)[k].TableItem?
  {
    if k < |tables| - 1 {
      TableItemsKind(tables[..|tables| - 1], fullText, k);
    }
  }

  lemma TableItemsOnly(tables: seq<DocTable>, fullText: string)
    ensures TablesOnly(TableItems(tables, fullText))
  {
    forall j | 0 <= j < |tables| ensures TableItems(tables, fullText)[j].TableItem? {
      TableItemsKind(tables, fullText, j);
    }
  }

  /** Every key-value item of a page has at least one row. */
  lemma KvItemsWithRows(rs: seq<seq<FieldTuple>>)
    requires NonEmptyRuns(rs)
    ensures GroupsWithRows(KvItems(GroupsOf(rs)))
  {
    var ki := KvItems(GroupsOf(rs));
    forall j | 0 <= j < |rs| ensures ki[j].KvItem? && ki[j].group.rows != [] {
      KvItemsAt(GroupsOf(rs), j);
      GroupHasRows(rs, j);
    }
  }

  predicate ItemsProducible(items: seq<Item>) {
    forall k :: 0 <= k < |items| ==> Producible(items[k])
  }

  lemma ProducibleConcat(a: seq<Item>, b: seq<Item>)
    requires ItemsProducible(a) && ItemsProducible(b)
    ensures ItemsProducible(a + b)
  {
    forall k | 0 <= k < |a + b| ensures Producible((a + b)[k]) {
      if k >= |a| {
        ConcatAt(a, b, k);
      }
    }
  }

  /** Tables and key-value groups, placed before the text, are producible. */
  lemma PlacedProducible(tables: seq<Item>, groups: seq<Item>)
    requires TablesOnly(tables) && GroupsWithRows(groups)
    ensures ItemsProducible(tables + groups)
  {
    ProducibleConcat(tables, groups);
  }

  lemma TextsProducible(cs: seq<Layout>, consumed: seq<Segment>, fullText: string)
    ensures ItemsProducible(TextItems(cs, consumed, fullText))
  {
    forall k | 0 <= k < |TextItems(cs, consumed, fullText)| ensures Producible(TextItems(cs, consumed, fullText)[k]) {
      TextItemsProducible(cs, consumed, fullText, k);
    }
  }

  /** Every item of a page is producible. */
  lemma PageItemsProducible(page: Page, fullText: string, kvRowThreshold: real)
    ensures ItemsProducible(PageItemsOf(page, fullText, kvRowThreshold))
  {
    var rs := RunsOf(SortedTuples(page.formFields, fullText), kvRowThreshold);
    var ti := TableItems(page.tables, fullText);
    var ki := KvItems(GroupsOf(rs));
    var placed := ti + ki;
    var texts := TextItems(Containers(page), ConsumedBy(placed), fullText);
    assert PageItemsOf(page, fullText, kvRowThreshold) == placed + texts;
    TableItemsOnly(page.tables, fullText);
    KvItemsWithRows(rs);
    PlacedProducible(ti, ki);
    TextsProducible(Containers(page), ConsumedBy(placed), fullText);
    ProducibleConcat(placed, texts);
  }

  /** `it` is a text item, and no offset it covers is covered by `others`. */
  predicate TextAvoids(it: Item, others: seq<Item>, p: int) {
    it.TextItem? && (Covers(it.segs, p) ==> !ItemCovers(others, p))
  }

  /** Every residual text item is a text item that avoids the consumed offsets. */
  lemma TextItemsAvoid(cs: seq<Layout>, consumed: seq<Segment>, fullText: string, k: nat, p: int)
    requires k < |TextItems(cs, consumed, fullText)|
    ensures TextItems(cs, consumed, fullText)[k].TextItem?
    ensures Covers(TextItems(cs, consumed, fullText)[k].segs, p) ==> !Covers(consumed, p)
  {
    TextItemsFrom(cs, consumed, fullText, k);
    var i :| 0 <= i < |cs| && TextItemOf(cs[i], consumed, fullText) == Some(TextItems(cs, consumed, fullText)[k]);
    TextItemExcludes(cs[i], consumed, fullText);
  }

  /** After the placed items come residual text items that avoid all of them. */
  lemma TextAfterPlaced(placed: seq<Item>, cs: seq<Layout>, fullText: string, k: nat, p: int)
    requires |placed| <= k < |placed| + |TextItems(cs, ConsumedBy(placed), fullText)|
    ensures var all := placed + TextItems(cs, ConsumedBy(placed), fullText);
            TextAvoids(all[k], all[..|placed|], p)
  {
    var consumed := ConsumedBy(placed);
    var texts := TextItems(cs, consumed, fullText);
    assert texts[k - |placed|].TextItem? && (Covers(texts[k - |placed|].segs, p) ==> !Covers(consumed, p)) by {
      TextItemsAvoid(cs, consumed, fullText, k - |placed|, p);
    }
    assert Covers(consumed, p) <==> ItemCovers(placed, p) by {
      ConsumedCovers(placed, p);
    }
    AvoidsAfter(placed, texts, consumed, k, p);
  }

  lemma AvoidsAfter(placed: seq<Item>, texts: seq<Item>, consumed: seq<Segment>, k: nat, p: int)
    requires |placed| <= k < |placed| + |texts|
    requires Covers(consumed, p) <==> ItemCovers(placed, p)
    requires texts[k - |placed|].TextItem?
    requires Covers(texts[k - |placed|].segs, p) ==> !Covers(consumed, p)
    ensures TextAvoids((placed + texts)[k], (placed + texts)[..|placed|], p)
  {
    ConcatAt(placed, texts, k);
    ConcatParts(placed, texts);
  }

  /**
   * On every page, each item after the tables and the key-value groups is a
   * text item and covers none of the text under a table or a group.
   */
  lemma PageTextDisjoint(page: Page, fullText: string, kvRowThreshold: real, k: nat, p: int)
    requires var placed := |page.tables| + |GroupsOf(RunsOf(SortedTuples(page.formFields, fullText), kvRowThreshold))|;
             placed <= k < |PageItemsOf(page, fullText, kvRowThreshold)|
    ensures var items := PageItemsOf(page, fullText, kvRowThreshold);
            var placed := |page.tables| + |GroupsOf(RunsOf(SortedTuples(page.formFields, fullText), kvRowThreshold))|;
            TextAvoids(items[k], items[..placed], p)
  {
    var placed := TableItems(page.tables, fullText)
                  + KvItems(GroupsOf(RunsOf(SortedTuples(page.formFields, fullText), kvRowThreshold)));
    TextAfterPlaced(placed, Containers(page), fullText, k, p);
  }

  // ---------------------------------------------------------------------------
  // Ordering
  // ---------------------------------------------------------------------------

  function Boxes(items: seq<Item>): (r: seq<Box>)
    ensures |r| == |items|
  {
    if items == [] then [] else Boxes(items[..|items| - 1]) + [ItemBox(items[|items| - 1])]
  }

  /** `(round(y, 4), round(x, 4))` without the rounding. */
  function PosKey(it: Item): seq<real> {
    OptKey(ItemY(it)) + OptKey(ItemX(it))
  }

  /** `(_assign_column(it, split_x), round(y, 4), round(x, 4))`. */
  function ColKey(it: Item, splitX: real): seq<real> {
    [AssignColumn(ItemBox(it), splitX) as real] + PosKey(it)
  }

  /** The sort key of a two-column page, as a function value. */
  function ColKeyOf(splitX: real): Item -> seq<real> {
    it => ColKey(it, splitX)
  }

  /** The final sort of a page's items. */
  function OrderItems(items: seq<Item>, colGapThreshold: real): (r: seq<Item>)
    ensures |r| == |items| && multiset(r) == multiset(items)
  {
    OrderBy(items, MaybeTwoColumns(Boxes(items), colGapThreshold))
  }

  /** The sort for a given column layout. */
  function OrderBy(items: seq<Item>, cols: Columns): (r: seq<Item>)
    ensures |r| == |items| && multiset(r) == multiset(items)
  {
    if cols.twoCol then SortBy(items, ColKeyOf(cols.splitX)) else SortBy(items, PosKey)
  }

  /** Comparing keys that share a first component falls through to the rest. */
  lemma KeyLeCons(c: real, d: real, a: seq<real>, b: seq<real>)
    requires KeyLe([c] + a, [d] + b)
    ensures c <= d && (c == d ==> KeyLe(a, b))
  {
    assert ([c] + a)[1..] == a && ([d] + b)[1..] == b;
  }

  /**
   * `a` may come before `b` on a two-column page: it is in an earlier column,
   * or in the same column and not further down or right.
   */
  predicate ColumnThenPosition(a: Item, b: Item, split: real) {
    AssignColumn(ItemBox(a), split) <= AssignColumn(ItemBox(b), split)
    && (AssignColumn(ItemBox(a), split) == AssignColumn(ItemBox(b), split) ==> KeyLe(PosKey(a), PosKey(b)))
  }

  /** In a sequence sorted by the two-column key, columns come first, then positions. */
  lemma SortedByColumn(r: seq<Item>, split: real, i: nat, j: nat)
    requires SortedBy(r, ColKeyOf(split))
    requires i < j < |r|
    ensures ColumnThenPosition(r[i], r[j], split)
  {
    assert KeyLe(ColKeyOf(split)(r[i]), ColKeyOf(split)(r[j]));
    KeyLeCons(AssignColumn(ItemBox(r[i]), split) as real, AssignColumn(ItemBox(r[j]), split) as real,
              PosKey(r[i]), PosKey(r[j]));
  }

  /**
   * On a two-column page every left-column item comes before every
   * right-column item, and within a column the items go by position.
   */
  lemma TwoColumnOrder(items: seq<Item>, colGapThreshold: real, i: nat, j: nat)
    requires MaybeTwoColumns(Boxes(items), colGapThreshold).twoCol
    requires i < j < |items|
    ensures var split := MaybeTwoColumns(Boxes(items), colGapThreshold).splitX;
            var r := OrderItems(items, colGapThreshold);
            ColumnThenPosition(r[i], r[j], split)
  {
    OrderedByColumn(items, colGapThreshold);
    SortedByColumn(OrderItems(items, colGapThreshold), MaybeTwoColumns(Boxes(items), colGapThreshold).splitX, i, j);
  }

  lemma OrderedByColumn(items: seq<Item>, colGapThreshold: real)
    requires MaybeTwoColumns(Boxes(items), colGapThreshold).twoCol
    ensures SortedBy(OrderItems(items, colGapThreshold), ColKeyOf(MaybeTwoColumns(Boxes(items), colGapThreshold).splitX))
  {
  }

  /** On a one-column page the items go by position. */
  lemma OneColumnOrder(items: seq<Item>, colGapThreshold: real)
    requires !MaybeTwoColumns(Boxes(items), colGapThreshold).twoCol
    ensures SortedBy(OrderItems(items, colGapThreshold), PosKey)
  {
  }
}
