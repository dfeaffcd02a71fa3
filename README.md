# extract-text-from-pdf, modelled in Dafny

This project models the core of a service that turns PDFs into structured text with Google Document AI. It covers five parts of the repository:

- **The Markdown converter (`docai_converter.py`).** It rebuilds a Document AI response as Markdown.
  - *Text ranges.* Half-open ranges into the document's single text buffer are merged, united and subtracted, then resolved to text with clamping.
  - *Page assembly.* Each page becomes a list of items. Tables come first, then key-value groups built from form fields. Each table or group adds its text ranges to the text already consumed. Text containers (blocks, else paragraphs, else lines) keep only the text nobody consumed.
  - *Ordering and rendering.* The items are sorted by position, by column first on a two-column page. They are rendered as text with bullets and headings, as key-value tables, and as Markdown or HTML tables.
- **The chunker (`pdf_chunker.py`).**
  - `chunk_pdf` either passes the PDF through as one piece or cuts it into 1-indexed page ranges of at most `chunk_size` pages. Each range is saved as `chunk_<id>_<basename>` next to the PDF.
  - `merge_results` sorts the per-chunk results by chunk id, skips failed chunks and renumbers pages and tables by a running page total.
  - `cleanup_chunks` removes the chunk files.
- **The processor (`chunked_processor.py`).**
  - `process_pdf` plans once to choose a path.
  - The direct path (`process_small_pdf`) extracts the PDF and tags the result.
  - The chunked path (`process_large_pdf`) plans again, extracts every chunk, records a failing chunk instead of raising, merges and cleans up.
- **The extractor (`services/pdf_extractor.py`).**
  - It turns the Document AI response object into page records and table records.
  - Text lookup reads the first segment only, and row counts and table ids follow the source's rules.
  - It also builds metadata and the raw text. A missing response becomes an error.
- **The file handler (`utils/file_handler.py`).** It validates an upload, removes a temporary file and sanitises a filename.

Conventions:

- **Pure code and loops.** Pure code is functions and lemmas. Each loop of the source is a method with loop invariants, proved equal to a specification function. The lemmas then state what that function promises.
- **The Document AI call.** It is the function `process: string -> Option<Document>`. `None` stands for `_process_with_document_ai` answering None.
- **PDF page count.** It is a parameter, because opening the PDF is I/O.
- **The file system.** It is a value `FileSystem(files, locked)`. `files` are the paths that exist. `locked` are those `os.remove` fails on.
- **Sizes.** A file's size comes from a parameter `sizeOf`.
- **Geometry.** Coordinates are `real`. The converter's sentinel box `(inf, inf, -inf, -inf)` is `NoBox`. A coordinate read from that box is `None`, and `None` sorts after every number, where Python puts the sentinel's `inf`. The NaN the source derives from the sentinel is not modelled as such (see "## Left out").
- **Where the code departs from what its callers expect.**
  - `merge_results` reads a `full_text` entry that the extractor never writes: the extractor writes `raw_text`. So the merged `full_text` is always empty (`PdfChunker.MergedTextEmpty`), although `app.py:209` hands `results.get("full_text", "")` to its client as the document's text.
  - After a failed chunk, later pages are renumbered consecutively. Merged page numbers then no longer match the PDF's own page numbers.
  - `process_pdf` runs the planner and then `process_large_pdf` runs it again. The model does the same. Saving the same chunk files twice leaves the same file system.

## Model

| member | source | states |
|---|---|---|
| Segments.AnchorSegmentsProvenance | docai_converter.py:24-35 | Every parsed segment comes from a text-segment entry with that end index and that start index (0 when absent); when every entry has an end index none is dropped |
| Segments.ParseSegments | docai_converter.py:24-35 | The loop of `_segments` returns the anchor's segments, skipping entries without an end index |
| Segments.SortSegments | docai_converter.py:47 | `sorted(intervals)` is a permutation of its input with ascending starts |
| Segments.MergeIntervals | docai_converter.py:44-55 | The merge loop, which extends the last run or starts a new one, returns the merge of the sorted input |
| Segments.MergeProperties | docai_converter.py:44-55 | The merged list has ascending starts, its pieces neither overlap nor touch, it covers exactly the offsets of the input, keeps well-formed segments well formed, and is empty exactly when the input is |
| Segments.MergeIdempotent | docai_converter.py:44-55 | Merging an already merged list of well-formed segments returns it unchanged |
| Segments.UnionSegments | docai_converter.py:58-61 | The union covers exactly the offsets of either operand |
| Segments.UnionCovers | docai_converter.py:58-61 | The union covers exactly the offsets of either operand and its pieces are separated |
| Segments.SubtractIntervals | docai_converter.py:64-87 | The subtraction loop returns the specified difference; with nothing to exclude it returns the include list as it is |
| Segments.CutOut | docai_converter.py:74-86 | The inner cursor loop for one include range returns exactly the pieces of that range outside the merged exclusions |
| Segments.PiecesInside | docai_converter.py:74-86 | Every piece cut from one include range is non-empty and lies inside that range |
| Segments.PiecesAscending | docai_converter.py:74-86 | With well-formed exclusions the pieces of one include range come in ascending order |
| Segments.PiecesCovers | docai_converter.py:74-86 | The pieces of one include range cover exactly its offsets that no exclusion covers |
| Segments.SubtractProperties | docai_converter.py:64-87 | The difference covers exactly the offsets of the include list outside the exclude list, and with a non-empty exclude list every piece is non-empty |
| Segments.SubtractAscending | docai_converter.py:64-87 | For separated, well-formed includes and well-formed exclusions no two pieces of the difference overlap |
| Segments.SubtractSelf | docai_converter.py:64-87 | Subtracting a list from itself leaves nothing |
| Segments.Clamp | docai_converter.py:93-94 | `max(0, min(n, i))` is i when i lies in 0..n, 0 below and n above |
| Segments.TextFromSegments | docai_converter.py:90-96 | The loop returns the concatenation of the clamped slices of the buffer |
| Segments.TextOfLength | docai_converter.py:90-96 | The resolved text is as long as the clamped segments together |
| Segments.SelfExclusionEmptiesText | docai_converter.py:64-96 | Whatever the buffer, a segment list less itself resolves to "" |
| Geometry.MergeBox | docai_converter.py:201-202 | `_merge_bbox` gives the least box enclosing both boxes; it is the sentinel exactly when both are |
| Geometry.MergeBoxCommutative | docai_converter.py:201-202 | Merging boxes does not depend on the order of the operands |
| Geometry.MergeBoxAssociative | docai_converter.py:201-202 | Merging boxes does not depend on their grouping |
| Geometry.BoxOfPoints | docai_converter.py:115-122 | The box of a polygon is the sentinel exactly for no vertices; otherwise it encloses every vertex and each edge is attained by some vertex |
| DocLayout.BoxOfPointsConcat | docai_converter.py:115-122 | The box of a concatenation of vertex lists is the merge of their boxes |
| Geometry.AssignColumn | docai_converter.py:345-347 | The column is 0 exactly when the box exists and its center is at or left of the split, else 1 |
| Geometry.FirstMaxGap | docai_converter.py:334-337 | The chosen gap is the widest, and the first of the widest, as `max` picks it |
| Geometry.MaybeTwoColumns | docai_converter.py:324-342 | Fewer than 6 items give `(False, 0.5)`; a two-column answer splits at the midpoint of the widest gap between sorted centers, which reaches the threshold; a one-column answer for 6 or more items means every gap is below the threshold |
| Geometry.SplitSeparatesColumns | docai_converter.py:339-341 | With a positive threshold no center lies on the split, so the centers up to the gap and those after it fall in different columns |
| Geometry.MaybeTwoColumnsOrderFree | docai_converter.py:324-342 | Column detection depends only on the multiset of boxes, not their order |
| Geometry.OptKeyOrder | docai_converter.py:466-474 | A sort coordinate compares as its value, and a missing one sorts after every value |
| MarkdownText.EscapeMdSafe | docai_converter.py:129-130 | After escaping, every pipe is preceded by a backslash, no carriage return is left, and neither end is whitespace |
| MarkdownText.EscapeMdPlain | docai_converter.py:129-130 | A text without pipes, carriage returns or whitespace at its ends escapes to itself |
| MarkdownText.EscapeEscapedDoubles | docai_converter.py:129-130 | Escaping a text whose pipes are already escaped leaves every pipe preceded by two backslashes |
| MarkdownText.EscapeKeepsPipe | docai_converter.py:129-130 | Escaping never removes the last pipe of a text |
| MarkdownText.StripKeepsNonSpace | docai_converter.py:130 | Stripping keeps every non-whitespace character, at its offset less the stripped prefix |
| MarkdownText.KvPipeEscapedTwice | docai_converter.py:503-504 | For every text, escaping twice (once when the field is read at lines 280-281, again when the row is written) leaves each pipe preceded by two backslashes, and a text with a pipe keeps one |
| MarkdownText.JoinHyphens | docai_converter.py:139 | Joining hyphenated line breaks never lengthens the text |
| MarkdownText.JoinHyphensKeepsChars | docai_converter.py:139 | Joining hyphenated line breaks only drops characters |
| MarkdownText.CollapseNoTriple | docai_converter.py:141 | Collapsing blank lines leaves no three line feeds in a row, and is empty and starts with a line feed exactly when its input does |
| MarkdownText.CollapseKeepsChars | docai_converter.py:141 | Collapsing blank lines only drops line feeds |
| MarkdownText.CleanupText | docai_converter.py:133-142 | Cleaned text has no carriage return, no three line feeds in a row and no whitespace at either end; empty text stays empty |
| MarkdownText.Letters | docai_converter.py:152 | The letters of a line are ASCII letters only, and are empty exactly when the line has none |
| MarkdownText.IsHeadingLike | docai_converter.py:145-161 | A heading has 3 to 80 characters, does not end in ".", and has an ASCII letter |
| MarkdownText.UpperLineIsHeading | docai_converter.py:145-161 | A line of 3 to 80 characters with a letter, no lower-case letter and no final "." is a heading |
| MarkdownText.RenderLine | docai_converter.py:483-492 | A line renders empty exactly when it is blank; a bullet renders as "- "; otherwise a heading line gets "### " when heuristics are on; otherwise it is the stripped line |
| MarkdownText.RenderLinesAt | docai_converter.py:482-492 | Line i of a text item renders as source line i |
| MarkdownText.RenderTextLines | docai_converter.py:481-492 | The line loop renders each of the text's lines in order |
| Tables.SpanValue | docai_converter.py:176-177 | A missing or zero span counts as 1, any other span is kept, so a span is never 0 |
| Tables.AnySpanExists | docai_converter.py:182-187 | `any_span` holds exactly when some cell has a row or column span above 1 |
| Tables.RowCellsAt | docai_converter.py:184-188 | Cell j of a rendered row is raw cell j with its text resolved and escaped and its spans read |
| Tables.SpanUnionCovers | docai_converter.py:189 | The accumulated segments cover exactly the offsets some cell's anchor covers |
| Tables.SpanUnionSeparated | docai_converter.py:189 | The accumulated segments are separated |
| Tables.CellsBoxPoints | docai_converter.py:190 | Merging cell boxes one by one gives the box of all cell vertices at once |
| Tables.MaxCells | docai_converter.py:194 | The width is the length of the widest row, 0 for no rows |
| Tables.Padded | docai_converter.py:196 | A padded row keeps its cells and is filled with empty 1x1 cells up to the width |
| Tables.PadRows | docai_converter.py:195-196 | The padding loop pads every row to the width |
| Tables.ConvertCell | docai_converter.py:172-179 | `cell_info` gives the escaped text and spans of a cell and the segments of its anchor |
| Tables.ConvertRow | docai_converter.py:184-190 | The cell loop of one row gives its cells and carries the span flag, segment union and box over all cells so far |
| Tables.ConvertRows | docai_converter.py:182-191 | The row loop over header and body rows gives each row's cells and the flag, union and box over all cells |
| Tables.TableToRenderable | docai_converter.py:164-198 | `_table_to_renderable` returns the padded rows, the span flag, the box and the segment union |
| Tables.TableCellsFit | docai_converter.py:182-194 | Each unpadded row is its raw row's cells and no wider than the widest row |
| Tables.ColNames | docai_converter.py:212-213 | The placeholders are "Col 1" to "Col n" |
| Tables.TableMdShape | docai_converter.py:205-218 | No rows give no lines. Otherwise there are rows + 1 lines: the header, "Col i" placeholders when every header text is empty, a separator with one `---` per header cell, then one line per further row |
| Tables.RenderTableMd | docai_converter.py:205-218 | The rendering loop returns those Markdown lines |
| Tables.SpanAttrs | docai_converter.py:230-235 | A cell gets no attributes exactly when neither span exceeds 1 |
| Tables.HeadLinesAt | docai_converter.py:229-236 | Head line j is the `<th>` line of cell j |
| Tables.DataLinesAt | docai_converter.py:243-250 | Body line j of a row is the `<td>` line of cell j |
| Tables.RowBlockAt | docai_converter.py:242-251 | A body row is `<tr>`, then cell j's line at 1 + j, then `</tr>` |
| Tables.HeadBlockAt | docai_converter.py:224-238 | The head block is `<table>`, `<thead>`, `<tr>`, the header cells' lines from index 3 in order, `</tr>` and `</thead>` |
| Tables.BodyHtmlRowAt | docai_converter.py:240-252 | Body row i is rendered as its row block at the offset of the cells and row tags before it |
| Tables.TableHtmlSplit | docai_converter.py:221-254 | The HTML is the head block, then `<tbody>`, the body rows and `</tbody>` when there are body rows, then `</table>` |
| Tables.TableHtmlHead | docai_converter.py:224-238 | The lines after `<table>` are `<thead>`, `<tr>`, one `<th>` line per header cell in order, `</tr>` and `</thead>` |
| Tables.TableHtmlBody | docai_converter.py:240-252 | With body rows, `<tbody>` follows the head and `</tbody>` precedes `</table>` |
| Tables.TableHtmlShape | docai_converter.py:221-254 | The HTML opens with `<table>` and closes with `</table>`; the first row is the head, in `<thead>` with its `<th>` lines in order; body rows sit between `<tbody>` and `</tbody>`; each cell gives exactly one line |
| Tables.HeadCellsHtml | docai_converter.py:229-236 | The loop gives one `<th>` line per header cell |
| Tables.DataCellsHtml | docai_converter.py:243-250 | The loop gives one `<td>` line per cell of a body row |
| Tables.RenderTableHtml | docai_converter.py:221-254 | The rendering loops return those HTML lines |
| FormFields.TupleFacts | docai_converter.py:265-287 | A field tuple's x is the left edge of the merged box its y is the middle of the value's box when the value has one, and it has no y exactly when neither has vertices; its segments cover exactly the name's and value's; its texts are escaped, and the key loses a trailing ":" |
| FormFields.TrimKeyFacts | docai_converter.py:282-283 | Trimming a key keeps a prefix of it, changes it exactly when it ends in ":", and keeps its pipes escaped |
| FormFields.Kept | docai_converter.py:290 | The kept tuples are exactly those with a key or a value |
| FormFields.GroupStep | docai_converter.py:296-317 | One pass of the grouping loop adds the tuple to the current group when it is on that group's row, else closes the group and opens a new one |
| FormFields.GroupRows | docai_converter.py:293-319 | The grouping loop gives one group per run of the sorted tuples |
| FormFields.FieldsToGroups | docai_converter.py:257-321 | The groups are those of the runs of the sorted kept tuples |
| FormFields.RunsFlatten | docai_converter.py:293-319 | The runs cut the sorted tuples into consecutive pieces, so every kept field is in exactly one group, in order |
| FormFields.RunsPartitioned | docai_converter.py:295-317 | Within a run every member is within the row threshold of the run's first member; each next run starts with a tuple that is not |
| FormFields.GroupsSorted | docai_converter.py:320 | The groups are already in the order the final sort puts them in |
| FormFields.GroupHasRows | docai_converter.py:296-319 | Each group has one row per member of its run, so at least one |
| FormFields.RunSegsCovers | docai_converter.py:307 | A group's segments cover exactly what its members' segments cover |
| FormFields.KvCellsDoublyEscaped | docai_converter.py:503-504 | The key and value of a field tuple (escaped at lines 280-283), escaped again when the row is written, have every pipe preceded by two backslashes |
| FormFields.RunBoxEncloses | docai_converter.py:308 | A group's box encloses every member's box |
| PageItems.TableItemsAt | docai_converter.py:404-418 | Table item k is table k converted, with k as its label index |
| PageItems.KvItemsAt | docai_converter.py:422-433 | Key-value item k is group k |
| PageItems.PlaceTables | docai_converter.py:403-418 | The table loop gives one item per table, and `consumed` is the merge of their segments |
| PageItems.PlaceGroups | docai_converter.py:421-433 | The group loop appends one item per group and extends `consumed` by their segments |
| PageItems.ConsumedCovers | docai_converter.py:403-433 | `consumed` covers exactly the offsets some placed item's segments cover |
| PageItems.ContainerItem | docai_converter.py:437-456 | A container gives a text item, or none when nothing is left after subtraction or the text is blank |
| PageItems.PlaceText | docai_converter.py:436-456 | The container loop appends the containers' text items and takes `consumed` as it is, without adding to it |
| PageItems.AssemblePage | docai_converter.py:385-456 | A page's items are its tables, then its groups, then its residual text items |
| PageItems.TextItemExcludes | docai_converter.py:437-456 | A text item's segments cover exactly the container's offsets outside `consumed`; its text is non-blank, the cleaned-up text of those segments, and its box is the container's |
| PageItems.ConsumedContainerDropped | docai_converter.py:439-441 | A container whose text is all consumed gives no item |
| PageItems.TextItemsFrom | docai_converter.py:436-456 | Every text item comes from one of the page's containers |
| PageItems.PageTextDisjoint | docai_converter.py:399-456 | On every page, each item after the tables and groups is a text item that covers none of the text under a table or group |
| PageItems.PageItemsProducible | docai_converter.py:399-456 | Every text item starts with a non-whitespace character and every group has a row |
| PageItems.OrderItems | docai_converter.py:460-474 | The final sort is a permutation of the page's items |
| PageItems.TwoColumnOrder | docai_converter.py:465-472 | On a two-column page, left-column items come before right-column items, and within a column items go by position |
| PageItems.OrderedByColumn | docai_converter.py:465-472 | On a two-column page the items are sorted by column, then position |
| PageItems.OneColumnOrder | docai_converter.py:473-474 | On a one-column page the items are sorted by position |
| Converter.RenderKvRows | docai_converter.py:503-504 | The row loop writes one `\| key \| value \|` line per row |
| Converter.RenderTextItem | docai_converter.py:479-495 | A text item renders as its joined lines with a final line feed, and the spans comment when debugging |
| Converter.RenderKvItem | docai_converter.py:496-507 | A key-value item renders as its optional header, rows, a blank line and the optional comment |
| Converter.RenderTableItem | docai_converter.py:508-517 | A table item renders as the optional label, the HTML or Markdown table, a blank line and the optional comment |
| Converter.RenderItem | docai_converter.py:478-517 | One item renders by its kind |
| Converter.RenderItems | docai_converter.py:478-517 | The render loop concatenates the items' lines in order |
| Converter.SortItems | docai_converter.py:460-474 | The sort is the column-aware order when two columns are detected, else by position |
| Converter.RenderPage | docai_converter.py:385-520 | Page p of n renders as its header, its ordered items, and the separator when asked for and not on the last page |
| Converter.ConvertDocument | docai_converter.py:350-522 | The converter returns the title line and every page's lines, joined by line feeds |
| Converter.MarkdownStartsWithTitle | docai_converter.py:380-383 | The Markdown starts with the title line |
| Converter.TitleLineHeading | docai_converter.py:383 | The title line is a level-one heading |
| Converter.DefaultTitleLine | docai_converter.py:381-383 | Without a display name the title is "Document" |
| Converter.PageHeaderAt | docai_converter.py:385-477 | Pages appear in order, page i under the header numbered i + 1 |
| Converter.PageSeparatorCount | docai_converter.py:519-520 | Page p of n holds one separator when separators are on and p < n, else none |
| Converter.SeparatorsBetweenPages | docai_converter.py:519-520 | With `page_sep` a document of n > 0 pages holds exactly n - 1 separators; without it, none |
| Converter.TableRendering | docai_converter.py:508-515 | A table renders as HTML exactly when a cell spans, else as Markdown; "### Table" comes first with `label_tables`, and a blank line follows |
| Converter.KvRendering | docai_converter.py:496-505 | A group renders as the optional "\| Field \| Value \|" header, one line per row and a blank line |
| Converter.KvRowRendered | docai_converter.py:503-504 | Row i of a group renders as the line of its two escaped cells |
| Converter.KvGroupsRendered | docai_converter.py:497-499 | No group on a page is skipped for want of rows |
| Converter.ItemLinesBody | docai_converter.py:478-517 | No line a producible item renders starts with a line feed, so none is a page header or a separator |
| Extractor.LayoutText | services/pdf_extractor.py:389-411 | The text of a layout is no longer than the document text, and is "" without an anchor |
| Extractor.LayoutTextFirstSegment | services/pdf_extractor.py:396-407 | Only the first segment is read, and a segment inside the text gives exactly its slice |
| Extractor.BoundingBoxEncloses | services/pdf_extractor.py:413-429 | The box of a rectangle encloses all its vertices; fewer than three vertices give a box of zero size |
| Extractor.ConfidenceSumBounds | services/pdf_extractor.py:436-438 | The confidence sum lies between n times the lowest and n times the highest confidence |
| Extractor.PageConfidenceBounds | services/pdf_extractor.py:431-439 | The page confidence, the mean of the element confidences, lies between the lowest and the highest |
| Extractor.ExtractPageText | services/pdf_extractor.py:267-286 | The paragraph loop builds the page text and the text elements from the non-blank paragraphs |
| Extractor.ExtractText | services/pdf_extractor.py:255-303 | The page loop returns the page records and their texts joined by a blank line |
| Extractor.PageRecordsAt | services/pdf_extractor.py:263-296 | Page i of the response becomes record i, numbered i + 1, with its stripped text, elements, word count and confidence |
| Extractor.ElementsTrimmed | services/pdf_extractor.py:270-286 | Every text element is non-blank and trimmed, and there are no more elements than paragraphs |
| Extractor.RawTextHoldsPages | services/pdf_extractor.py:297-303 | The raw text holds every page's stripped text, empty pages included, at its offset in the "\n\n" join |
| Extractor.ParseRow | services/pdf_extractor.py:364-366 | The cell loop gives the stripped text of each cell |
| Extractor.ParseBodyRows | services/pdf_extractor.py:362-367 | The body-row loop gives one list of cell texts per row |
| Extractor.ParseHeaderRows | services/pdf_extractor.py:370-378 | The header-row loop flattens all header cells into one list |
| Extractor.ParseTable | services/pdf_extractor.py:355-383 | `_parse_table` gives the body rows, the flattened headers and the confidence 0.9 |
| Extractor.TableDataShape | services/pdf_extractor.py:362-378 | Body row i gives data row i, one stripped text per cell; headers count every header cell |
| Extractor.ExtractPageTables | services/pdf_extractor.py:319-343 | The table loop of one page returns that page's table records |
| Extractor.ExtractTables | services/pdf_extractor.py:309-349 | The page loop returns the table records of the whole document |
| Extractor.PageTableRecordsConsistent | services/pdf_extractor.py:327-341 | Table k of page p has id "page_p_table_(k+1)", page number p and table number k + 1; its row count is its data rows and its column count its headers |
| Extractor.TableRecordsShape | services/pdf_extractor.py:316-343 | One record per table, each consistent, in ascending (page, table) order, on pages of the document |
| Extractor.TableIdInjective | services/pdf_extractor.py:328 | Different (page, table) pairs never give the same table id |
| Extractor.TableIdsUnique | services/pdf_extractor.py:316-343 | No two table records of a document share an id |
| Extractor.ParseResponse | services/pdf_extractor.py:222-249 | The response becomes the pages, tables, metadata and raw text |
| Extractor.ResultCounts | services/pdf_extractor.py:232-240 | `total_pages` is the number of pages and of page records; `total_tables` is the number of table records |
| Extractor.ExtractFromPdf | services/pdf_extractor.py:35-63 | No document is an error ("Document AI processing failed"), a document is its parsed result |
| PdfChunker.ChunkPathBasename | pdf_chunker.py:77-78 | A chunk file is named `chunk_<id>_<basename>`, in the PDF's directory |
| PdfChunker.ChunkPathsDistinct | pdf_chunker.py:77-78 | Different chunks of one PDF are saved to different files |
| PdfChunker.ChunkPathNotSource | pdf_chunker.py:77-78 | A chunk file is never the PDF itself |
| PdfChunker.ChunksFromStep | pdf_chunker.py:68-91 | The chunk one turn of the loop builds is the next chunk of the plan |
| PdfChunker.SaveChunks | pdf_chunker.py:64-96 | The loop returns the planned chunks and saves exactly their files |
| PdfChunker.ChunkPdf | pdf_chunker.py:32-104 | `chunk_pdf` returns the plan, or the error of a zero step, and saves the chunk files of the plan |
| PdfChunker.PlanDirectIff | pdf_chunker.py:51-62 | A PDF that fits one request is exactly one unchunked piece (id 0, pages 1 to total, the PDF's own path); otherwise the plan is not such a piece |
| PdfChunker.PlanPartitions | pdf_chunker.py:64-96 | A larger PDF is split into chunks starting at page 1 and ending at the last page; each chunk starts right after the previous one, ids run from 0, every chunk but the last holds exactly `chunk_size` pages, the page counts sum to the total, and there are ceil(total / chunk_size) chunks |
| PdfChunker.PageInOneChunk | pdf_chunker.py:68-91 | Each page of the PDF lies in exactly one chunk |
| PdfChunker.ChunkCountBounds | pdf_chunker.py:68 | The number of steps of the range is ceil((total - start) / chunk_size) |
| PdfChunker.ShiftPagesAt | pdf_chunker.py:138-141 | Page i of a chunk gets the page number it had plus the pages merged before it |
| PdfChunker.ShiftTablesAt | pdf_chunker.py:145-148 | Table i of a chunk has its page number moved by the pages merged before it |
| PdfChunker.AppendShiftedPages | pdf_chunker.py:137-141 | The page loop appends the chunk's renumbered pages |
| PdfChunker.AppendShiftedTables | pdf_chunker.py:144-148 | The table loop appends the chunk's renumbered tables |
| PdfChunker.MergeChunk | pdf_chunker.py:127-155 | One pass of the merge loop leaves a failed chunk's state untouched, and for a successful chunk appends its renumbered pages and tables, its non-empty text, and adds its page count to the running total |
| PdfChunker.MergeResults | pdf_chunker.py:106-176 | `merge_results` sorts the results by chunk id, folds them and builds the merged metadata |
| PdfChunker.MergeSkipsFailures | pdf_chunker.py:127-132 | Failed chunks contribute no pages, tables or text |
| PdfChunker.MergeFoldTotals | pdf_chunker.py:127-155 | The running total counts the pages of the successful chunks, and each of their pages and tables is merged once |
| PdfChunker.MergedCounts | pdf_chunker.py:157-167 | `total_pages` is the page total of the successful chunks, `chunks_processed` counts every result, failures included, and the method is "chunked_document_ai" |
| PdfChunker.MergedPagesSequential | pdf_chunker.py:119-167 | When each chunk numbers its pages from 1, the merged pages are numbered 1 to `total_pages` and every table sits on one of them |
| PdfChunker.MergeOrderFree | pdf_chunker.py:119-120 | For distinct chunk ids the merge does not depend on the order the results arrive in |
| PdfChunker.MergedTextEmpty | pdf_chunker.py:150-153 | Chunk data without a "full_text" entry, as the extractor's results are, merges to an empty `full_text` |
| PdfChunker.CleanupChunks | pdf_chunker.py:178-198 | The loop removes each existing chunk file in turn, and the first removal that fails ends it |
| PdfChunker.CleanupRemovesOnlyChunks | pdf_chunker.py:185-198 | Cleanup removes only chunk files and leaves everything else as it was |
| PdfChunker.CleanupRemovesAll | pdf_chunker.py:187-193 | When no chunk file is protected, cleanup removes all of them |
| ChunkedProcessor.ExtractionOf | chunked_processor.py:59-63 | Extraction of a chunk fails exactly when Document AI returns no document |
| ChunkedProcessor.ExtractChunks | chunked_processor.py:52-88 | The chunk loop records one entry per chunk, in order; a failing chunk is recorded, not raised |
| ChunkedProcessor.ChunkResultsAt | chunked_processor.py:54-88 | Chunk k gets entry k: same id and chunk info; it failed, with the extractor's message, exactly when the extractor failed on its file; otherwise it holds the extracted data |
| ChunkedProcessor.ProcessLargePdf | chunked_processor.py:34-108 | `process_large_pdf` plans, extracts every chunk, merges, cleans up and tags the result with "chunked_document_ai", the PDF and the chunk count; a planning error is passed on |
| ChunkedProcessor.ProcessSmallPdf | chunked_processor.py:110-132 | `process_small_pdf` is the extractor's result tagged with "direct_document_ai" and the PDF, or its error |
| ChunkedProcessor.ProcessPdf | chunked_processor.py:134-161 | `process_pdf` takes the direct path for a single unchunked piece, else the chunked path |
| ChunkedProcessor.ProcessRoute | chunked_processor.py:148-157 | A PDF that fits goes direct and leaves the file system as it was; a chunk size of 0 for a non-empty PDF is an error; otherwise the result is chunked with one chunk per planned chunk |
| ChunkedProcessor.PdfOfChunked | chunked_processor.py:148-157 | On the chunked path the result is the merge of the plan's chunk results, and the files are what cleanup leaves |
| ChunkedProcessor.SavedFilesAreChunkFiles | chunked_processor.py:48 | The files a plan saves are chunk files, and the PDF is not among them |
| ChunkedProcessor.OriginalKept | chunked_processor.py:134-161 | Processing never removes the PDF it was given |
| ChunkedProcessor.NoChunkFilesLeft | chunked_processor.py:94-96 | With no chunk file protected, the chunked path leaves every file as it was, minus the chunk files it saved |
| ChunkedProcessor.PlanChunkFiles | pdf_chunker.py:68-91 | Chunk k of a chunked plan is saved as that chunk's file, and there are no more chunks than pages |
| ChunkedProcessor.ChunkResultsSorted | chunked_processor.py:52-92 | Chunks numbered 0, 1, ... give results already in the order `merge_results` sorts them into |
| ChunkedProcessor.ExtractedWellNumbered | services/pdf_extractor.py:263-343 | The extractor numbers its pages from 1 and puts every table on one of them |
| ChunkedProcessor.ExtractionCounts | chunked_processor.py:59-63 | A chunk Document AI reports in full is extracted with one page record per page |
| ChunkedProcessor.MergeFoldCountsPages | chunked_processor.py:52-92 | With every chunk extracted, one page record per chunk page, the merge counts every page of the chunks |
| ChunkedProcessor.MergedAllChunks | chunked_processor.py:52-92 | Fully extracted chunks merge into one result: every page counted, numbered from 1, every chunk processed, empty `full_text` |
| ChunkedProcessor.ProcessedPagesSequential | chunked_processor.py:134-161 | Whatever the chunks give back, a processed PDF has its pages numbered 1, 2, ... and its tables on them, on both paths |
| ChunkedProcessor.ChunkedResultComplete | chunked_processor.py:34-108 | When Document AI reports every chunk in full, the chunked result holds all the PDF's pages, numbered 1 to the page count, with every chunk processed and created |
| FileHandler.ValidateFile | utils/file_handler.py:11-68 | Valid exactly when there are no errors. A missing file gives exactly "File does not exist" and no info. Otherwise the info is the basename, size and lower-cased extension, and the errors are the size error (size over the maximum) followed by the type error (extension not ".pdf") |
| FileHandler.ErrorsDistinct | utils/file_handler.py:29-57 | The three error messages are told apart by their text |
| FileHandler.CleanupFile | utils/file_handler.py:70-89 | True exactly when the file existed and was removed; only then is it gone; it never raises |
| FileHandler.SafeFilename | utils/file_handler.py:91-106 | The safe name has the same length; every character is a word character, "-" or "."; an allowed character is kept and any other becomes "_" |
| FileHandler.SafeFilenameKeepsSafe | utils/file_handler.py:105 | A name of allowed characters only is left as it is |
| FileHandler.SafeFilenameIdempotent | utils/file_handler.py:105 | Sanitising twice is sanitising once |

## Left out

- **I/O and the outside world.**
  - The call to Document AI (`_process_with_document_ai`, `_process_large_document`) is the parameter `process`. The extractor's `extract_text_only` and `extract_tables_only` are not part of this model.
  - PyMuPDF I/O: opening the PDF, copying pages and saving chunk files. The page count is a parameter, and saving a chunk adds its path to the file system value.
  - `os.path.exists`, `os.path.getsize` and `os.remove` are read off the file system value and the `sizeOf` parameter.
  - Logging is left out everywhere.
  - `app.py` (HTTP routes and uploads), environment loading in `utils/config.py`, `validate_google_config` and `services/__init__.py` are not part of this model. Only `MAX_PAGES_PER_REQUEST`'s default of 15 is kept.
- **Exceptions the model has no source for.**
  - The only failure of extraction is a missing document. Other exceptions are not modelled: from the SDK, or from a per-layout or per-table failure (the `except` branches at services/pdf_extractor.py:385-387, 409-411 and 427-429).
  - `validate_file`'s generic exception branch (utils/file_handler.py:63-66) is not modelled.
  - A failure of `fitz` in `chunk_pdf` is not modelled. The one error the plan can raise is `range()` with a step of 0.
- **Shape of the response object.**
  - The protobuf truthiness of `not document` and `not layout.text_anchor` becomes `None` and an empty anchor list.
  - The JSON key variants that `_get` and `_doc_obj` accept become datatype fields.
  - `_extract_entities` and `_extract_form_fields` are not part of this model. Neither is `_calculate_overall_confidence`, which is the constant 0.95.
  - Per-paragraph confidence is `Option<real>`. A paragraph without one counts as `DefaultConfidence`, 1.0 (services/pdf_extractor.py:279-281).
- **Floating point.**
  - Coordinates are exact reals.
  - `round(..., 4)` is left out of the sort keys.
  - `_norm_vertices`' division of pixel vertices by their maximum is left out: layouts carry normalised vertices.
  - NaN arises where the source adds `inf` and `-inf` for an item without vertices: the centre of the sentinel box, and the middle of a key-value pair without a box. The model treats such a value as a missing coordinate, which compares false against the row threshold as NaN does; its place in the order is as the lines below say.
- **Python text semantics.**
  - `\w`, `str.isupper` and `str.istitle` are taken on ASCII.
  - `lower()` lower-cases ASCII letters only.
  - `str.isspace` and `str.strip` use the Unicode whitespace set.
- **In-place updates.** Sorting items and chunk results in place, and rewriting `page_number` inside the chunk's own page dictionaries, are modelled on values. The model does not capture that the caller's lists and dictionaries are aliased and changed.
- **Order of the merged metadata.** PdfChunker.MergedCounts states `total_pages` over the results in chunk-id order, not as a sum that ignores order. PdfChunker.MergeOrderFree covers the order for distinct ids.
- PageItems.Containers: the choice of blocks, else paragraphs, else lines is stated by its definition only.
- MarkdownText.IsHeadingLike: its contract states only the necessary conditions. MarkdownText.UpperLineIsHeading gives one sufficient case. The title-case branch is stated by the definition alone.
- Extractor.BoundingBoxEncloses: it states enclosure only for rectangles. An arbitrary polygon's box is taken from vertices 0 and 2, which need not enclose the others.
- Geometry.MaybeTwoColumns: drops the centre of a box-less item, whereas the source keeps its NaN in `xs`. Since NaN compares false, `sorted` leaves it about where the input put it, and a NaN gap is never chosen by `max` after a real one but is kept when it comes first, which gives one column. The model differs from the source only on pages holding an item without vertices.
- Geometry.MaybeTwoColumnsOrderFree: order-independence is proved of the model, which drops NaN centres; the source's answer with a NaN centre can depend on the input order.
- Geometry.OptKeyOrder: `None` sorts after every number. That is where Python puts the sentinel's `inf`, but a NaN key, which Python's sort leaves in its input place, is not told apart from it.
- FormFields.FieldsToGroups: a tuple without a y sorts last in the model. Python's sort leaves a tuple with a NaN y where the input put it, so the source's groups can differ when a field has no box.
- Converter.SortItems: an item whose key holds NaN sorts after the others in the model. The source's sort leaves it in its input place. A box-less table or text item has the `inf` key, which does sort last, as in the model; the NaN key is that of a key-value group with no box at all.
