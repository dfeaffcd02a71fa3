/**
 * ChunkedPDFProcessor (chunked_processor.py): send a PDF that fits one
 * Document AI request straight to the extractor; otherwise cut it into
 * chunk files, extract each chunk, merge the results and remove the chunk
 * files.  The Document AI call is the processor's `process` function; the
 * PDF's page count is a parameter.
 */
module ChunkedProcessor {
  import opened Results
  import opened Os
  import opened Seqs
  import opened Sorting
  import opened Extractor
  import opened PdfChunker

  /** A ChunkedPDFProcessor: its chunker and the Document AI call of its extractor. */
  datatype Processor = Processor(chunker: Chunker, process: string -> Option<Document>)

  /** The result with the processing metadata the processor adds. */
  datatype Processed =
    | Direct(result: ExtractionResult, processingMethod: string, originalFile: string)
    | Chunked(merged: Merged, processingMethod: string, originalFile: string, chunksCreated: nat)

  const DirectMethod := "direct_document_ai"

  // ---------------------------------------------------------------------------
  // The processing, as functions
  // ---------------------------------------------------------------------------

  /** extract_from_pdf as the chunk loop sees it: the result, or the message of the exception it raises. */
  function ExtractionOf(process: string -> Option<Document>): (extract: string -> Result<ExtractionResult>)
    ensures forall path :: extract(path).Err? <==> process(path).None?
  {
    (path: string) => if process(path).None? then Err(ProcessingFailed) else Ok(ResultOf(process(path).value))
  }

  /** The entry process_large_pdf records for one chunk: its data, or the error it failed with. */
  function ChunkResultOf(extract: string -> Result<ExtractionResult>, c: ChunkInfo): ChunkResult {
    var e := extract(c.filePath);
    ChunkResult(c.chunkId, if e.Ok? then Succeeded(DataOf(e.value)) else Failed(e.error), c)
  }

  function ChunkResultsOf(extract: string -> Result<ExtractionResult>, chunks: seq<ChunkInfo>): (r: seq<ChunkResult>)
    ensures |r| == |chunks|
  {
    if chunks == [] then []
    else ChunkResultsOf(extract, chunks[..|chunks| - 1]) + [ChunkResultOf(extract, chunks[|chunks| - 1])]
  }

  /** The file system once chunk_pdf has saved the chunk files of a plan. */
  function AfterChunking(plan: Result<seq<ChunkInfo>>, fs: FileSystem): FileSystem {
    fs.(files := fs.files + (if plan.Ok? then SavedFiles(plan.value) else {}))
  }

  /** process_large_pdf. */
  function LargeOf(p: Processor, pdfPath: string, totalPages: nat, fs: FileSystem): (Result<Processed>, FileSystem) {
    var plan := PlanChunks(pdfPath, totalPages, p.chunker.chunkSize);
    var fs1 := AfterChunking(plan, fs);
    if plan.Err? then (Err(plan.error), fs1)
    else
      var merged := MergedOf(ChunkResultsOf(ExtractionOf(p.process), plan.value));
      (Ok(Chunked(merged, MergedMethod, pdfPath, |plan.value|)), CleanupOf(plan.value, fs1))
  }

  /** process_small_pdf. */
  function SmallOf(p: Processor, pdfPath: string): Result<Processed> {
    match p.process(pdfPath)
    case None => Err(ProcessingFailed)
    case Some(doc) => Ok(Direct(ResultOf(doc), DirectMethod, pdfPath))
  }

  /** process_pdf: plan once to decide, then take the direct or the chunked path. */
  function PdfOf(p: Processor, pdfPath: string, totalPages: nat, fs: FileSystem): (Result<Processed>, FileSystem) {
    var plan := PlanChunks(pdfPath, totalPages, p.chunker.chunkSize);
    var fs1 := AfterChunking(plan, fs);
    if plan.Err? then (Err(plan.error), fs1)
    else if |plan.value| == 1 && !plan.value[0].isChunked then (SmallOf(p, pdfPath), fs1)
    else LargeOf(p, pdfPath, totalPages, fs1)
  }

  // ---------------------------------------------------------------------------
  // The processing, as the source's methods
  // ---------------------------------------------------------------------------

  /** The chunk loop of process_large_pdf: a failing chunk is recorded, not raised. */
  method ExtractChunks(p: Processor, chunks: seq<ChunkInfo>) returns (chunkResults: seq<ChunkResult>)
    ensures chunkResults == ChunkResultsOf(ExtractionOf(p.process), chunks)
  {
    chunkResults := [];
    var i := 0;
    while i < |chunks|
      invariant 0 <= i <= |chunks|
      invariant chunkResults == ChunkResultsOf(ExtractionOf(p.process), chunks[..i])
    {
      var chunk := chunks[i];
      var chunkResult := ExtractFromPdf(p.process, chunk.filePath);
      assert chunks[..i + 1][..i] == chunks[..i];
      match chunkResult {
        case Ok(data) =>
          chunkResults := chunkResults + [ChunkResult(chunk.chunkId, Succeeded(DataOf(data)), chunk)];
        case Err(e) =>
          chunkResults := chunkResults + [ChunkResult(chunk.chunkId, Failed(e), chunk)];
      }
      i := i + 1;
    }
    assert chunks[..i] == chunks;
  }

  method ProcessLargePdf(p: Processor, pdfPath: string, totalPages: nat, fs: FileSystem)
    returns (r: Result<Processed>, fs': FileSystem)
    ensures (r, fs') == LargeOf(p, pdfPath, totalPages, fs)
  {
    var chunks;
    chunks, fs' := ChunkPdf(p.chunker, pdfPath, totalPages, fs);
    if chunks.Err? {
      return Err(chunks.error), fs';
    }
    var chunkResults := ExtractChunks(p, chunks.value);
    var mergedResult := MergeResults(chunkResults);
    fs' := CleanupChunks(chunks.value, fs');
    r := Ok(Chunked(mergedResult, MergedMethod, pdfPath, |chunks.value|));
  }

  method ProcessSmallPdf(p: Processor, pdfPath: string) returns (r: Result<Processed>)
    ensures r == SmallOf(p, pdfPath)
  {
    var result := ExtractFromPdf(p.process, pdfPath);
    if result.Err? {
      return Err(result.error);
    }
    r := Ok(Direct(result.value, DirectMethod, pdfPath));
  }

  method ProcessPdf(p: Processor, pdfPath: string, totalPages: nat, fs: FileSystem)
    returns (r: Result<Processed>, fs': FileSystem)
    ensures (r, fs') == PdfOf(p, pdfPath, totalPages, fs)
  {
    var chunks;
    chunks, fs' := ChunkPdf(p.chunker, pdfPath, totalPages, fs);
    if chunks.Err? {
      return Err(chunks.error), fs';
    }
    if |chunks.value| == 1 && !chunks.value[0].isChunked {
      r := ProcessSmallPdf(p, pdfPath);
    } else {
      r, fs' := ProcessLargePdf(p, pdfPath, totalPages, fs');
    }
  }

  // ---------------------------------------------------------------------------
  // Properties
  // ---------------------------------------------------------------------------

  /**
   * Chunk `k` gets entry `k`: same id, same info, and it failed, with the
   * extractor's message, exactly when the extractor failed on its file.
   */
  lemma {:induction false} ChunkResultsAt(extract: string -> Result<ExtractionResult>, chunks: seq<ChunkInfo>, k: nat)
    requires k < |chunks|
    ensures var r := ChunkResultsOf(extract, chunks)[k];
            var e := extract(chunks[k].filePath);
            r.chunkId == chunks[k].chunkId && r.info == chunks[k]
            && (r.outcome.Failed? <==> e.Err?)
            && (r.outcome.Failed? ==> r.outcome.error == e.error)
            && (r.outcome.Succeeded? ==> r.outcome.data == DataOf(e.value))
    decreases |chunks|
  {
    if k < |chunks| - 1 {
      ChunkResultsAt(extract, chunks[..|chunks| - 1], k);
    }
  }

  /**
   * The route process_pdf takes: straight to the extractor, leaving the
   * file system as it was, when the PDF fits one request; an error for a
   * chunk size of 0; the chunked path otherwise.
   */
  lemma ProcessRoute(p: Processor, pdfPath: string, totalPages: nat, fs: FileSystem)
    ensures var (r, fs') := PdfOf(p, pdfPath, totalPages, fs);
            var cs := p.chunker.chunkSize;
            (totalPages <= cs ==> r == SmallOf(p, pdfPath) && fs' == fs)
            && (cs == 0 < totalPages ==> r == Err(RangeStepZero))
            && (cs != 0 && cs < totalPages ==>
                 r.Ok? && r.value.Chunked? && r.value.chunksCreated == |PlanChunks(pdfPath, totalPages, cs).value|)
  {
    var cs := p.chunker.chunkSize;
    var plan := PlanChunks(pdfPath, totalPages, cs);
    PlanDirectIff(pdfPath, totalPages, cs);
    if totalPages <= cs {
      assert SavedFiles(plan.value) == {};
      assert AfterChunking(plan, fs) == fs;
    }
  }

  /** The files a plan saves are chunk files; in particular the PDF itself is not among them. */
  lemma SavedFilesAreChunkFiles(pdfPath: string, totalPages: nat, chunkSize: int)
    requires PlanChunks(pdfPath, totalPages, chunkSize).Ok?
    ensures var s := PlanChunks(pdfPath, totalPages, chunkSize).value;
            pdfPath !in SavedFiles(s)
            && forall k :: 0 <= k < |s| && s[k].isChunked ==> s[k].filePath == ChunkPath(pdfPath, k)
  {
    var s := PlanChunks(pdfPath, totalPages, chunkSize).value;
    if 0 < chunkSize < totalPages {
      PlanPartitions(pdfPath, totalPages, chunkSize);
      forall k | 0 <= k < |s| && s[k].isChunked ensures s[k].filePath == ChunkPath(pdfPath, k) {
        assert WellFormedChunk(s[k], ChunkPaths(pdfPath), chunkSize, k);
      }
      if pdfPath in SavedFiles(s) {
        var k :| 0 <= k < |s| && s[k].isChunked && s[k].filePath == pdfPath;
        ChunkPathNotSource(pdfPath, k);
      }
    }
  }

  /** Processing never removes the PDF it was given, whatever it removes. */
  lemma OriginalKept(p: Processor, pdfPath: string, totalPages: nat, fs: FileSystem)
    requires pdfPath in fs.files
    ensures pdfPath in PdfOf(p, pdfPath, totalPages, fs).1.files
  {
    var plan := PlanChunks(pdfPath, totalPages, p.chunker.chunkSize);
    if plan.Ok? {
      var fs1 := AfterChunking(plan, fs);
      var fs2 := AfterChunking(plan, fs1);
      SavedFilesAreChunkFiles(pdfPath, totalPages, p.chunker.chunkSize);
      CleanupRemovesOnlyChunks(plan.value, fs2);
    }
  }

  /**
   * With no chunk file protected against removal, the chunked path leaves
   * exactly the files that were there before, less any stale file of the
   * same name as a chunk: every chunk file it saved is gone.
   */
  lemma NoChunkFilesLeft(p: Processor, pdfPath: string, totalPages: nat, fs: FileSystem)
    requires 0 < p.chunker.chunkSize < totalPages
    requires forall k :: 0 <= k < totalPages ==> ChunkPath(pdfPath, k) !in fs.locked
    ensures var plan := PlanChunks(pdfPath, totalPages, p.chunker.chunkSize).value;
            PdfOf(p, pdfPath, totalPages, fs).1 == fs.(files := fs.files - SavedFiles(plan))
  {
    var plan := PlanChunks(pdfPath, totalPages, p.chunker.chunkSize);
    var s := plan.value;
    PdfOfChunked(p, pdfPath, totalPages, fs);
    PlanChunkFiles(pdfPath, totalPages, p.chunker.chunkSize);
    var fs1 := AfterChunking(plan, fs);
    forall k | 0 <= k < |s| && s[k].isChunked ensures s[k].filePath != "" && s[k].filePath !in fs1.locked {
      ChunkPathBasename(pdfPath, k);
    }
    CleanupRemovesAll(s, fs1);
    assert fs1.files - SavedFiles(s) == fs.files - SavedFiles(s);
  }

  /** Chunk `k` of a chunked plan is saved as ChunkPath(pdfPath, k), and there are no more chunks than pages. */
  lemma PlanChunkFiles(pdfPath: string, totalPages: nat, chunkSize: int)
    requires 0 < chunkSize < totalPages
    ensures var s := PlanChunks(pdfPath, totalPages, chunkSize).value;
            |s| <= totalPages
            && forall k :: 0 <= k < |s| ==> s[k].isChunked && s[k].filePath == ChunkPath(pdfPath, k)
  {
    var s := PlanChunks(pdfPath, totalPages, chunkSize).value;
    PlanPartitions(pdfPath, totalPages, chunkSize);
    forall k | 0 <= k < |s| ensures s[k].pageCount >= 1 && s[k].isChunked && s[k].filePath == ChunkPath(pdfPath, k) {
      assert WellFormedChunk(s[k], ChunkPaths(pdfPath), chunkSize, k);
    }
    PageCountAtLeastLength(s);
  }

  /** Chunks hold at least one page each, so there are no more chunks than pages. */
  lemma {:induction false} PageCountAtLeastLength(s: seq<ChunkInfo>)
    requires forall k :: 0 <= k < |s| ==> s[k].pageCount >= 1
    ensures |s| <= PageCountSum(s)
  {
    if s != [] {
      assert forall k :: 0 <= k < |s[1..]| ==> s[1..][k].pageCount >= 1 by {
        forall k | 0 <= k < |s[1..]| ensures s[1..][k].pageCount >= 1 { assert s[1..][k] == s[k + 1]; }
      }
      PageCountAtLeastLength(s[1..]);
    }
  }

  /** What the extractor returns has its pages numbered from 1 and its tables on those pages. */
  lemma ExtractedWellNumbered(doc: Document)
    ensures var r := ResultOf(doc);
            NumberedFromOne(r.pages) && TablesWithin(r.tables, |r.pages|)
  {
    var r := ResultOf(doc);
    forall i | 0 <= i < |r.pages| ensures r.pages[i].pageNumber == i + 1 {
      PageRecordsAt(doc.pages, doc.text, i);
    }
    TableRecordsShape(doc.pages, doc.text);
  }

  lemma ChunkResultsWellNumbered(extract: string -> Result<ExtractionResult>, chunks: seq<ChunkInfo>)
    requires forall k :: 0 <= k < |chunks| && extract(chunks[k].filePath).Ok? ==>
               var d := extract(chunks[k].filePath).value;
               NumberedFromOne(d.pages) && TablesWithin(d.tables, |d.pages|)
    ensures AllWellNumbered(ChunkResultsOf(extract, chunks))
  {
    var rs := ChunkResultsOf(extract, chunks);
    forall k | 0 <= k < |rs| ensures WellNumbered(rs[k]) {
      ChunkResultsAt(extract, chunks, k);
    }
  }

  /** Every chunk the extractor processes comes back numbered from 1. */
  lemma ExtractionWellNumbered(process: string -> Option<Document>, chunks: seq<ChunkInfo>)
    ensures forall k :: 0 <= k < |chunks| && ExtractionOf(process)(chunks[k].filePath).Ok? ==>
              var d := ExtractionOf(process)(chunks[k].filePath).value;
              NumberedFromOne(d.pages) && TablesWithin(d.tables, |d.pages|)
  {
    forall k | 0 <= k < |chunks| && ExtractionOf(process)(chunks[k].filePath).Ok?
      ensures var d := ExtractionOf(process)(chunks[k].filePath).value;
              NumberedFromOne(d.pages) && TablesWithin(d.tables, |d.pages|)
    {
      ExtractedWellNumbered(process(chunks[k].filePath).value);
    }
  }

  /** A chunk Document AI reports in full is extracted with one result page per page. */
  lemma ExtractionCounts(process: string -> Option<Document>, chunks: seq<ChunkInfo>)
    requires forall c :: c in chunks ==> process(c.filePath).Some? && |process(c.filePath).value.pages| == c.pageCount
    ensures forall k :: 0 <= k < |chunks| ==>
              (ExtractionOf(process)(chunks[k].filePath).Ok?
               && |ExtractionOf(process)(chunks[k].filePath).value.pages| == chunks[k].pageCount)
  {
    forall k | 0 <= k < |chunks|
      ensures ExtractionOf(process)(chunks[k].filePath).Ok?
              && |ExtractionOf(process)(chunks[k].filePath).value.pages| == chunks[k].pageCount
    {
      assert chunks[k] in chunks;
      ResultCounts(process(chunks[k].filePath).value);
    }
  }

  /** Chunks numbered 0, 1, ... give results already in the order merge_results sorts them into. */
  lemma ChunkResultsSorted(extract: string -> Result<ExtractionResult>, chunks: seq<ChunkInfo>)
    requires forall k :: 0 <= k < |chunks| ==> chunks[k].chunkId == k
    ensures SortBy(ChunkResultsOf(extract, chunks), ChunkKey) == ChunkResultsOf(extract, chunks)
  {
    var rs := ChunkResultsOf(extract, chunks);
    forall k | 0 <= k < |rs| ensures rs[k].chunkId == k {
      ChunkResultsAt(extract, chunks, k);
    }
    assert SortedBy(rs, ChunkKey);
    SortBySorted(rs, ChunkKey);
  }

  /** With every chunk extracted, one result page per chunk page, the merge counts every page. */
  lemma {:induction false} MergeFoldCountsPages(extract: string -> Result<ExtractionResult>, chunks: seq<ChunkInfo>)
    requires forall k :: 0 <= k < |chunks| ==>
               (extract(chunks[k].filePath).Ok? && |extract(chunks[k].filePath).value.pages| == chunks[k].pageCount)
    ensures MergeFold(ChunkResultsOf(extract, chunks)).totalPages == PageCountSum(chunks)
    decreases |chunks|
  {
    if chunks != [] {
      var init, last := chunks[..|chunks| - 1], chunks[|chunks| - 1];
      var rs := ChunkResultsOf(extract, chunks);
      assert rs[..|rs| - 1] == ChunkResultsOf(extract, init);
      forall k | 0 <= k < |init|
        ensures extract(init[k].filePath).Ok? && |extract(init[k].filePath).value.pages| == init[k].pageCount
      {
        assert init[k] == chunks[k];
      }
      MergeFoldCountsPages(extract, init);
      assert chunks == init + [last];
      PageCountSumSnoc(init, last);
    }
  }

  /** Whatever the chunks give back, a processed PDF has its pages numbered 1, 2, ... and its tables on them. */
  lemma ProcessedPagesSequential(p: Processor, pdfPath: string, totalPages: nat, fs: FileSystem)
    ensures var r := PdfOf(p, pdfPath, totalPages, fs).0;
            (r.Ok? && r.value.Chunked? ==>
               var m := r.value.merged;
               m.metadata.totalPages == |m.pages| && NumberedFromOne(m.pages) && TablesWithin(m.tables, |m.pages|))
            && (r.Ok? && r.value.Direct? ==>
               NumberedFromOne(r.value.result.pages) && TablesWithin(r.value.result.tables, |r.value.result.pages|))
  {
    var plan := PlanChunks(pdfPath, totalPages, p.chunker.chunkSize);
    if plan.Ok? {
      ExtractionWellNumbered(p.process, plan.value);
      ChunkResultsWellNumbered(ExtractionOf(p.process), plan.value);
      MergedPagesSequential(ChunkResultsOf(ExtractionOf(p.process), plan.value));
      if p.process(pdfPath).Some? {
        ExtractedWellNumbered(p.process(pdfPath).value);
      }
    }
  }

  /**
   * On the chunked path, process_pdf returns the merged results of the
   * plan's chunks, and leaves the files the cleanup of those chunks leaves.
   */
  lemma PdfOfChunked(p: Processor, pdfPath: string, totalPages: nat, fs: FileSystem)
    requires 0 < p.chunker.chunkSize < totalPages
    ensures var plan := PlanChunks(pdfPath, totalPages, p.chunker.chunkSize);
            var s := plan.value;
            PdfOf(p, pdfPath, totalPages, fs)
            == (Ok(Chunked(MergedOf(ChunkResultsOf(ExtractionOf(p.process), s)), MergedMethod, pdfPath, |s|)),
                CleanupOf(s, AfterChunking(plan, fs)))
  {
    var plan := PlanChunks(pdfPath, totalPages, p.chunker.chunkSize);
    PlanDirectIff(pdfPath, totalPages, p.chunker.chunkSize);
    assert AfterChunking(plan, AfterChunking(plan, fs)) == AfterChunking(plan, fs);
  }

  /**
   * Chunks numbered 0, 1, ..., each extracted with as many pages as it
   * holds, merge into one result with all their pages numbered from 1.
   */
  lemma MergedAllChunks(extract: string -> Result<ExtractionResult>, chunks: seq<ChunkInfo>)
    requires forall k :: 0 <= k < |chunks| ==> chunks[k].chunkId == k
    requires forall k :: 0 <= k < |chunks| ==>
               (extract(chunks[k].filePath).Ok? && |extract(chunks[k].filePath).value.pages| == chunks[k].pageCount)
    requires forall k :: 0 <= k < |chunks| && extract(chunks[k].filePath).Ok? ==>
               var d := extract(chunks[k].filePath).value;
               NumberedFromOne(d.pages) && TablesWithin(d.tables, |d.pages|)
    ensures var m := MergedOf(ChunkResultsOf(extract, chunks));
            m.metadata.totalPages == |m.pages| == PageCountSum(chunks) && m.metadata.chunksProcessed == |chunks|
            && NumberedFromOne(m.pages) && TablesWithin(m.tables, PageCountSum(chunks)) && m.fullText == ""
  {
    var rs := ChunkResultsOf(extract, chunks);
    ChunkResultsSorted(extract, chunks);
    MergeFoldCountsPages(extract, chunks);
    ChunkResultsWellNumbered(extract, chunks);
    MergedPagesSequential(rs);
    forall i | 0 <= i < |rs| && rs[i].outcome.Succeeded? ensures rs[i].outcome.data.fullText == "" {
      ChunkResultsAt(extract, chunks, i);
    }
    MergedTextEmpty(rs);
  }

  /**
   * When every chunk is extracted and Document AI reports each chunk's
   * pages, the chunked result holds all the PDF's pages, numbered 1 to
   * the page count, with every chunk processed and no merged text.
   */
  lemma ChunkedResultComplete(p: Processor, pdfPath: string, totalPages: nat, fs: FileSystem)
    requires 0 < p.chunker.chunkSize < totalPages
    requires forall c :: c in PlanChunks(pdfPath, totalPages, p.chunker.chunkSize).value ==>
               p.process(c.filePath).Some? && |p.process(c.filePath).value.pages| == c.pageCount
    ensures var r := PdfOf(p, pdfPath, totalPages, fs).0;
            var s := PlanChunks(pdfPath, totalPages, p.chunker.chunkSize).value;
            r.Ok? && r.value.Chunked? && r.value.chunksCreated == |s|
            && var m := r.value.merged;
               m.metadata.totalPages == |m.pages| == totalPages && m.metadata.chunksProcessed == |s|
               && NumberedFromOne(m.pages) && TablesWithin(m.tables, totalPages) && m.fullText == ""
  {
    var cs := p.chunker.chunkSize;
    var s := PlanChunks(pdfPath, totalPages, cs).value;
    var ex := ExtractionOf(p.process);
    PlanPartitions(pdfPath, totalPages, cs);
    PdfOfChunked(p, pdfPath, totalPages, fs);
    forall k | 0 <= k < |s| ensures s[k].chunkId == k {
      assert WellFormedChunk(s[k], ChunkPaths(pdfPath), cs, k);
    }
    ExtractionCounts(p.process, s);
    ExtractionWellNumbered(p.process, s);
    MergedAllChunks(ex, s);
  }

}
