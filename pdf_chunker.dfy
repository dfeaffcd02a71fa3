/**
 * PDFChunker (pdf_chunker.py): the plan that splits a PDF into page ranges
 * of at most `chunkSize` pages, the names of the chunk files, the merge of
 * the per-chunk extraction results back into one document, and the removal
 * of the chunk files.  Opening the PDF and copying pages are left to the
 * caller: the plan takes the page count, and saving a chunk adds its path
 * to the file system.
 */
module PdfChunker {
  import opened Results
  import opened Text
  import opened Seqs
  import opened Sorting
  import opened Os
  import opened Extractor

  /** Config.MAX_PAGES_PER_REQUEST when the environment does not set it. */
  const MaxPagesPerRequest := 15

  /** A PDFChunker: nothing but its chunk size, fixed when it is made. */
  datatype Chunker = Chunker(chunkSize: int)

  /** PDFChunker(chunk_size): the configured size stands in for a missing one. */
  function NewChunker(chunkSize: Option<int>, configured: int): Chunker {
    Chunker(chunkSize.GetOr(configured))
  }

  /** The chunk-info dictionary; pages are numbered from 1. */
  datatype ChunkInfo = ChunkInfo(chunkId: nat, startPage: nat, endPage: nat, pageCount: nat,
                                 filePath: string, isChunked: bool)

  const RangeStepZero := "range() arg 3 must not be zero"

  // ---------------------------------------------------------------------------
  // Chunk files
  // ---------------------------------------------------------------------------

  function ChunkName(pdfPath: string, chunkId: nat): string {
    "chunk_" + (NatToString(chunkId) + ("_" + Basename(pdfPath)))
  }

  /** The chunk file lives next to the PDF. */
  function ChunkPath(pdfPath: string, chunkId: nat): string {
    JoinPath(Dirname(pdfPath), ChunkName(pdfPath, chunkId))
  }

  /** The chunk files of a PDF, by chunk id. */
  function ChunkPaths(pdfPath: string): nat -> string {
    (chunkId: nat) => ChunkPath(pdfPath, chunkId)
  }

  lemma ChunkPathBasename(pdfPath: string, chunkId: nat)
    ensures Basename(ChunkPath(pdfPath, chunkId)) == ChunkName(pdfPath, chunkId)
    ensures ChunkPath(pdfPath, chunkId) != ""
  {
    var d := NatToString(chunkId);
    var b := Basename(pdfPath);
    DigitsNoSlash(d);
    BasenameNoSlash(pdfPath);
    assert NoSlash("chunk_") && NoSlash("_");
    NoSlashConcat("_", b);
    NoSlashConcat(d, "_" + b);
    NoSlashConcat("chunk_", d + ("_" + b));
    BasenameOfJoin(Dirname(pdfPath), ChunkName(pdfPath, chunkId));
  }

  /** Different chunks of one PDF are written to different files. */
  lemma ChunkPathsDistinct(pdfPath: string, i: nat, j: nat)
    requires ChunkPath(pdfPath, i) == ChunkPath(pdfPath, j)
    ensures i == j
  {
    ChunkPathBasename(pdfPath, i);
    ChunkPathBasename(pdfPath, j);
    var b := "_" + Basename(pdfPath);
    var n1, n2 := ChunkName(pdfPath, i), ChunkName(pdfPath, j);
    assert n1[6..] == NatToString(i) + b && n2[6..] == NatToString(j) + b;
    DigitsPrefix(NatToString(i), NatToString(j), b, b);
    NatToStringInjective(i, j);
  }

  /** A chunk file is never the PDF it was cut from. */
  lemma ChunkPathNotSource(pdfPath: string, chunkId: nat)
    ensures ChunkPath(pdfPath, chunkId) != pdfPath
  {
    ChunkPathBasename(pdfPath, chunkId);
    assert |ChunkName(pdfPath, chunkId)| > |Basename(pdfPath)|;
  }

  // ---------------------------------------------------------------------------
  // The plan
  // ---------------------------------------------------------------------------

  /** The chunk that starts at 0-based page `start`: it ends `chunkSize - 1` pages on, or at the last page. */
  function ChunkAt(pathOf: nat -> string, totalPages: nat, chunkSize: int, start: nat, chunkId: nat): ChunkInfo
    requires chunkSize > 0 && start < totalPages
  {
    var end := if start + chunkSize - 1 < totalPages - 1 then start + chunkSize - 1 else totalPages - 1;
    ChunkInfo(chunkId, start + 1, end + 1, end - start + 1, pathOf(chunkId), true)
  }

  /** The chunks of `range(start, totalPages, chunkSize)`, numbered from `chunkId`. */
  function ChunksFrom(pathOf: nat -> string, totalPages: nat, chunkSize: int, start: nat, chunkId: nat): seq<ChunkInfo>
    requires chunkSize > 0
    decreases totalPages - start
  {
    if start >= totalPages then []
    else [ChunkAt(pathOf, totalPages, chunkSize, start, chunkId)]
         + ChunksFrom(pathOf, totalPages, chunkSize, start + chunkSize, chunkId + 1)
  }

  /**
   * chunk_pdf's answer: the whole PDF as one unchunked piece when it fits,
   * otherwise one chunk per step of the range.  A step of 0 makes `range`
   * raise; a negative step gives an empty range.
   */
  function PlanChunks(pdfPath: string, totalPages: nat, chunkSize: int): Result<seq<ChunkInfo>> {
    if totalPages <= chunkSize then Ok([ChunkInfo(0, 1, totalPages, totalPages, pdfPath, false)])
    else if chunkSize == 0 then Err(RangeStepZero)
    else if chunkSize < 0 then Ok([])
    else Ok(ChunksFrom(ChunkPaths(pdfPath), totalPages, chunkSize, 0, 0))
  }

  /** The files chunk_pdf saves: one per chunked piece. */
  function SavedFiles(chunks: seq<ChunkInfo>): set<string> {
    set k | 0 <= k < |chunks| && chunks[k].isChunked :: chunks[k].filePath
  }

  lemma SavedFilesSnoc(chunks: seq<ChunkInfo>, c: ChunkInfo)
    ensures SavedFiles(chunks + [c]) == SavedFiles(chunks) + (if c.isChunked then {c.filePath} else {})
  {
    var s := chunks + [c];
    forall f | f in SavedFiles(s) ensures f in SavedFiles(chunks) + (if c.isChunked then {c.filePath} else {}) {
      var k :| 0 <= k < |s| && s[k].isChunked && s[k].filePath == f;
      if k < |chunks| { assert s[k] == chunks[k]; }
    }
    forall f | f in SavedFiles(chunks) ensures f in SavedFiles(s) {
      var k :| 0 <= k < |chunks| && chunks[k].isChunked && chunks[k].filePath == f;
      assert s[k] == chunks[k];
    }
    if c.isChunked {
      assert s[|chunks|] == c;
    }
  }

  /** One turn of chunk_pdf's loop: the chunk it builds is the next one of the plan. */
  lemma ChunksFromStep(pathOf: nat -> string, totalPages: nat, chunkSize: int, start: nat, chunkId: nat,
                       chunks: seq<ChunkInfo>, info: ChunkInfo)
    requires chunkSize > 0 && start < totalPages
    requires chunks + ChunksFrom(pathOf, totalPages, chunkSize, start, chunkId) == ChunksFrom(pathOf, totalPages, chunkSize, 0, 0)
    requires info == ChunkInfo(chunkId, start + 1, (if start + chunkSize - 1 < totalPages - 1 then start + chunkSize else totalPages),
                               (if start + chunkSize - 1 < totalPages - 1 then chunkSize else totalPages - start),
                               pathOf(chunkId), true)
    ensures (chunks + [info]) + ChunksFrom(pathOf, totalPages, chunkSize, start + chunkSize, chunkId + 1)
            == ChunksFrom(pathOf, totalPages, chunkSize, 0, 0)
  {
    assert info == ChunkAt(pathOf, totalPages, chunkSize, start, chunkId);
    ConcatAssoc(chunks, [info], ChunksFrom(pathOf, totalPages, chunkSize, start + chunkSize, chunkId + 1));
  }

  /**
   * The loop of chunk_pdf: one chunk per step of `range(0, totalPages,
   * chunkSize)`, each saved to the file `pathOf` names for its id.
   */
  method SaveChunks(pathOf: nat -> string, totalPages: nat, chunkSize: int, fs: FileSystem)
    returns (chunks: seq<ChunkInfo>, fs': FileSystem)
    requires chunkSize > 0
    ensures chunks == ChunksFrom(pathOf, totalPages, chunkSize, 0, 0)
    ensures fs' == fs.(files := fs.files + SavedFiles(chunks))
  {
    chunks, fs' := [], fs;
    var chunkId: nat := 0;
    var start: nat := 0;
    while start < totalPages
      invariant chunks + ChunksFrom(pathOf, totalPages, chunkSize, start, chunkId)
                == ChunksFrom(pathOf, totalPages, chunkSize, 0, 0)
      invariant fs' == fs.(files := fs.files + SavedFiles(chunks))
      decreases totalPages - start
    {
      var end := if start + chunkSize - 1 < totalPages - 1 then start + chunkSize - 1 else totalPages - 1;
      var chunkPath := pathOf(chunkId);
      fs' := fs'.(files := fs'.files + {chunkPath});
      var info := ChunkInfo(chunkId, start + 1, end + 1, end - start + 1, chunkPath, true);
      ChunksFromStep(pathOf, totalPages, chunkSize, start, chunkId, chunks, info);
      SavedFilesSnoc(chunks, info);
      chunks := chunks + [info];
      chunkId := chunkId + 1;
      start := start + chunkSize;
    }
  }

  /** chunk_pdf: the plan, and the chunk files it saves. */
  method ChunkPdf(chunker: Chunker, pdfPath: string, totalPages: nat, fs: FileSystem)
    returns (r: Result<seq<ChunkInfo>>, fs': FileSystem)
    ensures r == PlanChunks(pdfPath, totalPages, chunker.chunkSize)
    ensures fs' == fs.(files := fs.files + (if r.Ok? then SavedFiles(r.value) else {}))
  {
    var chunkSize := chunker.chunkSize;
    if totalPages <= chunkSize {
      r, fs' := Ok([ChunkInfo(0, 1, totalPages, totalPages, pdfPath, false)]), fs;
      assert SavedFiles(r.value) == {};
      return;
    }
    if chunkSize == 0 {
      return Err(RangeStepZero), fs;
    }
    var chunks: seq<ChunkInfo> := [];
    fs' := fs;
    if chunkSize > 0 {
      chunks, fs' := SaveChunks(ChunkPaths(pdfPath), totalPages, chunkSize, fs);
    } else {
      assert SavedFiles(chunks) == {};
    }
    r := Ok(chunks);
  }

  // ---------------------------------------------------------------------------
  // Properties of the plan
  // ---------------------------------------------------------------------------

  /** Consecutive chunks leave no page out and share none. */
  predicate Contiguous(s: seq<ChunkInfo>) {
    forall k :: 0 <= k < |s| - 1 ==> s[k + 1].startPage == s[k].endPage + 1
  }

  /** A chunked piece as chunk_pdf builds it: its id, its file, and 1 to `chunkSize` pages. */
  predicate WellFormedChunk(c: ChunkInfo, pathOf: nat -> string, chunkSize: int, chunkId: nat) {
    c.chunkId == chunkId && c.isChunked && c.filePath == pathOf(chunkId)
    && 1 <= c.startPage <= c.endPage && c.pageCount == c.endPage - c.startPage + 1 && c.pageCount <= chunkSize
  }

  predicate WellFormedChunks(s: seq<ChunkInfo>, pathOf: nat -> string, chunkSize: int, firstId: nat) {
    forall k :: 0 <= k < |s| ==> WellFormedChunk(s[k], pathOf, chunkSize, firstId + k)
  }

  /** Every chunk but the last holds exactly `chunkSize` pages. */
  predicate FullExceptLast(s: seq<ChunkInfo>, chunkSize: int) {
    forall k :: 0 <= k < |s| - 1 ==> s[k].pageCount == chunkSize
  }

  function PageCountSum(s: seq<ChunkInfo>): nat {
    if s == [] then 0 else s[0].pageCount + PageCountSum(s[1..])
  }

  lemma {:induction false} PageCountSumSnoc(s: seq<ChunkInfo>, c: ChunkInfo)
    ensures PageCountSum(s + [c]) == PageCountSum(s) + c.pageCount
    decreases |s|
  {
    if s != [] {
      assert (s + [c])[1..] == s[1..] + [c];
      PageCountSumSnoc(s[1..], c);
    }
  }

  /** The chunks from `start` on: their first and last page and their page total. */
  lemma {:induction false} ChunksFromEnds(pathOf: nat -> string, totalPages: nat, chunkSize: int, start: nat, chunkId: nat)
    requires chunkSize > 0 && start < totalPages
    ensures var s := ChunksFrom(pathOf, totalPages, chunkSize, start, chunkId);
            s != [] && s[0].startPage == start + 1 && s[|s| - 1].endPage == totalPages
    decreases totalPages - start
  {
    var s := ChunksFrom(pathOf, totalPages, chunkSize, start, chunkId);
    var c := ChunkAt(pathOf, totalPages, chunkSize, start, chunkId);
    var rest := ChunksFrom(pathOf, totalPages, chunkSize, start + chunkSize, chunkId + 1);
    assert s == [c] + rest;
    assert s[1..] == rest;
    if start + chunkSize < totalPages {
      ChunksFromEnds(pathOf, totalPages, chunkSize, start + chunkSize, chunkId + 1);
      assert c.pageCount == chunkSize;
      assert s[|s| - 1] == rest[|rest| - 1];
    } else {
      assert rest == [];
    }
  }

  /** The chunks from `start` on hold the remaining pages between them. */
  lemma {:induction false} ChunksFromPageSum(pathOf: nat -> string, totalPages: nat, chunkSize: int, start: nat, chunkId: nat)
    requires chunkSize > 0 && start <= totalPages
    ensures PageCountSum(ChunksFrom(pathOf, totalPages, chunkSize, start, chunkId)) == totalPages - start
    decreases totalPages - start
  {
    if start < totalPages {
      var s := ChunksFrom(pathOf, totalPages, chunkSize, start, chunkId);
      var c := ChunkAt(pathOf, totalPages, chunkSize, start, chunkId);
      var next := if start + chunkSize < totalPages then start + chunkSize else totalPages;
      var rest := ChunksFrom(pathOf, totalPages, chunkSize, start + chunkSize, chunkId + 1);
      assert rest == ChunksFrom(pathOf, totalPages, chunkSize, next, chunkId + 1);
      assert s == [c] + rest && s[1..] == rest;
      ChunksFromPageSum(pathOf, totalPages, chunkSize, next, chunkId + 1);
      assert PageCountSum(s) == c.pageCount + PageCountSum(rest);
      assert c.pageCount == next - start;
    }
  }

  /** The length of `range(start, totalPages, chunkSize)`. */
  function ChunkCount(totalPages: nat, chunkSize: int, start: nat): nat
    requires chunkSize > 0
    decreases totalPages - start
  {
    if start >= totalPages then 0 else 1 + ChunkCount(totalPages, chunkSize, start + chunkSize)
  }

  lemma {:induction false} ChunksFromLength(pathOf: nat -> string, totalPages: nat, chunkSize: int, start: nat, chunkId: nat)
    requires chunkSize > 0
    ensures |ChunksFrom(pathOf, totalPages, chunkSize, start, chunkId)| == ChunkCount(totalPages, chunkSize, start)
    decreases totalPages - start
  {
    if start < totalPages {
      ChunksFromLength(pathOf, totalPages, chunkSize, start + chunkSize, chunkId + 1);
    }
  }

  /** The count is ceil((totalPages - start) / chunkSize): the least n with n chunks covering the rest. */
  lemma {:induction false} ChunkCountBounds(totalPages: nat, chunkSize: int, start: nat)
    requires chunkSize > 0 && start < totalPages
    ensures var n := ChunkCount(totalPages, chunkSize, start);
            (n - 1) * chunkSize < totalPages - start <= n * chunkSize
    decreases totalPages - start
  {
    var n := ChunkCount(totalPages, chunkSize, start);
    if start + chunkSize < totalPages {
      ChunkCountBounds(totalPages, chunkSize, start + chunkSize);
      var m := n - 1;
      assert m == ChunkCount(totalPages, chunkSize, start + chunkSize);
      assert (m - 1) * chunkSize + chunkSize == m * chunkSize;
      assert m * chunkSize + chunkSize == n * chunkSize;
    } else {
      assert n == 1;
    }
  }

  lemma {:induction false} ChunksFromContiguous(pathOf: nat -> string, totalPages: nat, chunkSize: int, start: nat, chunkId: nat)
    requires chunkSize > 0
    ensures Contiguous(ChunksFrom(pathOf, totalPages, chunkSize, start, chunkId))
    ensures FullExceptLast(ChunksFrom(pathOf, totalPages, chunkSize, start, chunkId), chunkSize)
    decreases totalPages - start
  {
    if start < totalPages {
      var s := ChunksFrom(pathOf, totalPages, chunkSize, start, chunkId);
      var c := ChunkAt(pathOf, totalPages, chunkSize, start, chunkId);
      var rest := ChunksFrom(pathOf, totalPages, chunkSize, start + chunkSize, chunkId + 1);
      assert s == [c] + rest;
      ChunksFromContiguous(pathOf, totalPages, chunkSize, start + chunkSize, chunkId + 1);
      if rest != [] {
        assert rest[0].startPage == start + chunkSize + 1;
        assert c.endPage == start + chunkSize && c.pageCount == chunkSize;
      }
      forall k | 0 <= k < |s| - 1 ensures s[k + 1].startPage == s[k].endPage + 1 && s[k].pageCount == chunkSize {
        if k > 0 { assert s[k] == rest[k - 1] && s[k + 1] == rest[k]; }
      }
    }
  }

  lemma {:induction false} ChunksFromWellFormed(pathOf: nat -> string, totalPages: nat, chunkSize: int, start: nat, chunkId: nat)
    requires chunkSize > 0
    ensures WellFormedChunks(ChunksFrom(pathOf, totalPages, chunkSize, start, chunkId), pathOf, chunkSize, chunkId)
    decreases totalPages - start
  {
    if start < totalPages {
      var s := ChunksFrom(pathOf, totalPages, chunkSize, start, chunkId);
      var c := ChunkAt(pathOf, totalPages, chunkSize, start, chunkId);
      var rest := ChunksFrom(pathOf, totalPages, chunkSize, start + chunkSize, chunkId + 1);
      assert s == [c] + rest;
      ChunksFromWellFormed(pathOf, totalPages, chunkSize, start + chunkSize, chunkId + 1);
      assert WellFormedChunk(c, pathOf, chunkSize, chunkId);
      forall k | 0 < k < |s| ensures WellFormedChunk(s[k], pathOf, chunkSize, chunkId + k) {
        assert s[k] == rest[k - 1];
      }
    }
  }

  /**
   * When the PDF does not fit one request, the chunks partition its pages
   * 1..totalPages in order: the first starts at page 1, each starts right
   * after the previous one ends, the last ends at the last page; each holds
   * 1 to `chunkSize` pages, all but the last exactly `chunkSize`, so there
   * are ceil(totalPages / chunkSize) of them.
   */
  lemma PlanPartitions(pdfPath: string, totalPages: nat, chunkSize: int)
    requires 0 < chunkSize < totalPages
    ensures PlanChunks(pdfPath, totalPages, chunkSize).Ok?
    ensures var s := PlanChunks(pdfPath, totalPages, chunkSize).value;
            s != [] && s[0].startPage == 1 && s[|s| - 1].endPage == totalPages
            && Contiguous(s) && WellFormedChunks(s, ChunkPaths(pdfPath), chunkSize, 0) && FullExceptLast(s, chunkSize)
            && PageCountSum(s) == totalPages
            && (|s| - 1) * chunkSize < totalPages <= |s| * chunkSize
  {
    ChunksFromEnds(ChunkPaths(pdfPath), totalPages, chunkSize, 0, 0);
    ChunksFromPageSum(ChunkPaths(pdfPath), totalPages, chunkSize, 0, 0);
    ChunksFromLength(ChunkPaths(pdfPath), totalPages, chunkSize, 0, 0);
    ChunkCountBounds(totalPages, chunkSize, 0);
    ChunksFromContiguous(ChunkPaths(pdfPath), totalPages, chunkSize, 0, 0);
    ChunksFromWellFormed(ChunkPaths(pdfPath), totalPages, chunkSize, 0, 0);
  }

  /** In contiguous chunks, every earlier chunk ends before every later one starts. */
  lemma {:induction false} ContiguousAscending(s: seq<ChunkInfo>, i: nat, j: nat)
    requires Contiguous(s) && forall k :: 0 <= k < |s| ==> s[k].startPage <= s[k].endPage
    requires i < j < |s|
    ensures s[i].endPage < s[j].startPage
    decreases j - i
  {
    if i + 1 < j {
      ContiguousAscending(s, i + 1, j);
    }
  }

  /** Each page of the PDF lies in exactly one chunk of the plan. */
  lemma PageInOneChunk(pdfPath: string, totalPages: nat, chunkSize: int, page: nat)
    requires 0 < chunkSize < totalPages && 1 <= page <= totalPages
    ensures var s := PlanChunks(pdfPath, totalPages, chunkSize).value;
            (exists k :: 0 <= k < |s| && s[k].startPage <= page <= s[k].endPage)
            && forall i, j :: (0 <= i < |s| && 0 <= j < |s| && s[i].startPage <= page <= s[i].endPage
                               && s[j].startPage <= page <= s[j].endPage) ==> i == j
  {
    var s := PlanChunks(pdfPath, totalPages, chunkSize).value;
    assert s == ChunksFrom(ChunkPaths(pdfPath), totalPages, chunkSize, 0, 0);
    ChunksFromEnds(ChunkPaths(pdfPath), totalPages, chunkSize, 0, 0);
    ChunksFromContiguous(ChunkPaths(pdfPath), totalPages, chunkSize, 0, 0);
    ChunksFromWellFormed(ChunkPaths(pdfPath), totalPages, chunkSize, 0, 0);
    assert forall k :: 0 <= k < |s| ==> s[k].startPage <= s[k].endPage by {
      forall k | 0 <= k < |s| ensures s[k].startPage <= s[k].endPage {
        assert WellFormedChunk(s[k], ChunkPaths(pdfPath), chunkSize, k);
      }
    }
    ContiguousUnique(s, page);
  }

  /** In contiguous, non-empty chunks from the first page to the last, each such page is in exactly one chunk. */
  lemma ContiguousUnique(s: seq<ChunkInfo>, page: nat)
    requires s != [] && Contiguous(s) && forall k :: 0 <= k < |s| ==> s[k].startPage <= s[k].endPage
    requires s[0].startPage <= page <= s[|s| - 1].endPage
    ensures exists k :: 0 <= k < |s| && s[k].startPage <= page <= s[k].endPage
    ensures forall i, j :: (0 <= i < |s| && 0 <= j < |s| && s[i].startPage <= page <= s[i].endPage
                            && s[j].startPage <= page <= s[j].endPage) ==> i == j
  {
    ContiguousCovers(s, page);
    forall i, j | 0 <= i < |s| && 0 <= j < |s| && s[i].startPage <= page <= s[i].endPage
                  && s[j].startPage <= page <= s[j].endPage
      ensures i == j
    {
      if i < j { ContiguousAscending(s, i, j); }
      if j < i { ContiguousAscending(s, j, i); }
    }
  }

  lemma {:induction false} ContiguousCovers(s: seq<ChunkInfo>, page: nat)
    requires s != [] && Contiguous(s) && forall k :: 0 <= k < |s| ==> s[k].startPage <= s[k].endPage
    requires s[0].startPage <= page <= s[|s| - 1].endPage
    ensures exists k :: 0 <= k < |s| && s[k].startPage <= page <= s[k].endPage
    decreases |s|
  {
    if page > s[0].endPage {
      var t := s[1..];
      assert |s| > 1;
      assert Contiguous(t) by {
        forall k | 0 <= k < |t| - 1 ensures t[k + 1].startPage == t[k].endPage + 1 {
          assert t[k] == s[k + 1] && t[k + 1] == s[k + 2];
        }
      }
      assert t[0] == s[1] && t[|t| - 1] == s[|s| - 1];
      ContiguousCovers(t, page);
      var k :| 0 <= k < |t| && t[k].startPage <= page <= t[k].endPage;
      assert s[k + 1] == t[k];
    }
  }

  /** chunk_pdf goes direct (one unchunked piece) exactly when the PDF fits one request. */
  lemma PlanDirectIff(pdfPath: string, totalPages: nat, chunkSize: int)
    ensures var r := PlanChunks(pdfPath, totalPages, chunkSize);
            (r.Ok? && |r.value| == 1 && !r.value[0].isChunked) <==> totalPages <= chunkSize
    ensures totalPages <= chunkSize ==>
              PlanChunks(pdfPath, totalPages, chunkSize) == Ok([ChunkInfo(0, 1, totalPages, totalPages, pdfPath, false)])
  {
    if chunkSize > 0 && totalPages > chunkSize {
      PlanPartitions(pdfPath, totalPages, chunkSize);
      var s := PlanChunks(pdfPath, totalPages, chunkSize).value;
      assert WellFormedChunk(s[0], ChunkPaths(pdfPath), chunkSize, 0);
    }
  }

  // ---------------------------------------------------------------------------
  // Merging the chunk results
  // ---------------------------------------------------------------------------

  /** The `data` of a chunk result: its page and table records and its "full_text" ("" when absent). */
  datatype ChunkData = ChunkData(pages: seq<PageRecord>, tables: seq<TableRecord>, fullText: string)

  /** A chunk whose extraction raised carries the message instead of data. */
  datatype ChunkOutcome = Succeeded(data: ChunkData) | Failed(error: string)

  datatype ChunkResult = ChunkResult(chunkId: nat, outcome: ChunkOutcome, info: ChunkInfo)

  datatype MergedMetadata = MergedMetadata(totalPages: nat, chunksProcessed: nat, extractionMethod: string)

  datatype Merged = Merged(pages: seq<PageRecord>, tables: seq<TableRecord>, fullText: string,
                           metadata: MergedMetadata)

  const MergedMethod := "chunked_document_ai"

  /** The extractor's result has no "full_text" entry, so a chunk's text reads as "". */
  function DataOf(r: ExtractionResult): ChunkData {
    ChunkData(r.pages, r.tables, "")
  }

  /** The sort key of merge_results: the chunk id. */
  function ChunkKey(r: ChunkResult): seq<real> {
    [r.chunkId as real]
  }

  /** Page records renumbered after the `offset` pages merged before them. */
  function ShiftPages(ps: seq<PageRecord>, offset: nat): (r: seq<PageRecord>)
    ensures |r| == |ps|
  {
    if ps == [] then []
    else
      var p := ps[|ps| - 1];
      ShiftPages(ps[..|ps| - 1], offset) + [p.(pageNumber := offset + p.pageNumber)]
  }

  lemma {:induction false} ShiftPagesAt(ps: seq<PageRecord>, offset: nat, i: nat)
    requires i < |ps|
    ensures ShiftPages(ps, offset)[i] == ps[i].(pageNumber := offset + ps[i].pageNumber)
    decreases |ps|
  {
    if i < |ps| - 1 {
      ShiftPagesAt(ps[..|ps| - 1], offset, i);
    }
  }

  /** Table records moved to the renumbered pages. */
  function ShiftTables(ts: seq<TableRecord>, offset: nat): (r: seq<TableRecord>)
    ensures |r| == |ts|
  {
    if ts == [] then []
    else
      var t := ts[|ts| - 1];
      ShiftTables(ts[..|ts| - 1], offset) + [t.(pageNumber := offset + t.pageNumber)]
  }

  lemma {:induction false} ShiftTablesAt(ts: seq<TableRecord>, offset: nat, i: nat)
    requires i < |ts|
    ensures ShiftTables(ts, offset)[i] == ts[i].(pageNumber := offset + ts[i].pageNumber)
    decreases |ts|
  {
    if i < |ts| - 1 {
      ShiftTablesAt(ts[..|ts| - 1], offset, i);
    }
  }

  /** What merge_results has gathered so far. */
  datatype MergeState = MergeState(pages: seq<PageRecord>, tables: seq<TableRecord>, texts: seq<string>,
                                   totalPages: nat)

  /** One pass of the merge loop: a failed chunk is skipped. */
  function MergeStep(m: MergeState, r: ChunkResult): MergeState {
    match r.outcome
    case Failed(_) => m
    case Succeeded(d) =>
      MergeState(m.pages + ShiftPages(d.pages, m.totalPages), m.tables + ShiftTables(d.tables, m.totalPages),
                 m.texts + (if d.fullText != "" then [d.fullText] else []), m.totalPages + |d.pages|)
  }

  function MergeFold(rs: seq<ChunkResult>): MergeState {
    if rs == [] then MergeState([], [], [], 0) else MergeStep(MergeFold(rs[..|rs| - 1]), rs[|rs| - 1])
  }

  lemma MergeFoldSnoc(rs: seq<ChunkResult>, i: nat)
    requires i < |rs|
    ensures MergeFold(rs[..i + 1]) == MergeStep(MergeFold(rs[..i]), rs[i])
  {
    assert rs[..i + 1][..i] == rs[..i];
  }

  /** merge_results: the results in chunk-id order, folded, with the texts joined by a blank line. */
  function MergedOf(rs: seq<ChunkResult>): Merged {
    var m := MergeFold(SortBy(rs, ChunkKey));
    Merged(m.pages, m.tables, Join("\n\n", m.texts), MergedMetadata(m.totalPages, |rs|, MergedMethod))
  }

  /** The page loop of merge_results. */
  method AppendShiftedPages(acc: seq<PageRecord>, pages: seq<PageRecord>, offset: nat) returns (r: seq<PageRecord>)
    ensures r == acc + ShiftPages(pages, offset)
  {
    r := acc;
    var j := 0;
    while j < |pages|
      invariant 0 <= j <= |pages|
      invariant r == acc + ShiftPages(pages[..j], offset)
    {
      var page := pages[j].(pageNumber := offset + pages[j].pageNumber);
      assert pages[..j + 1][..j] == pages[..j];
      ConcatAssoc(acc, ShiftPages(pages[..j], offset), [page]);
      r := r + [page];
      j := j + 1;
    }
    assert pages[..j] == pages;
  }

  /** The table loop of merge_results. */
  method AppendShiftedTables(acc: seq<TableRecord>, tables: seq<TableRecord>, offset: nat) returns (r: seq<TableRecord>)
    ensures r == acc + ShiftTables(tables, offset)
  {
    r := acc;
    var j := 0;
    while j < |tables|
      invariant 0 <= j <= |tables|
      invariant r == acc + ShiftTables(tables[..j], offset)
    {
      var table := tables[j].(pageNumber := offset + tables[j].pageNumber);
      assert tables[..j + 1][..j] == tables[..j];
      ConcatAssoc(acc, ShiftTables(tables[..j], offset), [table]);
      r := r + [table];
      j := j + 1;
    }
    assert tables[..j] == tables;
  }

  /** One pass of the loop of merge_results: a failed chunk is skipped, a successful one appended and counted. */
  method MergeChunk(pages: seq<PageRecord>, tables: seq<TableRecord>, texts: seq<string>, total: nat, chunkResult: ChunkResult)
    returns (pages': seq<PageRecord>, tables': seq<TableRecord>, texts': seq<string>, total': nat)
    ensures MergeState(pages', tables', texts', total') == MergeStep(MergeState(pages, tables, texts, total), chunkResult)
  {
    pages', tables', texts', total' := pages, tables, texts, total;
    if chunkResult.outcome.Succeeded? {
      var data := chunkResult.outcome.data;
      pages' := AppendShiftedPages(pages', data.pages, total');
      tables' := AppendShiftedTables(tables', data.tables, total');
      if data.fullText != "" {
        texts' := texts' + [data.fullText];
      }
      total' := total' + |data.pages|;
    }
  }

  /** merge_results. */
  method MergeResults(chunkResults: seq<ChunkResult>) returns (merged: Merged)
    ensures merged == MergedOf(chunkResults)
  {
    var sorted := SortBy(chunkResults, ChunkKey);
    var mergedPages: seq<PageRecord> := [];
    var mergedTables: seq<TableRecord> := [];
    var mergedText: seq<string> := [];
    var totalPages: nat := 0;
    var i := 0;
    while i < |sorted|
      invariant 0 <= i <= |sorted|
      invariant MergeState(mergedPages, mergedTables, mergedText, totalPages) == MergeFold(sorted[..i])
    {
      MergeFoldSnoc(sorted, i);
      mergedPages, mergedTables, mergedText, totalPages := MergeChunk(mergedPages, mergedTables, mergedText, totalPages, sorted[i]);
      i := i + 1;
    }
    assert sorted[..i] == sorted;
    merged := Merged(mergedPages, mergedTables, Join("\n\n", mergedText),
                     MergedMetadata(totalPages, |chunkResults|, MergedMethod));
  }

  // ---------------------------------------------------------------------------
  // Properties of the merge
  // ---------------------------------------------------------------------------

  function Successes(rs: seq<ChunkResult>): seq<ChunkResult> {
    if rs == [] then []
    else Successes(rs[..|rs| - 1]) + (if rs[|rs| - 1].outcome.Succeeded? then [rs[|rs| - 1]] else [])
  }

  /** Failed chunks contribute nothing: merging only the successes gives the same state. */
  lemma {:induction false} MergeSkipsFailures(rs: seq<ChunkResult>)
    ensures MergeFold(rs) == MergeFold(Successes(rs))
  {
    if rs != [] {
      var init, last := rs[..|rs| - 1], rs[|rs| - 1];
      MergeSkipsFailures(init);
      if last.outcome.Succeeded? {
        var s := Successes(init) + [last];
        assert Successes(rs) == s;
        assert s[..|s| - 1] == Successes(init) && s[|s| - 1] == last;
        assert MergeFold(s) == MergeStep(MergeFold(Successes(init)), last);
      } else {
        assert Successes(rs) == Successes(init) + [];
        assert Successes(init) + [] == Successes(init);
      }
    }
  }

  /** The pages of the successful chunk results, summed. */
  function SucceededPages(rs: seq<ChunkResult>): nat {
    if rs == [] then 0
    else
      SucceededPages(rs[..|rs| - 1])
      + match rs[|rs| - 1].outcome case Succeeded(d) => |d.pages| case Failed(_) => 0
  }

  /** The tables of the successful chunk results, summed. */
  function SucceededTables(rs: seq<ChunkResult>): nat {
    if rs == [] then 0
    else
      SucceededTables(rs[..|rs| - 1])
      + match rs[|rs| - 1].outcome case Succeeded(d) => |d.tables| case Failed(_) => 0
  }

  /** The running total counts the pages of the successful results; every such page and table is merged once. */
  lemma {:induction false} MergeFoldTotals(rs: seq<ChunkResult>)
    ensures var m := MergeFold(rs);
            m.totalPages == |m.pages| == SucceededPages(rs) && |m.tables| == SucceededTables(rs)
  {
    if rs != [] {
      MergeFoldTotals(rs[..|rs| - 1]);
    }
  }

  /**
   * The merged metadata: the pages of the successful results in chunk-id
   * order, every chunk result counted, failures included, and the method.
   */
  lemma MergedCounts(rs: seq<ChunkResult>)
    ensures var m := MergedOf(rs);
            var sorted := SortBy(rs, ChunkKey);
            m.metadata.totalPages == |m.pages| == SucceededPages(sorted) && |m.tables| == SucceededTables(sorted)
            && m.metadata.chunksProcessed == |rs| && m.metadata.extractionMethod == MergedMethod
  {
    MergeFoldTotals(SortBy(rs, ChunkKey));
  }

  /** Pages numbered 1, 2, ... as the extractor numbers them. */
  predicate NumberedFromOne(ps: seq<PageRecord>) {
    forall i :: 0 <= i < |ps| ==> ps[i].pageNumber == i + 1
  }

  /** Every table sits on one of the given number of pages. */
  predicate TablesWithin(ts: seq<TableRecord>, pageCount: nat) {
    forall i :: 0 <= i < |ts| ==> 1 <= ts[i].pageNumber <= pageCount
  }

  /** A chunk's data as the extractor produces it: pages numbered from 1, tables on those pages. */
  predicate WellNumbered(r: ChunkResult) {
    r.outcome.Succeeded? ==>
      NumberedFromOne(r.outcome.data.pages) && TablesWithin(r.outcome.data.tables, |r.outcome.data.pages|)
  }

  predicate AllWellNumbered(rs: seq<ChunkResult>) {
    forall i :: 0 <= i < |rs| ==> WellNumbered(rs[i])
  }

  lemma {:induction false} MergeFoldNumbered(rs: seq<ChunkResult>)
    requires AllWellNumbered(rs)
    ensures var m := MergeFold(rs);
            m.totalPages == |m.pages| && NumberedFromOne(m.pages) && TablesWithin(m.tables, m.totalPages)
  {
    if rs != [] {
      var init, last := rs[..|rs| - 1], rs[|rs| - 1];
      assert AllWellNumbered(init) by {
        forall i | 0 <= i < |init| ensures WellNumbered(init[i]) { assert init[i] == rs[i]; }
      }
      MergeFoldNumbered(init);
      assert WellNumbered(rs[|rs| - 1]);
      var a := MergeFold(init);
      if last.outcome.Succeeded? {
        var d := last.outcome.data;
        var m := MergeFold(rs);
        var sp, st := ShiftPages(d.pages, a.totalPages), ShiftTables(d.tables, a.totalPages);
        assert m.pages == a.pages + sp && m.tables == a.tables + st;
        forall i | 0 <= i < |m.pages| ensures m.pages[i].pageNumber == i + 1 {
          if i < |a.pages| {
            assert m.pages[i] == a.pages[i];
          } else {
            ShiftPagesAt(d.pages, a.totalPages, i - |a.pages|);
            assert m.pages[i] == sp[i - |a.pages|];
          }
        }
        forall i | 0 <= i < |m.tables| ensures 1 <= m.tables[i].pageNumber <= m.totalPages {
          if i < |a.tables| {
            assert m.tables[i] == a.tables[i];
          } else {
            ShiftTablesAt(d.tables, a.totalPages, i - |a.tables|);
            assert m.tables[i] == st[i - |a.tables|];
          }
        }
      }
    }
  }

  /** Sorting keeps the elements, so a property of every result survives it. */
  lemma SortKeepsNumbering(rs: seq<ChunkResult>)
    requires AllWellNumbered(rs)
    ensures AllWellNumbered(SortBy(rs, ChunkKey))
  {
    var s := SortBy(rs, ChunkKey);
    forall k | 0 <= k < |s| ensures WellNumbered(s[k]) {
      assert s[k] in multiset(s);
      assert s[k] in multiset(rs);
    }
  }

  /**
   * When each chunk's records are numbered as the extractor numbers them,
   * the merged pages are numbered 1..totalPages without gap or repeat, and
   * every merged table points at one of them.
   */
  lemma MergedPagesSequential(rs: seq<ChunkResult>)
    requires AllWellNumbered(rs)
    ensures var m := MergedOf(rs);
            m.metadata.totalPages == |m.pages| && NumberedFromOne(m.pages) && TablesWithin(m.tables, |m.pages|)
  {
    SortKeepsNumbering(rs);
    MergeFoldNumbered(SortBy(rs, ChunkKey));
  }

  predicate IdsDistinct(rs: seq<ChunkResult>) {
    forall i, j :: 0 <= i < |rs| && 0 <= j < |rs| && rs[i].chunkId == rs[j].chunkId ==> i == j
  }

  /** The merge does not depend on the order the chunk results arrive in. */
  lemma MergeOrderFree(a: seq<ChunkResult>, b: seq<ChunkResult>)
    requires multiset(a) == multiset(b) && IdsDistinct(a)
    ensures MergedOf(a) == MergedOf(b)
  {
    assert KeysDistinct(a, ChunkKey) by {
      forall i, j | 0 <= i < |a| && 0 <= j < |a| && ChunkKey(a[i]) == ChunkKey(a[j]) ensures a[i] == a[j] {
        assert ChunkKey(a[i])[0] == ChunkKey(a[j])[0];
      }
    }
    SortByPermutation(a, b, ChunkKey);
    assert |a| == |b| by { assert |multiset(a)| == |multiset(b)|; }
  }

  /** Chunk data without a "full_text" entry, as the extractor's results are, merges to an empty full text. */
  lemma MergedTextEmpty(rs: seq<ChunkResult>)
    requires forall i :: 0 <= i < |rs| && rs[i].outcome.Succeeded? ==> rs[i].outcome.data.fullText == ""
    ensures MergedOf(rs).fullText == ""
  {
    var s := SortBy(rs, ChunkKey);
    forall k | 0 <= k < |s| && s[k].outcome.Succeeded? ensures s[k].outcome.data.fullText == "" {
      assert s[k] in multiset(s);
      assert s[k] in multiset(rs);
    }
    MergeFoldNoText(s);
  }

  lemma {:induction false} MergeFoldNoText(rs: seq<ChunkResult>)
    requires forall i :: 0 <= i < |rs| && rs[i].outcome.Succeeded? ==> rs[i].outcome.data.fullText == ""
    ensures MergeFold(rs).texts == []
  {
    if rs != [] {
      var init := rs[..|rs| - 1];
      forall i | 0 <= i < |init| && init[i].outcome.Succeeded? ensures init[i].outcome.data.fullText == "" {
        assert init[i] == rs[i];
      }
      MergeFoldNoText(init);
    }
  }

  // ---------------------------------------------------------------------------
  // Removing the chunk files
  // ---------------------------------------------------------------------------

  /**
   * cleanup_chunks: remove each existing chunk file in turn; the first
   * removal that fails ends the loop, since it is caught outside it.
   */
  function CleanupOf(chunks: seq<ChunkInfo>, fs: FileSystem): FileSystem
    decreases |chunks|
  {
    if chunks == [] then fs
    else
      var c := chunks[0];
      if c.isChunked && c.filePath != "" && c.filePath in fs.files then
        match Remove(fs, c.filePath)
        case Err(_) => fs
        case Ok(fs') => CleanupOf(chunks[1..], fs')
      else CleanupOf(chunks[1..], fs)
  }

  method CleanupChunks(chunks: seq<ChunkInfo>, fs: FileSystem) returns (fs': FileSystem)
    ensures fs' == CleanupOf(chunks, fs)
  {
    fs' := fs;
    var i := 0;
    while i < |chunks|
      invariant 0 <= i <= |chunks|
      invariant CleanupOf(chunks[i..], fs') == CleanupOf(chunks, fs)
    {
      var chunk := chunks[i];
      assert chunks[i..][1..] == chunks[i + 1..];
      if chunk.isChunked {
        var chunkPath := chunk.filePath;
        if chunkPath != "" && chunkPath in fs'.files {
          var removed := Remove(fs', chunkPath);
          if removed.Err? {
            return;
          }
          fs' := removed.value;
        }
      }
      i := i + 1;
    }
  }

  lemma SavedFilesHead(chunks: seq<ChunkInfo>)
    requires chunks != []
    ensures SavedFiles(chunks) == (if chunks[0].isChunked then {chunks[0].filePath} else {}) + SavedFiles(chunks[1..])
  {
    var t := chunks[1..];
    forall f | f in SavedFiles(chunks)
      ensures f in (if chunks[0].isChunked then {chunks[0].filePath} else {}) + SavedFiles(t)
    {
      var k :| 0 <= k < |chunks| && chunks[k].isChunked && chunks[k].filePath == f;
      if k > 0 { assert t[k - 1] == chunks[k]; }
    }
    forall f | f in SavedFiles(t) ensures f in SavedFiles(chunks) {
      var k :| 0 <= k < |t| && t[k].isChunked && t[k].filePath == f;
      assert chunks[k + 1] == t[k];
    }
  }

  /** Cleanup only ever removes chunk files, and never changes what may be removed. */
  lemma {:induction false} CleanupRemovesOnlyChunks(chunks: seq<ChunkInfo>, fs: FileSystem)
    ensures var r := CleanupOf(chunks, fs);
            r.locked == fs.locked && r.files <= fs.files
            && forall f :: f in fs.files && f !in r.files ==> f in SavedFiles(chunks)
    decreases |chunks|
  {
    if chunks != [] {
      SavedFilesHead(chunks);
      var c := chunks[0];
      if c.isChunked && c.filePath != "" && c.filePath in fs.files && c.filePath !in fs.locked {
        CleanupRemovesOnlyChunks(chunks[1..], fs.(files := fs.files - {c.filePath}));
      } else if !(c.isChunked && c.filePath != "" && c.filePath in fs.files) {
        CleanupRemovesOnlyChunks(chunks[1..], fs);
      }
    }
  }

  /** When no chunk file is protected, cleanup removes every one of them. */
  lemma {:induction false} CleanupRemovesAll(chunks: seq<ChunkInfo>, fs: FileSystem)
    requires forall k :: 0 <= k < |chunks| && chunks[k].isChunked ==>
               chunks[k].filePath != "" && chunks[k].filePath !in fs.locked
    ensures CleanupOf(chunks, fs) == fs.(files := fs.files - SavedFiles(chunks))
    decreases |chunks|
  {
    if chunks == [] {
      assert SavedFiles(chunks) == {};
    } else {
      SavedFilesHead(chunks);
      var c := chunks[0];
      var t := chunks[1..];
      assert forall k :: 0 <= k < |t| && t[k].isChunked ==> t[k].filePath != "" && t[k].filePath !in fs.locked by {
        forall k | 0 <= k < |t| && t[k].isChunked ensures t[k].filePath != "" && t[k].filePath !in fs.locked {
          assert t[k] == chunks[k + 1];
        }
      }
      if c.isChunked {
        assert c == chunks[0];
        if c.filePath in fs.files {
          CleanupRemovesAll(t, fs.(files := fs.files - {c.filePath}));
        } else {
          CleanupRemovesAll(t, fs);
        }
      } else {
        CleanupRemovesAll(t, fs);
      }
    }
  }
}
