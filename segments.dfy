/**
 * The segment algebra of docai_converter.py: half-open integer ranges into
 * the document's single text buffer, merged, united and subtracted, and
 * resolved to text with clamping.
 *
 * The meaning of a list of segments is the set of offsets it covers
 * (`Covers`); the operations are specified by functions (`Merge`, `Union`,
 * `Subtract`, `TextOf`), the methods that mirror the source's loops are
 * proved equal to them, and the lemmas state what the functions promise.
 */
module Segments {
  import opened Results
  import opened Sorting
  import opened Text
  import opened Seqs

  /** The range of offsets [start, end). */
  datatype Segment = Segment(start: int, end: int)

  /** One `textSegments` entry of a text anchor: either index may be absent. */
  datatype RawSegment = RawSegment(startIndex: Option<int>, endIndex: Option<int>)

  predicate InSegment(g: Segment, p: int) {
    g.start <= p < g.end
  }

  /** The offsets a list of segments stands for. */
  predicate Covers(xs: seq<Segment>, p: int) {
    exists i :: 0 <= i < |xs| && InSegment(xs[i], p)
  }

  predicate WellFormed(xs: seq<Segment>) {
    forall i :: 0 <= i < |xs| ==> xs[i].start <= xs[i].end
  }

  predicate StartsAscending(xs: seq<Segment>) {
    forall i, j :: 0 <= i < j < |xs| ==> xs[i].start <= xs[j].start
  }

  /** Each segment starts strictly after the previous one ends: nothing overlaps or touches. */
  predicate Separated(xs: seq<Segment>) {
    forall i :: 0 <= i < |xs| - 1 ==> xs[i].end < xs[i + 1].start
  }

  /** Each segment starts no earlier than the previous one ends. */
  predicate Ascending(xs: seq<Segment>) {
    forall i :: 0 <= i < |xs| - 1 ==> xs[i].end <= xs[i + 1].start
  }

  predicate NonEmptyPieces(xs: seq<Segment>) {
    forall i :: 0 <= i < |xs| ==> xs[i].start < xs[i].end
  }

  function Max(a: int, b: int): int {
    if a < b then b else a
  }

  function Last(xs: seq<Segment>): Segment
    requires xs != []
  {
    xs[|xs| - 1]
  }

  // ---------------------------------------------------------------------------
  // Reading a text anchor (_segments)
  // ---------------------------------------------------------------------------

  /** The segment one raw entry contributes: none without an end index, a start of 0 when absent. */
  function EntrySegments(x: RawSegment): seq<Segment> {
    match x.endIndex
    case None => []
    case Some(e) => [Segment(x.startIndex.GetOr(0), e)]
  }

  /** Entries without an end index are skipped; a missing start index counts as 0. */
  function AnchorSegments(raw: seq<RawSegment>): (r: seq<Segment>)
    ensures |r| <= |raw|
  {
    if raw == [] then [] else EntrySegments(raw[0]) + AnchorSegments(raw[1..])
  }

  lemma {:induction false} AnchorSegmentsSnoc(a: seq<RawSegment>, x: RawSegment)
    ensures AnchorSegments(a + [x]) == AnchorSegments(a) + EntrySegments(x)
  {
    if a == [] {
      assert (a + [x])[1..] == [];
    } else {
      assert (a + [x])[1..] == a[1..] + [x];
      AnchorSegmentsSnoc(a[1..], x);
    }
  }

  /**
   * Every parsed segment comes from one raw entry with that end index and
   * that start index (0 when absent), and no entry with an end index is lost.
   */
  lemma {:induction false} AnchorSegmentsProvenance(raw: seq<RawSegment>)
    ensures forall i :: 0 <= i < |AnchorSegments(raw)| ==>
              exists k :: 0 <= k < |raw| && raw[k].endIndex == Some(AnchorSegments(raw)[i].end)
                                         && raw[k].startIndex.GetOr(0) == AnchorSegments(raw)[i].start
    ensures (forall k :: 0 <= k < |raw| ==> raw[k].endIndex.Some?) ==> |AnchorSegments(raw)| == |raw|
  {
    if raw != [] {
      var tail := raw[1..];
      AnchorSegmentsProvenance(tail);
      var h := EntrySegments(raw[0]);
      var r := AnchorSegments(raw);
      assert r == h + AnchorSegments(tail);
      forall i | 0 <= i < |r|
        ensures exists k :: 0 <= k < |raw| && raw[k].endIndex == Some(r[i].end) && raw[k].startIndex.GetOr(0) == r[i].start
      {
        if i < |h| {
          assert raw[0].endIndex == Some(r[i].end) && raw[0].startIndex.GetOr(0) == r[i].start;
        } else {
          assert r[i] == AnchorSegments(tail)[i - |h|];
          var k :| 0 <= k < |tail| && tail[k].endIndex == Some(AnchorSegments(tail)[i - |h|].end)
                   && tail[k].startIndex.GetOr(0) == AnchorSegments(tail)[i - |h|].start;
          assert raw[k + 1] == tail[k];
        }
      }
      if forall k :: 0 <= k < |raw| ==> raw[k].endIndex.Some? {
        forall k | 0 <= k < |tail| ensures tail[k].endIndex.Some? {
          assert tail[k] == raw[k + 1];
        }
        assert raw[0].endIndex.Some? && |h| == 1;
      }
      assert forall i :: 0 <= i < |AnchorSegments(raw)| ==>
              exists k :: 0 <= k < |raw| && raw[k].endIndex == Some(AnchorSegments(raw)[i].end)
                                         && raw[k].startIndex.GetOr(0) == AnchorSegments(raw)[i].start;
    } else {
      assert AnchorSegments(raw) == [];
    }
  }

  method ParseSegments(raw: seq<RawSegment>) returns (out: seq<Segment>)
    ensures out == AnchorSegments(raw)
  {
    out := [];
    var i := 0;
    while i < |raw|
      invariant 0 <= i <= |raw|
      invariant out == AnchorSegments(raw[..i])
    {
      assert raw[..i + 1] == raw[..i] + [raw[i]];
      AnchorSegmentsSnoc(raw[..i], raw[i]);
      var s := raw[i];
      if s.endIndex.Some? {
        out := out + [Segment(s.startIndex.GetOr(0), s.endIndex.value)];
      }
      i := i + 1;
    }
    assert raw[..i] == raw;
  }

  // ---------------------------------------------------------------------------
  // Coverage of concatenations and permutations
  // ---------------------------------------------------------------------------

  lemma CoversConcat(a: seq<Segment>, b: seq<Segment>, p: int)
    ensures Covers(a + b, p) <==> Covers(a, p) || Covers(b, p)
  {
    if Covers(a + b, p) {
      var i :| 0 <= i < |a + b| && InSegment((a + b)[i], p);
      if i >= |a| { assert (a + b)[i] == b[i - |a|]; }
    }
    if Covers(a, p) {
      var i :| 0 <= i < |a| && InSegment(a[i], p);
      assert (a + b)[i] == a[i];
    }
    if Covers(b, p) {
      var i :| 0 <= i < |b| && InSegment(b[i], p);
      assert (a + b)[|a| + i] == b[i];
    }
  }

  lemma CoversSubset(a: seq<Segment>, b: seq<Segment>, p: int)
    requires multiset(a) <= multiset(b)
    requires Covers(a, p)
    ensures Covers(b, p)
  {
    var i :| 0 <= i < |a| && InSegment(a[i], p);
    assert a[i] in multiset(a);
    assert a[i] in multiset(b);
    var j :| 0 <= j < |b| && b[j] == a[i];
  }

  lemma CoversPermutation(a: seq<Segment>, b: seq<Segment>, p: int)
    requires multiset(a) == multiset(b)
    ensures Covers(a, p) <==> Covers(b, p)
  {
    if Covers(a, p) { CoversSubset(a, b, p); }
    if Covers(b, p) { CoversSubset(b, a, p); }
  }

  // ---------------------------------------------------------------------------
  // Merging (_merge_intervals) and union (_union_segments)
  // ---------------------------------------------------------------------------

  /** Python's tuple order on (start, end). */
  function SegKey(g: Segment): seq<real> {
    [g.start as real, g.end as real]
  }

  function SortSegments(xs: seq<Segment>): (r: seq<Segment>)
    ensures multiset(r) == multiset(xs) && |r| == |xs|
    ensures StartsAscending(r)
  {
    var r := SortBy(xs, SegKey);
    assert forall i, j :: 0 <= i < j < |r| ==> KeyLe(SegKey(r[i]), SegKey(r[j]));
    r
  }

  /** One turn of the merge loop: extend the last run when `g` starts inside or at its end. */
  function Step(acc: seq<Segment>, g: Segment): (r: seq<Segment>)
    requires acc != []
    ensures r != []
    ensures Last(r).start == Last(acc).start || Last(r) == g
  {
    var last := Last(acc);
    if g.start <= last.end then acc[..|acc| - 1] + [Segment(last.start, Max(last.end, g.end))]
    else acc + [g]
  }

  /** The merge loop run over `rest`, starting from the runs `acc`. */
  function Coalesce(acc: seq<Segment>, rest: seq<Segment>): (r: seq<Segment>)
    requires acc != []
    ensures r != []
    decreases |rest|
  {
    if rest == [] then acc else Coalesce(Step(acc, rest[0]), rest[1..])
  }

  function Merge(xs: seq<Segment>): seq<Segment> {
    if xs == [] then []
    else
      var s := SortSegments(xs);
      Coalesce([s[0]], s[1..])
  }

  method MergeIntervals(intervals: seq<Segment>) returns (merged: seq<Segment>)
    ensures merged == Merge(intervals)
  {
    if |intervals| == 0 {
      return [];
    }
    var sorted := SortSegments(intervals);
    merged := [sorted[0]];
    var i := 1;
    while i < |sorted|
      invariant 1 <= i <= |sorted|
      invariant merged != []
      invariant Coalesce(merged, sorted[i..]) == Coalesce([sorted[0]], sorted[1..])
    {
      var s, e := sorted[i].start, sorted[i].end;
      var last := merged[|merged| - 1];
      if s <= last.end {
        merged := merged[..|merged| - 1] + [Segment(last.start, Max(last.end, e))];
      } else {
        merged := merged + [Segment(s, e)];
      }
      assert sorted[i..][1..] == sorted[i + 1..];
      i := i + 1;
    }
  }

  function Union(a: seq<Segment>, b: seq<Segment>): seq<Segment> {
    Merge(a + b)
  }

  method UnionSegments(a: seq<Segment>, b: seq<Segment>) returns (r: seq<Segment>)
    ensures r == Union(a, b)
    ensures forall p :: Covers(r, p) <==> Covers(a, p) || Covers(b, p)
  {
    r := MergeIntervals(a + b);
    UnionCovers(a, b);
  }

  lemma StepSeparated(acc: seq<Segment>, g: Segment)
    requires acc != [] && Separated(acc)
    ensures Separated(Step(acc, g))
  {
    var r := Step(acc, g);
    forall i | 0 <= i < |r| - 1 ensures r[i].end < r[i + 1].start {
      assert r[i] == acc[i];
      if i + 1 < |acc| - 1 { assert r[i + 1] == acc[i + 1]; }
    }
  }

  lemma {:induction false} CoalesceSeparated(acc: seq<Segment>, rest: seq<Segment>)
    requires acc != [] && Separated(acc)
    ensures Separated(Coalesce(acc, rest))
    decreases |rest|
  {
    if rest != [] {
      StepSeparated(acc, rest[0]);
      CoalesceSeparated(Step(acc, rest[0]), rest[1..]);
    }
  }

  lemma StepWellFormed(acc: seq<Segment>, g: Segment)
    requires acc != [] && WellFormed(acc) && g.start <= g.end
    ensures WellFormed(Step(acc, g))
  {
    var r := Step(acc, g);
    forall i | 0 <= i < |r| ensures r[i].start <= r[i].end {
      if i < |acc| - 1 { assert r[i] == acc[i]; }
    }
  }

  lemma {:induction false} CoalesceWellFormed(acc: seq<Segment>, rest: seq<Segment>)
    requires acc != [] && WellFormed(acc) && WellFormed(rest)
    ensures WellFormed(Coalesce(acc, rest))
    decreases |rest|
  {
    if rest != [] {
      StepWellFormed(acc, rest[0]);
      assert WellFormed(rest[1..]) by {
        forall i | 0 <= i < |rest[1..]| ensures rest[1..][i].start <= rest[1..][i].end {
          assert rest[1..][i] == rest[i + 1];
        }
      }
      CoalesceWellFormed(Step(acc, rest[0]), rest[1..]);
    }
  }

  /** The runs keep ascending starts when the remaining input starts no earlier. */
  lemma StepStartsAscending(acc: seq<Segment>, g: Segment)
    requires acc != [] && StartsAscending(acc) && Last(acc).start <= g.start
    ensures StartsAscending(Step(acc, g))
  {
    var r := Step(acc, g);
    forall i, j | 0 <= i < j < |r| ensures r[i].start <= r[j].start {
      assert r[i] == acc[i];
      if j < |acc| - 1 { assert r[j] == acc[j]; }
    }
  }

  lemma {:induction false} CoalesceStartsAscending(acc: seq<Segment>, rest: seq<Segment>)
    requires acc != [] && StartsAscending(acc) && StartsAscending(rest)
    requires forall j :: 0 <= j < |rest| ==> Last(acc).start <= rest[j].start
    ensures StartsAscending(Coalesce(acc, rest))
    decreases |rest|
  {
    if rest != [] {
      StepStartsAscending(acc, rest[0]);
      var acc' := Step(acc, rest[0]);
      assert forall j :: 0 <= j < |rest[1..]| ==> rest[1..][j] == rest[j + 1];
      CoalesceStartsAscending(acc', rest[1..]);
    }
  }

  lemma StepCovers(acc: seq<Segment>, g: Segment, p: int)
    requires acc != [] && Last(acc).start <= g.start
    ensures Covers(Step(acc, g), p) <==> Covers(acc, p) || InSegment(g, p)
  {
    var last := Last(acc);
    var init := acc[..|acc| - 1];
    assert acc == init + [last];
    CoversConcat(init, [last], p);
    assert Covers([last], p) <==> InSegment(last, p) by { assert [last][0] == last; }
    assert Covers([g], p) <==> InSegment(g, p) by { assert [g][0] == g; }
    if g.start <= last.end {
      var m := Segment(last.start, Max(last.end, g.end));
      CoversConcat(init, [m], p);
      assert Covers([m], p) <==> InSegment(m, p) by { assert [m][0] == m; }
    } else {
      CoversConcat(acc, [g], p);
    }
  }

  lemma {:induction false} CoalesceCovers(acc: seq<Segment>, rest: seq<Segment>, p: int)
    requires acc != [] && StartsAscending(rest)
    requires forall j :: 0 <= j < |rest| ==> Last(acc).start <= rest[j].start
    ensures Covers(Coalesce(acc, rest), p) <==> Covers(acc, p) || Covers(rest, p)
    decreases |rest|
  {
    if rest != [] {
      StepCovers(acc, rest[0], p);
      var acc' := Step(acc, rest[0]);
      assert forall j :: 0 <= j < |rest[1..]| ==> rest[1..][j] == rest[j + 1];
      CoalesceCovers(acc', rest[1..], p);
      assert rest == [rest[0]] + rest[1..];
      CoversConcat([rest[0]], rest[1..], p);
      assert Covers([rest[0]], p) <==> InSegment(rest[0], p) by { assert [rest[0]][0] == rest[0]; }
    }
  }

  /** A loop over already separated runs never merges anything. */
  lemma {:induction false} CoalesceSeparatedIdentity(acc: seq<Segment>, rest: seq<Segment>)
    requires acc != [] && Separated(acc + rest)
    ensures Coalesce(acc, rest) == acc + rest
    decreases |rest|
  {
    if rest != [] {
      assert (acc + rest)[|acc| - 1] == Last(acc) && (acc + rest)[|acc|] == rest[0];
      assert Step(acc, rest[0]) == acc + [rest[0]];
      assert (acc + [rest[0]]) + rest[1..] == acc + rest;
      CoalesceSeparatedIdentity(acc + [rest[0]], rest[1..]);
    }
  }

  /** The first run seeded with the head of the sorted input, and the rest of it. */
  lemma SortedSplit(xs: seq<Segment>)
    requires xs != []
    ensures var s := SortSegments(xs);
            StartsAscending(s[1..]) && forall j :: 0 <= j < |s[1..]| ==> Last([s[0]]).start <= s[1..][j].start
  {
    var s := SortSegments(xs);
    assert forall j :: 0 <= j < |s[1..]| ==> s[1..][j] == s[j + 1];
  }

  /** The merged list is sorted and its pieces neither overlap nor touch. */
  lemma MergeSeparated(xs: seq<Segment>)
    ensures Separated(Merge(xs)) && StartsAscending(Merge(xs))
    ensures Merge(xs) == [] <==> xs == []
  {
    if xs != [] {
      var s := SortSegments(xs);
      SortedSplit(xs);
      CoalesceSeparated([s[0]], s[1..]);
      CoalesceStartsAscending([s[0]], s[1..]);
    }
  }

  /** The merged list covers exactly the offsets of the input. */
  lemma MergeCovers(xs: seq<Segment>, p: int)
    ensures Covers(Merge(xs), p) <==> Covers(xs, p)
  {
    if xs != [] {
      var s := SortSegments(xs);
      SortedSplit(xs);
      CoalesceCovers([s[0]], s[1..], p);
      assert s == [s[0]] + s[1..];
      CoversConcat([s[0]], s[1..], p);
      assert Covers([s[0]], p) <==> InSegment(s[0], p) by { assert [s[0]][0] == s[0]; }
      CoversPermutation(s, xs, p);
    }
  }

  /** Merging keeps every segment well formed. */
  lemma MergeWellFormed(xs: seq<Segment>)
    requires WellFormed(xs)
    ensures WellFormed(Merge(xs))
  {
    if xs != [] {
      var s := SortSegments(xs);
      assert WellFormed(s) by {
        forall i | 0 <= i < |s| ensures s[i].start <= s[i].end {
          assert s[i] in multiset(xs);
        }
      }
      assert WellFormed(s[1..]) by {
        forall i | 0 <= i < |s[1..]| ensures s[1..][i].start <= s[1..][i].end {
          assert s[1..][i] == s[i + 1];
        }
      }
      CoalesceWellFormed([s[0]], s[1..]);
    }
  }

  /**
   * The merged list is sorted, pieces neither overlap nor touch, it covers
   * exactly the offsets of the input, and it keeps well-formedness.
   */
  lemma MergeProperties(xs: seq<Segment>)
    ensures Separated(Merge(xs)) && StartsAscending(Merge(xs))
    ensures forall p :: Covers(Merge(xs), p) <==> Covers(xs, p)
    ensures WellFormed(xs) ==> WellFormed(Merge(xs))
    ensures Merge(xs) == [] <==> xs == []
  {
    MergeSeparated(xs);
    forall p ensures Covers(Merge(xs), p) <==> Covers(xs, p) {
      MergeCovers(xs, p);
    }
    if WellFormed(xs) { MergeWellFormed(xs); }
  }

  /** Separated, well-formed segments in ascending order are already sorted by the merge key. */
  lemma SeparatedSortedByKey(ys: seq<Segment>)
    requires WellFormed(ys) && Separated(ys) && StartsAscending(ys)
    ensures SortedBy(ys, SegKey)
  {
    forall i, j | 0 <= i < j < |ys| ensures KeyLe(SegKey(ys[i]), SegKey(ys[j])) {
      assert ys[i].start <= ys[i].end < ys[i + 1].start <= ys[j].start;
    }
  }

  /** Merging a merged list of well-formed segments gives it back unchanged. */
  lemma MergeIdempotent(xs: seq<Segment>)
    requires WellFormed(xs)
    ensures Merge(Merge(xs)) == Merge(xs)
  {
    var ys := Merge(xs);
    MergeSeparated(xs);
    MergeWellFormed(xs);
    if ys != [] {
      SeparatedSortedByKey(ys);
      SortBySorted(ys, SegKey);
      assert SortSegments(ys) == ys;
      assert ys == [ys[0]] + ys[1..];
      CoalesceSeparatedIdentity([ys[0]], ys[1..]);
    }
  }

  /** The union covers exactly the offsets of either operand. */
  lemma UnionCovers(a: seq<Segment>, b: seq<Segment>)
    ensures forall p :: Covers(Union(a, b), p) <==> Covers(a, p) || Covers(b, p)
    ensures Separated(Union(a, b))
  {
    MergeProperties(a + b);
    forall p ensures Covers(Union(a, b), p) <==> Covers(a, p) || Covers(b, p) {
      CoversConcat(a, b, p);
    }
  }

  // ---------------------------------------------------------------------------
  // Subtraction (_subtract_intervals)
  // ---------------------------------------------------------------------------

  /** What is left of [cur, e) once the cursor reaches `e` with nothing excluded. */
  function Tail(cur: int, e: int): seq<Segment> {
    if cur < e then [Segment(cur, e)] else []
  }

  /** The inner loop: the pieces of [cur, e) outside the merged exclusions `exc`. */
  function Pieces(cur: int, e: int, exc: seq<Segment>): seq<Segment>
    decreases |exc|
  {
    if exc == [] then Tail(cur, e)
    else
      var x := exc[0];
      if x.end <= cur then Pieces(cur, e, exc[1..])
      else if x.start >= e then Tail(cur, e)
      else
        var left := if x.start > cur then [Segment(cur, x.start)] else [];
        var next := Max(cur, x.end);
        if next >= e then left else left + Pieces(next, e, exc[1..])
  }

  /** The outer loop over the include ranges. */
  function SubtractMerged(incl: seq<Segment>, exc: seq<Segment>): seq<Segment> {
    if incl == [] then []
    else
      var g := incl[|incl| - 1];
      SubtractMerged(incl[..|incl| - 1], exc) + Pieces(g.start, g.end, exc)
  }

  function Subtract(incl: seq<Segment>, exclude: seq<Segment>): seq<Segment> {
    if incl == [] then []
    else if exclude == [] then incl
    else SubtractMerged(incl, Merge(exclude))
  }

  method SubtractIntervals(incl: seq<Segment>, exclude: seq<Segment>) returns (out: seq<Segment>)
    ensures out == Subtract(incl, exclude)
    ensures exclude == [] ==> out == incl
  {
    if |incl| == 0 {
      return [];
    }
    if |exclude| == 0 {
      return incl;
    }
    var exc := MergeIntervals(exclude);
    out := [];
    var i := 0;
    while i < |incl|
      invariant 0 <= i <= |incl|
      invariant out == SubtractMerged(incl[..i], exc)
    {
      assert incl[..i + 1][..i] == incl[..i];
      var ps := CutOut(incl[i].start, incl[i].end, exc);
      out := out + ps;
      i := i + 1;
    }
    assert incl[..i] == incl;
  }

  /** The inner loop of _subtract_intervals for one included segment [s, e). */
  method CutOut(s: int, e: int, exc: seq<Segment>) returns (out: seq<Segment>)
    ensures out == Pieces(s, e, exc)
  {
    out := [];
    var cur := s;
    var j := 0;
    var stop := false;
    while j < |exc| && !stop
      invariant 0 <= j <= |exc|
      invariant !stop ==> out + Pieces(cur, e, exc[j..]) == Pieces(s, e, exc)
      invariant stop ==> out + Tail(cur, e) == Pieces(s, e, exc)
      decreases |exc| - j, if stop then 0 else 1
    {
      var xs, xe := exc[j].start, exc[j].end;
      assert exc[j..][0] == exc[j] && exc[j..][1..] == exc[j + 1..];
      if xe <= cur {
        assert Pieces(cur, e, exc[j..]) == Pieces(cur, e, exc[j + 1..]);
        j := j + 1;
      } else if xs >= e {
        assert Pieces(cur, e, exc[j..]) == Tail(cur, e);
        stop := true;
      } else {
        ghost var left: seq<Segment> := if xs > cur then [Segment(cur, xs)] else [];
        ghost var next := Max(cur, xe);
        assert Pieces(cur, e, exc[j..]) == if next >= e then left else left + Pieces(next, e, exc[j + 1..]);
        ghost var out0 := out;
        if xs > cur {
          out := out + [Segment(cur, xs)];
        }
        assert out == out0 + left;
        cur := Max(cur, xe);
        if cur >= e {
          stop := true;
        } else {
          ConcatAssoc(out0, left, Pieces(next, e, exc[j + 1..]));
          j := j + 1;
        }
      }
    }
    if cur < e {
      out := out + [Segment(cur, e)];
    }
  }

  /** Every piece is non-empty and lies inside [cur, e). */
  lemma {:induction false} PiecesInside(cur: int, e: int, exc: seq<Segment>)
    ensures forall i :: 0 <= i < |Pieces(cur, e, exc)| ==>
              cur <= Pieces(cur, e, exc)[i].start < Pieces(cur, e, exc)[i].end <= e
    decreases |exc|
  {
    if exc != [] {
      var x := exc[0];
      if x.end <= cur {
        PiecesInside(cur, e, exc[1..]);
      } else if x.start < e {
        var next := Max(cur, x.end);
        if next < e { PiecesInside(next, e, exc[1..]); }
      }
    }
  }

  /** With well-formed exclusions the pieces of one range come in ascending order. */
  lemma {:induction false} PiecesAscending(cur: int, e: int, exc: seq<Segment>)
    requires WellFormed(exc)
    ensures Ascending(Pieces(cur, e, exc))
    decreases |exc|
  {
    if exc != [] {
      var x := exc[0];
      assert WellFormed(exc[1..]) by {
        forall i | 0 <= i < |exc[1..]| ensures exc[1..][i].start <= exc[1..][i].end {
          assert exc[1..][i] == exc[i + 1];
        }
      }
      if x.end <= cur {
        PiecesAscending(cur, e, exc[1..]);
      } else if x.start < e {
        var next := Max(cur, x.end);
        if next < e {
          PiecesAscending(next, e, exc[1..]);
          PiecesInside(next, e, exc[1..]);
          var left := if x.start > cur then [Segment(cur, x.start)] else [];
          var rest := Pieces(next, e, exc[1..]);
          assert Pieces(cur, e, exc) == left + rest;
          var c: seq<Segment> := left + rest;
          forall i | 0 <= i < |c| - 1 ensures c[i].end <= c[i + 1].start {
            if i >= |left| {
              assert c[i] == rest[i - |left|] && c[i + 1] == rest[i + 1 - |left|];
            }
          }
        }
      }
    }
  }

  /** The pieces of [cur, e) cover exactly its offsets outside the exclusions. */
  lemma {:induction false} PiecesCovers(cur: int, e: int, exc: seq<Segment>, p: int)
    requires StartsAscending(exc)
    ensures Covers(Pieces(cur, e, exc), p) <==> cur <= p < e && !Covers(exc, p)
    decreases |exc|
  {
    assert Covers(Tail(cur, e), p) <==> cur <= p < e by {
      if cur < e { assert Tail(cur, e)[0] == Segment(cur, e); }
    }
    if exc != [] {
      var x := exc[0];
      var rest := exc[1..];
      assert exc == [x] + rest;
      assert StartsAscending(rest) by {
        forall i, j | 0 <= i < j < |rest| ensures rest[i].start <= rest[j].start {
          assert rest[i] == exc[i + 1] && rest[j] == exc[j + 1];
        }
      }
      CoversConcat([x], rest, p);
      assert Covers([x], p) <==> InSegment(x, p) by { assert [x][0] == x; }
      assert p < x.start ==> !Covers(rest, p) by {
        forall k | 0 <= k < |rest| ensures p < x.start ==> !InSegment(rest[k], p) {
          assert rest[k] == exc[k + 1];
        }
      }
      if x.end <= cur {
        PiecesCovers(cur, e, rest, p);
      } else if x.start >= e {
      } else {
        var left := if x.start > cur then [Segment(cur, x.start)] else [];
        var next := Max(cur, x.end);
        assert Covers(left, p) <==> cur <= p < x.start by {
          if x.start > cur { assert left[0] == Segment(cur, x.start); }
        }
        if next >= e {
        } else {
          PiecesCovers(next, e, rest, p);
          CoversConcat(left, Pieces(next, e, rest), p);
        }
      }
    }
  }

  lemma {:induction false} SubtractMergedCovers(incl: seq<Segment>, exc: seq<Segment>, p: int)
    requires StartsAscending(exc)
    ensures Covers(SubtractMerged(incl, exc), p) <==> Covers(incl, p) && !Covers(exc, p)
    decreases |incl|
  {
    if incl != [] {
      var init, g := incl[..|incl| - 1], incl[|incl| - 1];
      assert incl == init + [g];
      SubtractMergedCovers(init, exc, p);
      PiecesCovers(g.start, g.end, exc, p);
      CoversConcat(SubtractMerged(init, exc), Pieces(g.start, g.end, exc), p);
      CoversConcat(init, [g], p);
      assert Covers([g], p) <==> InSegment(g, p) by { assert [g][0] == g; }
    }
  }

  lemma {:induction false} SubtractMergedNonEmpty(incl: seq<Segment>, exc: seq<Segment>)
    ensures NonEmptyPieces(SubtractMerged(incl, exc))
    decreases |incl|
  {
    if incl != [] {
      var init, g := incl[..|incl| - 1], incl[|incl| - 1];
      SubtractMergedNonEmpty(init, exc);
      PiecesInside(g.start, g.end, exc);
      var a, b := SubtractMerged(init, exc), Pieces(g.start, g.end, exc);
      var c: seq<Segment> := a + b;
      forall i | 0 <= i < |c| ensures c[i].start < c[i].end {
        if i >= |a| { assert c[i] == b[i - |a|]; }
      }
    }
  }

  /**
   * Subtraction keeps exactly the offsets of `incl` that `exclude` does
   * not cover; with a non-empty `exclude` every piece is non-empty.
   */
  lemma SubtractProperties(incl: seq<Segment>, exclude: seq<Segment>)
    ensures forall p :: Covers(Subtract(incl, exclude), p) <==> Covers(incl, p) && !Covers(exclude, p)
    ensures exclude != [] ==> NonEmptyPieces(Subtract(incl, exclude))
  {
    if incl != [] && exclude != [] {
      MergeProperties(exclude);
      forall p ensures Covers(Subtract(incl, exclude), p) <==> Covers(incl, p) && !Covers(exclude, p) {
        SubtractMergedCovers(incl, Merge(exclude), p);
      }
      SubtractMergedNonEmpty(incl, Merge(exclude));
    }
  }

  /** A list of non-empty pieces covers at least the start of its first piece. */
  lemma FirstPieceCovered(r: seq<Segment>)
    requires NonEmptyPieces(r)
    ensures r != [] ==> Covers(r, r[0].start)
  {
    if r != [] { assert InSegment(r[0], r[0].start); }
  }

  /** Subtracting a list from itself leaves nothing. */
  lemma SubtractSelf(xs: seq<Segment>)
    ensures Subtract(xs, xs) == []
  {
    SubtractProperties(xs, xs);
    var r := Subtract(xs, xs);
    if xs != [] {
      FirstPieceCovered(r);
    }
  }

  /**
   * For a sorted, separated include list and well-formed exclusions, the
   * result is ascending: no piece overlaps another.
   */
  lemma {:induction false} SubtractMergedAscending(incl: seq<Segment>, exc: seq<Segment>)
    requires Separated(incl) && WellFormed(incl) && WellFormed(exc)
    ensures Ascending(SubtractMerged(incl, exc))
    ensures forall i :: 0 <= i < |SubtractMerged(incl, exc)| ==>
              incl != [] && SubtractMerged(incl, exc)[i].end <= incl[|incl| - 1].end
    decreases |incl|
  {
    if incl != [] {
      var init, g := incl[..|incl| - 1], incl[|incl| - 1];
      assert Separated(init) && WellFormed(init) by {
        forall i | 0 <= i < |init| - 1 ensures init[i].end < init[i + 1].start {
          assert init[i] == incl[i] && init[i + 1] == incl[i + 1];
        }
        forall i | 0 <= i < |init| ensures init[i].start <= init[i].end {
          assert init[i] == incl[i];
        }
      }
      SubtractMergedAscending(init, exc);
      PiecesAscending(g.start, g.end, exc);
      PiecesInside(g.start, g.end, exc);
      var a, b := SubtractMerged(init, exc), Pieces(g.start, g.end, exc);
      assert |init| > 0 ==> init[|init| - 1].end < g.start by {
        if |init| > 0 { assert init[|init| - 1] == incl[|incl| - 2]; }
      }
      var c: seq<Segment> := a + b;
      forall i | 0 <= i < |c| - 1 ensures c[i].end <= c[i + 1].start {
        if i >= |a| {
          assert c[i] == b[i - |a|] && c[i + 1] == b[i + 1 - |a|];
        } else if i == |a| - 1 {
          assert c[i] == a[i] && c[i + 1] == b[0];
        } else {
          assert c[i] == a[i] && c[i + 1] == a[i + 1];
        }
      }
      forall i | 0 <= i < |c| ensures c[i].end <= g.end {
        if i < |a| {
          assert c[i] == a[i];
        } else {
          assert c[i] == b[i - |a|];
        }
      }
    }
  }

  /** With merged includes and well-formed exclusions no two result pieces overlap. */
  lemma SubtractAscending(incl: seq<Segment>, exclude: seq<Segment>)
    requires Separated(incl) && WellFormed(incl) && WellFormed(exclude)
    ensures Ascending(Subtract(incl, exclude))
  {
    if incl != [] && exclude != [] {
      MergeWellFormed(exclude);
      SubtractMergedAscending(incl, Merge(exclude));
    }
  }

  // ---------------------------------------------------------------------------
  // Resolving segments to text (_text_from_segments)
  // ---------------------------------------------------------------------------

  /** max(0, min(n, i)). */
  function Clamp(i: int, n: nat): (c: nat)
    ensures c <= n
    ensures 0 <= i <= n ==> c == i
    ensures i < 0 ==> c == 0
    ensures i > n ==> c == n
  {
    if i < 0 then 0 else if i > n then n else i
  }

  /** The text one segment selects after both ends are clamped to [0, |text|]. */
  function SegmentText(text: string, g: Segment): string {
    PySlice(text, Clamp(g.start, |text|), Clamp(g.end, |text|))
  }

  function TextOf(text: string, segs: seq<Segment>): string {
    if segs == [] then "" else TextOf(text, segs[..|segs| - 1]) + SegmentText(text, Last(segs))
  }

  /** The length a segment contributes: max(0, e' - s') of its clamped ends. */
  function ClampedLength(g: Segment, n: nat): nat {
    var s, e := Clamp(g.start, n), Clamp(g.end, n);
    if s < e then e - s else 0
  }

  function TotalClampedLength(segs: seq<Segment>, n: nat): nat {
    if segs == [] then 0 else TotalClampedLength(segs[..|segs| - 1], n) + ClampedLength(Last(segs), n)
  }

  method TextFromSegments(fullText: string, segs: seq<Segment>) returns (r: string)
    ensures r == TextOf(fullText, segs)
  {
    r := "";
    var i := 0;
    while i < |segs|
      invariant 0 <= i <= |segs|
      invariant r == TextOf(fullText, segs[..i])
    {
      assert segs[..i + 1][..i] == segs[..i];
      var s := Clamp(segs[i].start, |fullText|);
      var e := Clamp(segs[i].end, |fullText|);
      r := r + PySlice(fullText, s, e);
      i := i + 1;
    }
    assert segs[..i] == segs;
  }

  /** The resolved text is as long as the clamped segments together. */
  lemma {:induction false} TextOfLength(text: string, segs: seq<Segment>)
    ensures |TextOf(text, segs)| == TotalClampedLength(segs, |text|)
    decreases |segs|
  {
    if segs != [] {
      TextOfLength(text, segs[..|segs| - 1]);
    }
  }

  /** Whatever the buffer, subtracting a segment list from itself resolves to "". */
  lemma SelfExclusionEmptiesText(text: string, segs: seq<Segment>)
    ensures TextOf(text, Subtract(segs, segs)) == ""
  {
    SubtractSelf(segs);
  }
}
