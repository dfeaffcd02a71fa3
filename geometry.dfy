/**
 * Page geometry of docai_converter.py: bounding boxes of normalised
 * vertices, their union, sort keys taken from them, and the detection of a
 * two-column layout from the horizontal centers of the page items.
 *
 * Coordinates are reals.  The source's sentinel box (inf, inf, -inf, -inf)
 * for a layout without vertices is `NoBox`; its top and left edges are +inf,
 * so a position read from it is `None` and sorts after every finite value.
 */
module Geometry {
  import opened Results
  import opened Sorting
  import opened Seqs

  datatype Point = Point(x: real, y: real)

  datatype Box = NoBox | Box(x1: real, y1: real, x2: real, y2: real)

  datatype Columns = Columns(twoCol: bool, splitX: real)

  function MinR(a: real, b: real): real { if a <= b then a else b }

  function MaxR(a: real, b: real): real { if a <= b then b else a }

  /** `inner` lies within `outer`; the sentinel lies within everything. */
  predicate Encloses(outer: Box, inner: Box) {
    inner.NoBox? ||
    (outer.Box? && outer.x1 <= inner.x1 && outer.y1 <= inner.y1 && inner.x2 <= outer.x2 && inner.y2 <= outer.y2)
  }

  predicate EnclosesPoint(b: Box, p: Point) {
    b.Box? && b.x1 <= p.x <= b.x2 && b.y1 <= p.y <= b.y2
  }

  /** _merge_bbox: componentwise min of the low corners and max of the high corners. */
  function MergeBox(a: Box, b: Box): (r: Box)
    ensures Encloses(r, a) && Encloses(r, b)
    ensures forall c :: Encloses(c, a) && Encloses(c, b) ==> Encloses(c, r)
    ensures r.NoBox? <==> a.NoBox? && b.NoBox?
  {
    if a.NoBox? then b
    else if b.NoBox? then a
    else Box(MinR(a.x1, b.x1), MinR(a.y1, b.y1), MaxR(a.x2, b.x2), MaxR(a.y2, b.y2))
  }

  lemma MergeBoxCommutative(a: Box, b: Box)
    ensures MergeBox(a, b) == MergeBox(b, a)
  {
  }

  lemma MergeBoxAssociative(a: Box, b: Box, c: Box)
    ensures MergeBox(MergeBox(a, b), c) == MergeBox(a, MergeBox(b, c))
  {
  }

  /** _bbox_from_layout over the normalised vertices of a bounding polygon. */
  function BoxOfPoints(pts: seq<Point>): (b: Box)
    ensures b.NoBox? <==> pts == []
    ensures forall i :: 0 <= i < |pts| ==> EnclosesPoint(b, pts[i])
    ensures b.Box? ==> ((exists i :: 0 <= i < |pts| && pts[i].x == b.x1)
                     && (exists i :: 0 <= i < |pts| && pts[i].y == b.y1)
                     && (exists i :: 0 <= i < |pts| && pts[i].x == b.x2)
                     && (exists i :: 0 <= i < |pts| && pts[i].y == b.y2))
  {
    if pts == [] then NoBox
    else
      var init := pts[..|pts| - 1];
      var p := pts[|pts| - 1];
      assert forall i :: 0 <= i < |init| ==> init[i] == pts[i];
      MergeBox(BoxOfPoints(init), Box(p.x, p.y, p.x, p.y))
  }

  /** The box's top edge, or None for the sentinel (whose top is +inf). */
  function Top(b: Box): Option<real> {
    if b.Box? then Some(b.y1) else None
  }

  /** The box's left edge, or None for the sentinel (whose left is +inf). */
  function Left(b: Box): Option<real> {
    if b.Box? then Some(b.x1) else None
  }

  /**
   * A sort key for a coordinate that may be missing: finite values first, in
   * order, then `None`. For the +inf of the sentinel box this is where Python
   * puts it; a NaN key, which Python leaves where the input had it, is not
   * told apart from +inf here.
   */
  function OptKey(o: Option<real>): seq<real> {
    match o
    case Some(v) => [0.0, v]
    case None => [1.0, 0.0]
  }

  lemma OptKeyOrder(a: Option<real>, b: Option<real>)
    ensures KeyLe(OptKey(a), OptKey(b)) <==> b.None? || (a.Some? && a.value <= b.value)
  {
    var ka, kb := OptKey(a), OptKey(b);
    assert ka[1..][1..] == [] && kb[1..][1..] == [];
    assert KeyLe(ka, kb) <==> ka[0] < kb[0] || (ka[0] == kb[0] && KeyLe(ka[1..], kb[1..]));
    assert KeyLe(ka[1..], kb[1..]) <==> ka[1] <= kb[1];
  }

  /** _center_x of a proper box. */
  function CenterX(b: Box): real
    requires b.Box?
  {
    (b.x1 + b.x2) / 2.0
  }

  /**
   * _assign_column: column 0 when the center lies at or left of the split.
   * The sentinel's center is NaN, which compares false, so it goes right.
   */
  function AssignColumn(b: Box, splitX: real): (col: nat)
    ensures col <= 1
    ensures col == 0 <==> b.Box? && CenterX(b) <= splitX
  {
    if b.Box? && CenterX(b) <= splitX then 0 else 1
  }

  /**
   * The centers of the proper boxes, in the order given. The sentinel's NaN
   * center, which the source keeps in its list, is left out here.
   */
  function Centers(boxes: seq<Box>): (cs: seq<real>)
    ensures |cs| <= |boxes|
  {
    if boxes == [] then [] else Centers(boxes[..|boxes| - 1]) + CenterOf(boxes[|boxes| - 1])
  }

  /** The center a single box contributes, if it has one. */
  function CenterOf(b: Box): seq<real> {
    if b.Box? then [CenterX(b)] else []
  }

  function RealKey(c: real): seq<real> { [c] }

  function Gap(xs: seq<real>, i: int): real
    requires 0 <= i && i + 1 < |xs|
  {
    xs[i + 1] - xs[i]
  }

  /** Python's `max(gaps, key=...)`: the first index among the first `n` gaps whose gap is largest. */
  function FirstMaxGap(xs: seq<real>, n: nat): (i: nat)
    requires 1 <= n < |xs|
    ensures i < n
    ensures forall j :: 0 <= j < n ==> Gap(xs, j) <= Gap(xs, i)
    ensures forall j :: 0 <= j < i ==> Gap(xs, j) < Gap(xs, i)
  {
    if n == 1 then 0
    else
      var b := FirstMaxGap(xs, n - 1);
      if Gap(xs, n - 1) > Gap(xs, b) then n - 1 else b
  }

  function SortedCenters(boxes: seq<Box>): seq<real> {
    SortBy(Centers(boxes), RealKey)
  }

  /** `split` is the midpoint of a widest gap of `xs`, and that gap reaches the threshold. */
  predicate WidestGapSplit(xs: seq<real>, split: real, threshold: real) {
    exists i :: 0 <= i < |xs| - 1 && IsWidestGap(xs, i) && split == Midpoint(xs, i) && Gap(xs, i) >= threshold
  }

  /** No gap of `xs` is wider than the gap after index `i`. */
  predicate IsWidestGap(xs: seq<real>, i: int)
    requires 0 <= i < |xs| - 1
  {
    forall j :: 0 <= j < |xs| - 1 ==> Gap(xs, j) <= Gap(xs, i)
  }

  function Midpoint(xs: seq<real>, i: int): real
    requires 0 <= i < |xs| - 1
  {
    (xs[i] + xs[i + 1]) / 2.0
  }

  predicate AllGapsBelow(xs: seq<real>, threshold: real) {
    forall j :: 0 <= j < |xs| - 1 ==> Gap(xs, j) < threshold
  }

  /** _maybe_two_columns over the boxes of a page's items. */
  function MaybeTwoColumns(boxes: seq<Box>, colGapThreshold: real): (r: Columns)
    ensures |boxes| < 6 ==> r == Columns(false, 0.5)
    ensures !r.twoCol ==> r.splitX == 0.5
    ensures r.twoCol ==> WidestGapSplit(SortedCenters(boxes), r.splitX, colGapThreshold)
    ensures !r.twoCol && |boxes| >= 6 ==> AllGapsBelow(SortedCenters(boxes), colGapThreshold)
  {
    if |boxes| < 6 then Columns(false, 0.5)
    else
      var xs := SortedCenters(boxes);
      if |xs| < 2 then Columns(false, 0.5)
      else
        var idx := FirstMaxGap(xs, |xs| - 1);
        if Gap(xs, idx) >= colGapThreshold then Columns(true, Midpoint(xs, idx))
        else Columns(false, 0.5)
  }

  /** Sorted reals: every earlier value is at most every later one. */
  lemma SortedReals(xs: seq<real>)
    requires SortedBy(xs, RealKey)
    ensures forall i, j :: 0 <= i < j < |xs| ==> xs[i] <= xs[j]
  {
    forall i, j | 0 <= i < j < |xs| ensures xs[i] <= xs[j] {
      assert KeyLe(RealKey(xs[i]), RealKey(xs[j]));
      assert RealKey(xs[i])[1..] == [];
    }
  }

  /**
   * When two columns are detected with a positive threshold, the split lies
   * strictly inside the widest gap: the centers up to the gap go to column 0
   * and the rest to column 1.
   */
  lemma SplitSeparatesColumns(boxes: seq<Box>, colGapThreshold: real, i: nat)
    requires colGapThreshold > 0.0
    requires MaybeTwoColumns(boxes, colGapThreshold).twoCol
    requires i < |SortedCenters(boxes)|
    ensures SortedCenters(boxes)[i] <= MaybeTwoColumns(boxes, colGapThreshold).splitX
        <==> SortedCenters(boxes)[i] < MaybeTwoColumns(boxes, colGapThreshold).splitX
  {
    var xs := SortedCenters(boxes);
    var split := MaybeTwoColumns(boxes, colGapThreshold).splitX;
    var k :| 0 <= k < |xs| - 1 && IsWidestGap(xs, k) && split == Midpoint(xs, k) && Gap(xs, k) >= colGapThreshold;
    SortedReals(xs);
    if i <= k {
      assert xs[i] <= xs[k];
    } else {
      assert xs[k + 1] <= xs[i];
    }
  }

  lemma CentersCount(boxes: seq<Box>, b: Box)
    ensures Centers(boxes + [b]) == Centers(boxes) + CenterOf(b)
  {
    assert (boxes + [b])[..|boxes|] == boxes;
  }

  lemma {:induction false} CentersConcat(a: seq<Box>, b: seq<Box>)
    ensures Centers(a + b) == Centers(a) + Centers(b)
    decreases |b|
  {
    if b == [] {
      assert a + b == a;
    } else {
      var init, last := b[..|b| - 1], b[|b| - 1];
      assert a + b == (a + init) + [last];
      assert b == init + [last];
      CentersCount(a + init, last);
      CentersCount(init, last);
      CentersConcat(a, init);
    }
  }

  /** Taking one box out of a sequence takes its center out of the centers. */
  lemma CentersRemove(b: seq<Box>, k: nat)
    requires k < |b|
    ensures multiset(Centers(b)) == multiset(Centers(b[..k] + b[k + 1..])) + multiset(CenterOf(b[k]))
  {
    SplitAt(b, k);
    CentersConcat(b[..k] + [b[k]], b[k + 1..]);
    CentersCount(b[..k], b[k]);
    CentersConcat(b[..k], b[k + 1..]);
  }

  lemma {:induction false} CentersMultiset(a: seq<Box>, b: seq<Box>)
    requires multiset(a) == multiset(b)
    ensures multiset(Centers(a)) == multiset(Centers(b))
    decreases |a|
  {
    if a != [] {
      var x := a[|a| - 1];
      var init := a[..|a| - 1];
      SnocSplit(a);
      assert x in multiset(b);
      var k :| 0 <= k < |b| && b[k] == x;
      var rest := b[..k] + b[k + 1..];
      MultisetRemove(b, k);
      MultisetRemove(a, |a| - 1);
      assert a[..|a| - 1] + a[|a|..] == init;
      CentersMultiset(init, rest);
      CentersCount(init, x);
      CentersRemove(b, k);
    }
  }

  /** Two-column detection looks only at the set of boxes, not at their order. */
  lemma MaybeTwoColumnsOrderFree(a: seq<Box>, b: seq<Box>, colGapThreshold: real)
    requires multiset(a) == multiset(b)
    ensures MaybeTwoColumns(a, colGapThreshold) == MaybeTwoColumns(b, colGapThreshold)
  {
    assert |a| == |b| by { assert |multiset(a)| == |multiset(b)|; }
    CentersMultiset(a, b);
    var ca := Centers(a);
    assert KeysDistinct(ca, RealKey) by {
      forall i, j | 0 <= i < |ca| && 0 <= j < |ca| && RealKey(ca[i]) == RealKey(ca[j]) ensures ca[i] == ca[j] {
        assert RealKey(ca[i])[0] == ca[i];
      }
    }
    SortByPermutation(ca, Centers(b), RealKey);
  }
}
