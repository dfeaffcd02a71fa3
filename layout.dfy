/**
 * The `layout` object of a Document AI element as docai_converter.py reads
 * it: a text anchor (the segments of the document text it covers) and a
 * bounding polygon (normalised vertices).  A missing anchor or polygon is an
 * empty list here, which the source treats the same way.
 */
module DocLayout {
  import opened Segments
  import opened Geometry

  datatype Layout = Layout(anchor: seq<RawSegment>, vertices: seq<Point>)

  const EmptyLayout := Layout([], [])

  /** _layout_segments. */
  function LayoutSegments(l: Layout): seq<Segment> {
    AnchorSegments(l.anchor)
  }

  /** _bbox_from_layout. */
  function LayoutBox(l: Layout): Box {
    BoxOfPoints(l.vertices)
  }

  /** The bounding box of a concatenation of vertex lists is the union of their boxes. */
  lemma {:induction false} BoxOfPointsConcat(a: seq<Point>, b: seq<Point>)
    ensures BoxOfPoints(a + b) == MergeBox(BoxOfPoints(a), BoxOfPoints(b))
    decreases |b|
  {
    if b == [] {
      assert a + b == a;
    } else {
      var init, p := b[..|b| - 1], b[|b| - 1];
      assert a + b == (a + init) + [p];
      assert (a + b)[..|a + b| - 1] == a + init;
      BoxOfPointsConcat(a, init);
      MergeBoxAssociative(BoxOfPoints(a), BoxOfPoints(init), Box(p.x, p.y, p.x, p.y));
    }
  }
}
