/**
 * Key-value groups of docai_converter.py (_fields_to_groups): every form
 * field becomes a tuple (position, escaped key and value, anchor segments,
 * box); the tuples with a key or a value are sorted by position and split
 * into runs whose members lie within a row threshold of the run's first
 * member; each run becomes one group, rendered later as a two-column table.
 *
 * A position in the source is a float that is NaN when neither the name nor
 * the value has a bounding polygon; here it is `None`, which is never on the
 * same row as anything. The model sorts `None` last; Python's sort leaves a
 * NaN-keyed tuple where the input put it, and this model does not follow
 * that order.
 */
module FormFields {
  import opened Results
  import opened Text
  import opened Sorting
  import opened Segments
  import opened Geometry
  import opened DocLayout
  import opened MarkdownText
  import opened Seqs

  datatype FormField = FormField(name: Layout, value: Layout)

  datatype FieldTuple = FieldTuple(y: Option<real>, x: Option<real>, key: string, val: string,
                                   segs: seq<Segment>, bbox: Box)

  datatype Group = Group(rows: seq<(string, string)>, segs: seq<Segment>, bbox: Box,
                         y: Option<real>, x: Option<real>)

  function MidY(b: Box): real
    requires b.Box?
  {
    (b.y1 + b.y2) / 2.0
  }

  /** The vertical middle of the value's box, else of the name's box. */
  function FieldY(nbox: Box, vbox: Box): Option<real> {
    if vbox.Box? then Some(MidY(vbox)) else if nbox.Box? then Some(MidY(nbox)) else None
  }

  /** `min(nbox[0], vbox[0])`, where a missing box's left edge is +inf. */
  function FieldX(nbox: Box, vbox: Box): Option<real> {
    if nbox.NoBox? && vbox.NoBox? then None
    else if nbox.NoBox? then Some(vbox.x1)
    else if vbox.NoBox? then Some(nbox.x1)
    else Some(MinR(nbox.x1, vbox.x1))
  }

  /** A key ending in `:` loses the colon and the whitespace before it. */
  function TrimKey(k: string): string {
    if EndsWith(k, ":") then RStrip(k[..|k| - 1]) else k
  }

  /** field_tuple. */
  function TupleOf(f: FormField, fullText: string): FieldTuple {
    var nbox, vbox := LayoutBox(f.name), LayoutBox(f.value);
    var k := EscapeMd(TextOf(fullText, LayoutSegments(f.name)));
    var v := EscapeMd(TextOf(fullText, LayoutSegments(f.value)));
    FieldTuple(FieldY(nbox, vbox), FieldX(nbox, vbox), TrimKey(k), v,
               Union(LayoutSegments(f.name), LayoutSegments(f.value)), MergeBox(nbox, vbox))
  }

  function Tuples(fields: seq<FormField>, fullText: string): (ts: seq<FieldTuple>)
    ensures |ts| == |fields|
  {
    if fields == [] then [] else [TupleOf(fields[0], fullText)] + Tuples(fields[1..], fullText)
  }

  lemma {:induction false} TuplesAt(fields: seq<FormField>, fullText: string, i: nat)
    requires i < |fields|
    ensures Tuples(fields, fullText)[i] == TupleOf(fields[i], fullText)
  {
    if i > 0 {
      TuplesAt(fields[1..], fullText, i - 1);
    }
  }

  predicate HasText(t: FieldTuple) {
    t.key != [] || t.val != []
  }

  /** `[t for t in tuples if t["key"] or t["val"]]`. */
  function Kept(ts: seq<FieldTuple>): (r: seq<FieldTuple>)
    ensures |r| <= |ts|
    ensures forall t :: t in r <==> t in ts && HasText(t)
  {
    if ts == [] then []
    else
      var rest := Kept(ts[1..]);
      assert forall t :: t in ts <==> t == ts[0] || t in ts[1..];
      if HasText(ts[0]) then [ts[0]] + rest else rest
  }

  /** `(round(y, 4), round(x, 4))` without the rounding; the model sorts a missing coordinate last, where the source leaves a NaN in place. */
  function TupleKey(t: FieldTuple): seq<real> {
    OptKey(t.y) + OptKey(t.x)
  }

  /** `(g["y"], g["x"])`. */
  function GroupKey(g: Group): seq<real> {
    OptKey(g.y) + OptKey(g.x)
  }

  /** The tuples the grouping loop walks over, in order. */
  function SortedTuples(fields: seq<FormField>, fullText: string): seq<FieldTuple> {
    SortBy(Kept(Tuples(fields, fullText)), TupleKey)
  }

  function Abs(d: real): real {
    if d < 0.0 then -d else d
  }

  /** `abs(y - y0) <= row_threshold`, which is false whenever either position is NaN. */
  predicate SameRow(y: Option<real>, y0: Option<real>, rowThreshold: real) {
    y.Some? && y0.Some? && Abs(y.value - y0.value) <= rowThreshold
  }

  // ---------------------------------------------------------------------------
  // Runs and the groups made of them
  // ---------------------------------------------------------------------------

  function LastRun(rs: seq<seq<FieldTuple>>): seq<FieldTuple>
    requires rs != []
  {
    rs[|rs| - 1]
  }

  predicate NonEmptyRuns(rs: seq<seq<FieldTuple>>) {
    forall k :: 0 <= k < |rs| ==> rs[k] != []
  }

  /** A tuple joins the last run when it is on the row of that run's first member, else it starts a run. */
  function AddToRuns(rs: seq<seq<FieldTuple>>, t: FieldTuple, rowThreshold: real): (r: seq<seq<FieldTuple>>)
    requires NonEmptyRuns(rs)
    ensures NonEmptyRuns(r) && r != []
  {
    if rs != [] && SameRow(t.y, LastRun(rs)[0].y, rowThreshold) then rs[..|rs| - 1] + [LastRun(rs) + [t]]
    else rs + [[t]]
  }

  /** The runs the grouping loop builds from the tuples, in order. */
  function RunsOf(ts: seq<FieldTuple>, rowThreshold: real): (rs: seq<seq<FieldTuple>>)
    ensures |rs| <= |ts|
    ensures rs == [] <==> ts == []
    ensures NonEmptyRuns(rs)
  {
    if ts == [] then []
    else AddToRuns(RunsOf(ts[..|ts| - 1], rowThreshold), ts[|ts| - 1], rowThreshold)
  }

  function Pairs(run: seq<FieldTuple>): (r: seq<(string, string)>)
    ensures |r| == |run|
  {
    if run == [] then [] else Pairs(run[..|run| - 1]) + [(run[|run| - 1].key, run[|run| - 1].val)]
  }

  /** The group's segments: the first member's, then each later member's united in. */
  function RunSegs(run: seq<FieldTuple>): seq<Segment>
    requires run != []
  {
    if |run| == 1 then run[0].segs else Union(RunSegs(run[..|run| - 1]), run[|run| - 1].segs)
  }

  function RunBox(run: seq<FieldTuple>): Box
    requires run != []
  {
    if |run| == 1 then run[0].bbox else MergeBox(RunBox(run[..|run| - 1]), run[|run| - 1].bbox)
  }

  /** A group keeps the first member's position. */
  function GroupOf(run: seq<FieldTuple>): Group
    requires run != []
  {
    Group(Pairs(run), RunSegs(run), RunBox(run), run[0].y, run[0].x)
  }

  function GroupsOf(rs: seq<seq<FieldTuple>>): (gs: seq<Group>)
    requires NonEmptyRuns(rs)
    ensures |gs| == |rs|
  {
    if rs == [] then [] else GroupsOf(rs[..|rs| - 1]) + [GroupOf(LastRun(rs))]
  }

  function Flatten(rs: seq<seq<FieldTuple>>): seq<FieldTuple> {
    if rs == [] then [] else Flatten(rs[..|rs| - 1]) + LastRun(rs)
  }

  // ---------------------------------------------------------------------------
  // The grouping loop
  // ---------------------------------------------------------------------------

  function StartGroup(t: FieldTuple): Group {
    Group([(t.key, t.val)], t.segs, t.bbox, t.y, t.x)
  }

  lemma GroupOfSnoc(run: seq<FieldTuple>, t: FieldTuple)
    requires run != []
    ensures GroupOf(run + [t]) == GroupOf(run).(rows := GroupOf(run).rows + [(t.key, t.val)],
                                                 segs := Union(GroupOf(run).segs, t.segs),
                                                 bbox := MergeBox(GroupOf(run).bbox, t.bbox))
  {
    assert (run + [t])[..|run|] == run;
  }

  lemma GroupsOfSnoc(rs: seq<seq<FieldTuple>>, run: seq<FieldTuple>)
    requires NonEmptyRuns(rs)
    requires run != []
    ensures GroupsOf(rs + [run]) == GroupsOf(rs) + [GroupOf(run)]
  {
    assert (rs + [run])[..|rs|] == rs;
  }

  lemma RunsOfSnoc(ts: seq<FieldTuple>, i: nat, rowThreshold: real)
    requires i < |ts|
    ensures RunsOf(ts[..i + 1], rowThreshold) == AddToRuns(RunsOf(ts[..i], rowThreshold), ts[i], rowThreshold)
  {
    assert ts[..i + 1][..i] == ts[..i];
  }

  /** The groups built so far followed by the group under construction. */
  function Pending(groups: seq<Group>, cur: Option<Group>): seq<Group> {
    if cur.Some? then groups + [cur.value] else groups
  }

  /** The state of the grouping loop stands for the runs of the tuples seen so far. */
  predicate LoopState(groups: seq<Group>, cur: Option<Group>, runs: seq<seq<FieldTuple>>) {
    NonEmptyRuns(runs)
    && (cur.Some? <==> runs != [])
    && (cur.None? ==> groups == [])
    && (cur.Some? ==> groups == GroupsOf(runs[..|runs| - 1]) && cur.value == GroupOf(LastRun(runs)))
  }

  /** One pass of the loop body. */
  method GroupStep(groups: seq<Group>, cur: Option<Group>, ghost runs: seq<seq<FieldTuple>>,
                   t: FieldTuple, rowThreshold: real)
    returns (groups': seq<Group>, cur': Option<Group>)
    requires LoopState(groups, cur, runs)
    ensures LoopState(groups', cur', AddToRuns(runs, t, rowThreshold))
  {
    ghost var runs' := AddToRuns(runs, t, rowThreshold);
    if cur.None? {
      groups', cur' := groups, Some(StartGroup(t));
    } else if SameRow(t.y, cur.value.y, rowThreshold) {
      var c := cur.value;
      var u := UnionSegments(c.segs, t.segs);
      groups', cur' := groups, Some(c.(rows := c.rows + [(t.key, t.val)], segs := u, bbox := MergeBox(c.bbox, t.bbox)));
      GroupOfSnoc(LastRun(runs), t);
      assert runs'[..|runs'| - 1] == runs[..|runs| - 1];
    } else {
      groups', cur' := groups + [cur.value], Some(StartGroup(t));
      assert runs == runs[..|runs| - 1] + [LastRun(runs)];
      GroupsOfSnoc(runs[..|runs| - 1], LastRun(runs));
      assert runs'[..|runs|] == runs;
    }
  }

  /** The loop over the sorted tuples, with the group under construction held apart. */
  method GroupRows(ts: seq<FieldTuple>, rowThreshold: real) returns (groups: seq<Group>)
    ensures groups == GroupsOf(RunsOf(ts, rowThreshold))
  {
    groups := [];
    var cur: Option<Group> := None;
    var i := 0;
    while i < |ts|
      invariant 0 <= i <= |ts|
      invariant LoopState(groups, cur, RunsOf(ts[..i], rowThreshold))
    {
      groups, cur := GroupStep(groups, cur, RunsOf(ts[..i], rowThreshold), ts[i], rowThreshold);
      RunsOfSnoc(ts, i, rowThreshold);
      i := i + 1;
    }
    assert ts[..i] == ts;
    ghost var runs := RunsOf(ts, rowThreshold);
    if cur.Some? {
      groups := groups + [cur.value];
      assert runs == runs[..|runs| - 1] + [LastRun(runs)];
      GroupsOfSnoc(runs[..|runs| - 1], LastRun(runs));
    }
  }

  /** _fields_to_groups. */
  method FieldsToGroups(fields: seq<FormField>, fullText: string, rowThreshold: real) returns (groups: seq<Group>)
    ensures groups == GroupsOf(RunsOf(SortedTuples(fields, fullText), rowThreshold))
  {
    var tuples := Kept(Tuples(fields, fullText));
    tuples := SortBy(tuples, TupleKey);
    var gs := GroupRows(tuples, rowThreshold);
    GroupsSorted(tuples, rowThreshold);
    SortBySorted(gs, GroupKey);
    groups := SortBy(gs, GroupKey);
  }

  // ---------------------------------------------------------------------------
  // What the grouping guarantees
  // ---------------------------------------------------------------------------

  lemma FlattenAdd(rs: seq<seq<FieldTuple>>, t: FieldTuple, rowThreshold: real)
    requires NonEmptyRuns(rs)
    ensures Flatten(AddToRuns(rs, t, rowThreshold)) == Flatten(rs) + [t]
  {
    var r := AddToRuns(rs, t, rowThreshold);
    if rs != [] && SameRow(t.y, LastRun(rs)[0].y, rowThreshold) {
      assert r[..|r| - 1] == rs[..|rs| - 1];
      assert Flatten(rs) == Flatten(rs[..|rs| - 1]) + LastRun(rs);
    } else {
      assert r[..|rs|] == rs;
    }
  }

  /** The runs cut the sorted tuples into consecutive pieces: nothing is lost, duplicated or reordered. */
  lemma {:induction false} RunsFlatten(ts: seq<FieldTuple>, rowThreshold: real)
    ensures Flatten(RunsOf(ts, rowThreshold)) == ts
  {
    if ts != [] {
      var init := ts[..|ts| - 1];
      RunsFlatten(init, rowThreshold);
      FlattenAdd(RunsOf(init, rowThreshold), ts[|ts| - 1], rowThreshold);
      SnocSplit(ts);
    }
  }

  /** Every later member of a run is on the row of the run's first member. */
  predicate RunOnRow(run: seq<FieldTuple>, rowThreshold: real)
    requires run != []
  {
    forall j :: 0 < j < |run| ==> SameRow(run[j].y, run[0].y, rowThreshold)
  }

  /** A run ends only where the next tuple is off the row of the run's first member. */
  predicate BreakAfter(rs: seq<seq<FieldTuple>>, k: int, rowThreshold: real)
    requires 0 <= k < |rs| - 1 && rs[k] != [] && rs[k + 1] != []
  {
    !SameRow(rs[k + 1][0].y, rs[k][0].y, rowThreshold)
  }

  /** The runs are exactly the row bands the loop means: on the row within a run, off it between runs. */
  predicate Partitioned(rs: seq<seq<FieldTuple>>, rowThreshold: real) {
    NonEmptyRuns(rs)
    && (forall k :: 0 <= k < |rs| ==> RunOnRow(rs[k], rowThreshold))
    && (forall k :: 0 <= k < |rs| - 1 ==> BreakAfter(rs, k, rowThreshold))
  }

  lemma PartitionedAdd(rs: seq<seq<FieldTuple>>, t: FieldTuple, rowThreshold: real)
    requires Partitioned(rs, rowThreshold)
    ensures Partitioned(AddToRuns(rs, t, rowThreshold), rowThreshold)
  {
    var r := AddToRuns(rs, t, rowThreshold);
    if rs != [] && SameRow(t.y, LastRun(rs)[0].y, rowThreshold) {
      var last := LastRun(rs) + [t];
      assert r[|r| - 1] == last;
      assert RunOnRow(last, rowThreshold) by {
        assert RunOnRow(LastRun(rs), rowThreshold);
        forall j | 0 < j < |last| ensures SameRow(last[j].y, last[0].y, rowThreshold) {
          if j < |last| - 1 { assert last[j] == LastRun(rs)[j]; }
        }
      }
      forall k | 0 <= k < |r| ensures RunOnRow(r[k], rowThreshold) {
        if k < |r| - 1 { assert r[k] == rs[k]; }
      }
      forall k | 0 <= k < |r| - 1 ensures BreakAfter(r, k, rowThreshold) {
        assert BreakAfter(rs, k, rowThreshold);
        assert r[k] == rs[k];
        assert r[k + 1][0] == rs[k + 1][0];
      }
    } else {
      forall k | 0 <= k < |r| ensures RunOnRow(r[k], rowThreshold) {
        if k < |rs| { assert r[k] == rs[k]; }
      }
      forall k | 0 <= k < |r| - 1 ensures BreakAfter(r, k, rowThreshold) {
        if k < |rs| - 1 {
          assert BreakAfter(rs, k, rowThreshold);
          assert r[k] == rs[k] && r[k + 1] == rs[k + 1];
        } else {
          assert r[k] == LastRun(rs) && r[k + 1] == [t];
        }
      }
    }
  }

  lemma {:induction false} RunsPartitioned(ts: seq<FieldTuple>, rowThreshold: real)
    ensures Partitioned(RunsOf(ts, rowThreshold), rowThreshold)
  {
    if ts != [] {
      RunsPartitioned(ts[..|ts| - 1], rowThreshold);
      PartitionedAdd(RunsOf(ts[..|ts| - 1], rowThreshold), ts[|ts| - 1], rowThreshold);
    }
  }

  /** The first members of the runs come in ascending order of position. */
  predicate FirstsSorted(rs: seq<seq<FieldTuple>>)
    requires NonEmptyRuns(rs)
  {
    forall i, j :: 0 <= i < j < |rs| ==> KeyLe(TupleKey(rs[i][0]), TupleKey(rs[j][0]))
  }

  lemma FirstsSortedAdd(rs: seq<seq<FieldTuple>>, t: FieldTuple, rowThreshold: real)
    requires NonEmptyRuns(rs) && FirstsSorted(rs)
    requires forall k :: 0 <= k < |rs| ==> KeyLe(TupleKey(rs[k][0]), TupleKey(t))
    ensures FirstsSorted(AddToRuns(rs, t, rowThreshold))
  {
    var r := AddToRuns(rs, t, rowThreshold);
    if rs != [] && SameRow(t.y, LastRun(rs)[0].y, rowThreshold) {
      forall k | 0 <= k < |r| ensures r[k][0] == rs[k][0] {
        if k < |r| - 1 { assert r[k] == rs[k]; }
      }
    } else {
      forall k | 0 <= k < |rs| ensures r[k] == rs[k] {
      }
    }
  }

  /** The first member of each run is one of the tuples. */
  lemma FirstsFromAdd(rs: seq<seq<FieldTuple>>, ts: seq<FieldTuple>, t: FieldTuple, rowThreshold: real)
    requires NonEmptyRuns(rs)
    requires forall k :: 0 <= k < |rs| ==> rs[k][0] in ts
    ensures var r := AddToRuns(rs, t, rowThreshold);
            forall k :: 0 <= k < |r| ==> r[k][0] in ts + [t]
  {
    var r := AddToRuns(rs, t, rowThreshold);
    forall k | 0 <= k < |r| ensures r[k][0] in ts + [t] {
      if k < |rs| {
        assert r[k][0] == rs[k][0];
      } else {
        assert r[k][0] == t;
      }
    }
  }

  lemma {:induction false} RunsFirstsSorted(ts: seq<FieldTuple>, rowThreshold: real)
    requires SortedBy(ts, TupleKey)
    ensures FirstsSorted(RunsOf(ts, rowThreshold))
    ensures forall k :: 0 <= k < |RunsOf(ts, rowThreshold)| ==> RunsOf(ts, rowThreshold)[k][0] in ts
  {
    if ts != [] {
      var init, t := ts[..|ts| - 1], ts[|ts| - 1];
      assert SortedBy(init, TupleKey) by {
        forall i, j | 0 <= i < j < |init| ensures KeyLe(TupleKey(init[i]), TupleKey(init[j])) {
          assert init[i] == ts[i] && init[j] == ts[j];
        }
      }
      RunsFirstsSorted(init, rowThreshold);
      var rs := RunsOf(init, rowThreshold);
      forall k | 0 <= k < |rs| ensures KeyLe(TupleKey(rs[k][0]), TupleKey(t)) {
        var p :| 0 <= p < |init| && init[p] == rs[k][0];
        assert ts[p] == init[p];
      }
      FirstsSortedAdd(rs, t, rowThreshold);
      FirstsFromAdd(rs, init, t, rowThreshold);
      SnocSplit(ts);
    }
  }

  /**
   * When the tuples are sorted by position, so are the groups: the sort of
   * the groups that ends _fields_to_groups leaves them as they are.
   */
  lemma GroupsSorted(ts: seq<FieldTuple>, rowThreshold: real)
    requires SortedBy(ts, TupleKey)
    ensures SortedBy(GroupsOf(RunsOf(ts, rowThreshold)), GroupKey)
  {
    var rs := RunsOf(ts, rowThreshold);
    var gs := GroupsOf(rs);
    RunsFirstsSorted(ts, rowThreshold);
    forall i, j | 0 <= i < j < |gs| ensures KeyLe(GroupKey(gs[i]), GroupKey(gs[j])) {
      GroupsOfAt(rs, i);
      GroupsOfAt(rs, j);
    }
  }

  lemma {:induction false} GroupsOfAt(rs: seq<seq<FieldTuple>>, i: nat)
    requires NonEmptyRuns(rs)
    requires i < |rs|
    ensures GroupsOf(rs)[i] == GroupOf(rs[i])
  {
    if i < |rs| - 1 {
      GroupsOfAt(rs[..|rs| - 1], i);
    }
  }

  /** Every group has one row per member of its run, so at least one. */
  lemma GroupHasRows(rs: seq<seq<FieldTuple>>, i: nat)
    requires NonEmptyRuns(rs)
    requires i < |rs|
    ensures |GroupsOf(rs)[i].rows| == |rs[i]| > 0
  {
    GroupsOfAt(rs, i);
  }

  /** Some member's segments cover offset `p`. */
  predicate MemberCovers(run: seq<FieldTuple>, p: int) {
    exists j :: 0 <= j < |run| && Covers(run[j].segs, p)
  }

  lemma MemberCoversSnoc(run: seq<FieldTuple>, p: int)
    requires run != []
    ensures MemberCovers(run, p) <==> MemberCovers(run[..|run| - 1], p) || Covers(run[|run| - 1].segs, p)
  {
    var init := run[..|run| - 1];
    if MemberCovers(run, p) && !Covers(run[|run| - 1].segs, p) {
      var j :| 0 <= j < |run| && Covers(run[j].segs, p);
      assert init[j] == run[j];
    }
    if MemberCovers(init, p) {
      var j :| 0 <= j < |init| && Covers(init[j].segs, p);
      assert init[j] == run[j];
    }
  }

  /** A group's segments cover exactly the offsets its members' segments cover. */
  lemma {:induction false} RunSegsCovers(run: seq<FieldTuple>, p: int)
    requires run != []
    ensures Covers(RunSegs(run), p) <==> MemberCovers(run, p)
  {
    if |run| == 1 {
      MemberCoversSnoc(run, p);
    } else {
      var init := run[..|run| - 1];
      RunSegsCovers(init, p);
      MergeCovers(RunSegs(init) + run[|run| - 1].segs, p);
      CoversConcat(RunSegs(init), run[|run| - 1].segs, p);
      MemberCoversSnoc(run, p);
    }
  }

  /** A group's box encloses every member's box. */
  lemma {:induction false} RunBoxEncloses(run: seq<FieldTuple>, j: nat)
    requires j < |run|
    ensures Encloses(RunBox(run), run[j].bbox)
  {
    if |run| > 1 {
      var init := run[..|run| - 1];
      if j < |init| {
        RunBoxEncloses(init, j);
        assert run[j] == init[j];
        var b, c := RunBox(init), run[|run| - 1].bbox;
        assert Encloses(MergeBox(b, c), b);
      }
    }
  }

  /** Trimming a key keeps a prefix of it, and keeps its pipes escaped. */
  lemma TrimKeyFacts(k: string)
    requires PipesEscaped(k)
    ensures PipesEscaped(TrimKey(k)) && StartsWith(k, TrimKey(k))
    ensures TrimKey(k) == k <==> !EndsWith(k, ":")
  {
    if EndsWith(k, ":") {
      var pre := k[..|k| - 1];
      var r := TrimKey(k);
      RStripSlice(pre);
      assert r == pre[..|r|];
      assert k[..|r|] == r;
      forall i | 0 <= i < |r| ensures PipeEscapedAt(r, i) {
        assert PipeEscapedAt(k, i);
      }
    }
  }

  /**
   * What a tuple records about its field: the left edge of the merged box,
   * a position exactly when some box is present, the united anchors, and
   * escaped texts; the key is the escaped name less a final colon.
   */
  lemma TupleFacts(f: FormField, fullText: string)
    ensures var t := TupleOf(f, fullText);
            t.x == Left(t.bbox)
            && (t.y.None? <==> f.name.vertices == [] && f.value.vertices == [])
            && (f.value.vertices != [] ==> t.y == Some(MidY(LayoutBox(f.value))))
            && PipesEscaped(t.val)
    ensures var t := TupleOf(f, fullText);
            forall p :: Covers(t.segs, p) <==> Covers(LayoutSegments(f.name), p) || Covers(LayoutSegments(f.value), p)
    ensures var t := TupleOf(f, fullText);
            var k := EscapeMd(TextOf(fullText, LayoutSegments(f.name)));
            PipesEscaped(t.key) && StartsWith(k, t.key) && (t.key == k <==> !EndsWith(k, ":"))
  {
    EscapeMdSafe(TextOf(fullText, LayoutSegments(f.value)));
    EscapeMdSafe(TextOf(fullText, LayoutSegments(f.name)));
    TrimKeyFacts(EscapeMd(TextOf(fullText, LayoutSegments(f.name))));
    UnionCovers(LayoutSegments(f.name), LayoutSegments(f.value));
  }

  /**
   * The key and value of a field reach a key-value row escaped twice: every
   * pipe in the written cells has two backslashes before it, even after the
   * key's final colon is cut.
   */
  lemma KvCellsDoublyEscaped(f: FormField, fullText: string)
    ensures PipesDoublyEscaped(EscapeMd(TupleOf(f, fullText).key))
    ensures PipesDoublyEscaped(EscapeMd(TupleOf(f, fullText).val))
  {
    TupleFacts(f, fullText);
    EscapeEscapedDoubles(TupleOf(f, fullText).key);
    EscapeEscapedDoubles(TupleOf(f, fullText).val);
  }
}
