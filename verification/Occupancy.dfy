/** How full a page is: the measure of a union of intervals
    (resume-renderer-v2/app.py, 1092-1107). */
module Occupancy {
  import opened Resume
  import opened Column
  import opened Geometry

  datatype Interval = Interval(start: real, end: real)

  // ------------------------------------------------- the reference measure

  /** Intervals are half open, so abutting ones cover their common end once. */
  ghost predicate Covered(ivs: seq<Interval>, x: real) {
    exists i :: 0 <= i < |ivs| && ivs[i].start <= x < ivs[i].end
  }

  predicate Ascending(cuts: seq<real>) {
    forall i, j :: 0 <= i < j < |cuts| ==> cuts[i] <= cuts[j]
  }

  /** A grid cuts the line at least at every end of every interval. */
  ghost predicate IsGrid(cuts: seq<real>, ivs: seq<Interval>) {
    && Ascending(cuts)
    && forall i :: 0 <= i < |ivs| ==> ivs[i].start in cuts && ivs[i].end in cuts
  }

  /** The total length of the grid's cells that begin at a covered point. */
  ghost function CoveredLength(cuts: seq<real>, ivs: seq<Interval>): real {
    if |cuts| < 2 then 0.0
    else (if Covered(ivs, cuts[0]) then cuts[1] - cuts[0] else 0.0) + CoveredLength(cuts[1..], ivs)
  }

  /** A cell of a grid is covered everywhere or nowhere, so its first point decides. */
  lemma CellsAreUniform(cuts: seq<real>, ivs: seq<Interval>, k: nat, x: real)
    requires IsGrid(cuts, ivs) && k + 1 < |cuts| && cuts[k] <= x < cuts[k + 1]
    ensures Covered(ivs, x) <==> Covered(ivs, cuts[k])
  {
    forall i | 0 <= i < |ivs|
      ensures ivs[i].start <= x < ivs[i].end <==> ivs[i].start <= cuts[k] < ivs[i].end
    {
      NoCutInside(cuts, k, ivs[i].start, x);
      NoCutInside(cuts, k, ivs[i].end, x);
    }
  }

  lemma NoCutInside(cuts: seq<real>, k: nat, cut: real, x: real)
    requires Ascending(cuts) && k + 1 < |cuts| && cuts[k] <= x < cuts[k + 1] && cut in cuts
    ensures cut <= x <==> cut <= cuts[k]
  {
    var j :| 0 <= j < |cuts| && cuts[j] == cut;
  }

  ghost predicate SameCover(a: seq<Interval>, b: seq<Interval>) {
    forall x :: Covered(a, x) <==> Covered(b, x)
  }

  // ------------------------------------------------------ sorting intervals

  predicate Before(a: Interval, b: Interval) {
    a.start < b.start || (a.start == b.start && a.end <= b.end)
  }

  predicate InOrder(ivs: seq<Interval>) {
    forall i, j :: 0 <= i < j < |ivs| ==> Before(ivs[i], ivs[j])
  }

  function Insert(ivs: seq<Interval>, iv: Interval): seq<Interval> {
    if ivs == [] || Before(iv, ivs[0]) then [iv] + ivs else [ivs[0]] + Insert(ivs[1..], iv)
  }

  /** sorted(), on pairs compared lexicographically. */
  function Sorted(ivs: seq<Interval>): seq<Interval> {
    if ivs == [] then [] else Insert(Sorted(ivs[1..]), ivs[0])
  }

  lemma {:induction false} InsertSorts(ivs: seq<Interval>, iv: Interval)
    requires InOrder(ivs)
    ensures InOrder(Insert(ivs, iv))
    ensures forall x :: x in Insert(ivs, iv) <==> x == iv || x in ivs
  {
    if ivs != [] && !Before(iv, ivs[0]) {
      InsertSorts(ivs[1..], iv);
      forall x | x in Insert(ivs[1..], iv) ensures Before(ivs[0], x) {
        if x != iv {
          assert x in ivs[1..];
        }
      }
      assert forall x :: x in ivs <==> x == ivs[0] || x in ivs[1..];
    }
  }

  lemma {:induction false} SortedSorts(ivs: seq<Interval>)
    ensures InOrder(Sorted(ivs))
    ensures forall x :: x in Sorted(ivs) <==> x in ivs
  {
    if ivs != [] {
      SortedSorts(ivs[1..]);
      InsertSorts(Sorted(ivs[1..]), ivs[0]);
      assert forall x :: x in ivs <==> x == ivs[0] || x in ivs[1..];
    }
  }

  // ------------------------------------------------- measuring disjoint ones

  /** What merging leaves: nonempty intervals in order, with air between them. */
  predicate Separate(ivs: seq<Interval>) {
    && (forall i :: 0 <= i < |ivs| ==> ivs[i].start < ivs[i].end)
    && forall i, j :: 0 <= i < j < |ivs| ==> ivs[i].end < ivs[j].start
  }

  function TotalLength(ivs: seq<Interval>): real {
    if ivs == [] then 0.0 else TotalLength(ivs[..|ivs| - 1]) + (ivs[|ivs| - 1].end - ivs[|ivs| - 1].start)
  }

  lemma {:induction false} CoveredLengthSplits(cuts: seq<real>, all: seq<Interval>, a: seq<Interval>, b: seq<Interval>)
    requires forall x :: Covered(all, x) <==> Covered(a, x) || Covered(b, x)
    requires forall x :: !(Covered(a, x) && Covered(b, x))
    ensures CoveredLength(cuts, all) == CoveredLength(cuts, a) + CoveredLength(cuts, b)
  {
    if |cuts| >= 2 {
      CoveredLengthSplits(cuts[1..], all, a, b);
    }
  }

  lemma {:induction false} CoveredLengthAlike(cuts: seq<real>, a: seq<Interval>, b: seq<Interval>)
    requires SameCover(a, b)
    ensures CoveredLength(cuts, a) == CoveredLength(cuts, b)
  {
    hide Covered;
    if |cuts| >= 2 {
      CoveredLengthAlike(cuts[1..], a, b);
    }
  }

  lemma {:induction false} CoveredLengthGrows(cuts: seq<real>, a: seq<Interval>, b: seq<Interval>)
    requires Ascending(cuts) && CoversMore(a, b)
    ensures 0.0 <= CoveredLength(cuts, a) <= CoveredLength(cuts, b)
  {
    hide Covered;
    if |cuts| >= 2 {
      CoveredLengthGrows(cuts[1..], a, b);
    }
  }

  /** How much of the half line from the first cut on lies inside one interval. */
  function Overhang(iv: Interval, from: real): real {
    if iv.end <= from then 0.0 else if from <= iv.start then iv.end - iv.start else iv.end - from
  }

  lemma {:induction false} OneInterval(cuts: seq<real>, iv: Interval)
    requires Ascending(cuts) && cuts != [] && iv.start < iv.end
    requires iv.start in cuts || iv.start <= cuts[0]
    requires iv.end in cuts || iv.end <= cuts[0]
    ensures CoveredLength(cuts, [iv]) == Overhang(iv, cuts[0])
  {
    assert Covered([iv], cuts[0]) <==> [iv][0].start <= cuts[0] < [iv][0].end;
    if |cuts| == 1 {
    } else {
      OneInterval(cuts[1..], iv);
    }
  }

  /** On any grid, separate intervals measure what their lengths add up to. */
  lemma {:induction false} SeparateMeasure(cuts: seq<real>, ivs: seq<Interval>)
    requires Separate(ivs) && IsGrid(cuts, ivs)
    ensures CoveredLength(cuts, ivs) == TotalLength(ivs)
  {
    hide Covered;
    if ivs == [] {
      NothingCovered(cuts);
    } else {
      var n := |ivs| - 1;
      var last, rest := ivs[n], ivs[..n];
      SeparateMeasure(cuts, rest);
      OneInterval(cuts, last);
      assert last.start in cuts;
      FirstCutIsLeast(cuts, last.start);
      forall x ensures Covered(ivs, x) <==> Covered(rest, x) || Covered([last], x) {
        CoveredAppend(rest, last, x);
        assert rest + [last] == ivs;
      }
      forall x ensures !(Covered(rest, x) && Covered([last], x)) {
        SeparateBelow(rest, last, x);
      }
      CoveredLengthSplits(cuts, ivs, rest, [last]);
    }
  }

  lemma SeparateBelow(rest: seq<Interval>, last: Interval, x: real)
    requires Separate(rest + [last])
    ensures !(Covered(rest, x) && Covered([last], x))
  {
    if Covered(rest, x) {
      var i :| 0 <= i < |rest| && rest[i].start <= x < rest[i].end;
      assert (rest + [last])[i].end < (rest + [last])[|rest|].start;
    }
  }

  lemma FirstCutIsLeast(cuts: seq<real>, x: real)
    requires Ascending(cuts) && x in cuts
    ensures cuts[0] <= x
  {
    var j :| 0 <= j < |cuts| && cuts[j] == x;
  }

  lemma {:induction false} NothingCovered(cuts: seq<real>)
    ensures CoveredLength(cuts, []) == 0.0
  {
    if |cuts| >= 2 {
      NothingCovered(cuts[1..]);
    }
  }

  lemma CoveredAppend(ivs: seq<Interval>, iv: Interval, x: real)
    ensures Covered(ivs + [iv], x) <==> Covered(ivs, x) || iv.start <= x < iv.end
    ensures Covered([iv], x) <==> iv.start <= x < iv.end
  {
    var all := ivs + [iv];
    if Covered(ivs, x) {
      var i :| 0 <= i < |ivs| && ivs[i].start <= x < ivs[i].end;
      assert all[i] == ivs[i];
    }
    if iv.start <= x < iv.end {
      assert all[|ivs|] == iv && [iv][0] == iv;
    }
    if Covered(all, x) {
      var i :| 0 <= i < |all| && all[i].start <= x < all[i].end;
      assert i < |ivs| ==> ivs[i] == all[i];
    }
  }

  // ------------------------------------------------------------ the boxes

  function Least(a: real, b: real): real { if a <= b then a else b }

  /** A real box, clamped to the printable area. */
  function Clamped(b: TextBox): Interval {
    Interval(Max(PRINTABLE_BOTTOM, b.y), Least(PRINTABLE_TOP, b.y + b.height))
  }

  function RealIntervals(boxes: seq<TextBox>): seq<Interval> {
    if boxes == [] then []
    else
      RealIntervals(boxes[..|boxes| - 1])
      + (if boxes[|boxes| - 1].realContent then [Clamped(boxes[|boxes| - 1])] else [])
  }

  /** The share of the printable height that is under some real box of the page, as
      measured on one particular grid; every other grid agrees (OnAnyGrid). */
  ghost function Occupancy(boxes: seq<TextBox>): real {
    CoveredLength(GridOf(RealIntervals(boxes)), RealIntervals(boxes)) / PRINTABLE_HEIGHT
  }

  function InsertCut(cuts: seq<real>, x: real): seq<real> {
    if cuts == [] || x <= cuts[0] then [x] + cuts else [cuts[0]] + InsertCut(cuts[1..], x)
  }

  function GridOf(ivs: seq<Interval>): seq<real> {
    if ivs == [] then [] else InsertCut(InsertCut(GridOf(ivs[1..]), ivs[0].start), ivs[0].end)
  }

  lemma {:induction false} InsertCutSorts(cuts: seq<real>, x: real)
    requires Ascending(cuts)
    ensures Ascending(InsertCut(cuts, x))
    ensures forall y :: y in InsertCut(cuts, x) <==> y == x || y in cuts
  {
    if cuts != [] && x > cuts[0] {
      InsertCutSorts(cuts[1..], x);
      forall y | y in InsertCut(cuts[1..], x) ensures cuts[0] <= y {
        if y != x {
          assert y in cuts[1..];
        }
      }
      assert forall y :: y in cuts <==> y == cuts[0] || y in cuts[1..];
      var tail := InsertCut(cuts[1..], x);
      forall i, j | 0 <= i < j < |tail| + 1 ensures ([cuts[0]] + tail)[i] <= ([cuts[0]] + tail)[j] {
        if i == 0 {
          assert tail[j - 1] in tail;
        }
      }
    }
  }

  lemma {:induction false} GridOfIsGrid(ivs: seq<Interval>)
    ensures IsGrid(GridOf(ivs), ivs)
  {
    if ivs != [] {
      GridOfIsGrid(ivs[1..]);
      InsertCutSorts(GridOf(ivs[1..]), ivs[0].start);
      InsertCutSorts(InsertCut(GridOf(ivs[1..]), ivs[0].start), ivs[0].end);
      forall i | 0 <= i < |ivs| ensures ivs[i].start in GridOf(ivs) && ivs[i].end in GridOf(ivs) {
        if i > 0 {
          assert ivs[i] == ivs[1..][i - 1];
        }
      }
    }
  }

  // -------------------------------------------------------------- the loop

  /** Merging invents no end points. */
  ghost predicate SameEnds(merged: seq<Interval>, ivs: seq<Interval>) {
    forall i :: 0 <= i < |merged| ==>
      && (exists j :: 0 <= j < |ivs| && ivs[j].start == merged[i].start)
      && (exists j :: 0 <= j < |ivs| && ivs[j].end == merged[i].end)
  }

  ghost predicate MergeOf(merged: seq<Interval>, ivs: seq<Interval>) {
    && Separate(merged)
    && SameCover(merged, ivs)
    && SameEnds(merged, ivs)
  }

  /** Whatever grid is used, the merged lengths are the measure of the union. */
  lemma MergeMeasures(merged: seq<Interval>, ivs: seq<Interval>, cuts: seq<real>)
    requires MergeOf(merged, ivs) && IsGrid(cuts, ivs)
    ensures CoveredLength(cuts, ivs) == TotalLength(merged)
  {
    hide Covered;
    CoveredLengthAlike(cuts, ivs, merged);
    SeparateMeasure(cuts, merged);
  }

  /** The next state of the merge loop. */
  function MergeOne(merged: seq<Interval>, iv: Interval): seq<Interval> {
    if iv.end <= iv.start then merged
    else if merged == [] || iv.start > merged[|merged| - 1].end then merged + [iv]
    else merged[|merged| - 1 := Interval(merged[|merged| - 1].start, Max(merged[|merged| - 1].end, iv.end))]
  }

  lemma MergeOneCovers(merged: seq<Interval>, ivs: seq<Interval>, iv: Interval)
    requires Separate(merged) && SameCover(merged, ivs)
    requires merged != [] ==> merged[|merged| - 1].start <= iv.start
    ensures SameCover(MergeOne(merged, iv), ivs + [iv])
  {
    hide Covered;
    var next := MergeOne(merged, iv);
    forall x ensures Covered(next, x) <==> Covered(ivs + [iv], x) {
      CoveredAppend(ivs, iv, x);
      CoveredAppend(merged, iv, x);
      if iv.start < iv.end && merged != [] && iv.start <= merged[|merged| - 1].end {
        var n := |merged| - 1;
        var last, wide := merged[n], next[n];
        assert merged == merged[..n] + [last] && next == merged[..n] + [wide];
        CoveredAppend(merged[..n], last, x);
        CoveredAppend(merged[..n], wide, x);
      }
    }
  }

  lemma MergeOneEnds(merged: seq<Interval>, ivs: seq<Interval>, iv: Interval)
    requires SameEnds(merged, ivs)
    ensures SameEnds(MergeOne(merged, iv), ivs + [iv])
  {
    var all := ivs + [iv];
    var next := MergeOne(merged, iv);
    assert all[|ivs|] == iv && forall j :: 0 <= j < |ivs| ==> all[j] == ivs[j];
    forall i | 0 <= i < |next|
      ensures (exists j :: 0 <= j < |all| && all[j].start == next[i].start)
           && (exists j :: 0 <= j < |all| && all[j].end == next[i].end)
    {
      if i < |merged| {
        var j :| 0 <= j < |ivs| && ivs[j].start == merged[i].start;
        var k :| 0 <= k < |ivs| && ivs[k].end == merged[i].end;
        assert all[j].start == merged[i].start && all[k].end == merged[i].end;
      }
    }
  }

  /** Merging one more interval that starts no earlier than the last. */
  lemma MergeStep(merged: seq<Interval>, ivs: seq<Interval>, iv: Interval)
    requires MergeOf(merged, ivs)
    requires merged != [] ==> merged[|merged| - 1].start <= iv.start
    ensures MergeOf(MergeOne(merged, iv), ivs + [iv])
    ensures var next := MergeOne(merged, iv); next != [] ==> next[|next| - 1].start <= iv.start
  {
    hide SameCover, SameEnds;
    MergeOneCovers(merged, ivs, iv);
    MergeOneEnds(merged, ivs, iv);
  }

  function Merged(ivs: seq<Interval>): seq<Interval> {
    if ivs == [] then [] else MergeOne(Merged(ivs[..|ivs| - 1]), ivs[|ivs| - 1])
  }

  lemma {:induction false} MergedIsMerge(ivs: seq<Interval>)
    requires InOrder(ivs)
    ensures MergeOf(Merged(ivs), ivs)
    ensures Merged(ivs) != [] ==> ivs != [] && Merged(ivs)[|Merged(ivs)| - 1].start <= ivs[|ivs| - 1].start
  {
    hide SameCover, SameEnds;
    if ivs == [] {
      EmptyMerge();
    } else {
      var n := |ivs| - 1;
      MergedIsMerge(ivs[..n]);
      MergeStep(Merged(ivs[..n]), ivs[..n], ivs[n]);
      assert ivs[..n] + [ivs[n]] == ivs;
    }
  }

  lemma EmptyMerge()
    ensures MergeOf([], [])
  {}

  /** On every grid, the measure of the union is what merging the sorted intervals adds up to. */
  lemma MeasureOfSorted(ivs: seq<Interval>, cuts: seq<real>)
    requires IsGrid(cuts, ivs)
    ensures CoveredLength(cuts, ivs) == TotalLength(Merged(Sorted(ivs)))
  {
    hide MergeOf, SameCover, Merged;
    SortedSorts(ivs);
    SortedCoversAlike(ivs);
    CoveredLengthAlike(cuts, Sorted(ivs), ivs);
    GridOfSorted(ivs, cuts);
    MergedIsMerge(Sorted(ivs));
    MergeMeasures(Merged(Sorted(ivs)), Sorted(ivs), cuts);
  }

  lemma {:induction false} WithinBounds(ivs: seq<Interval>, low: real, high: real)
    requires Separate(ivs) && low <= high
    requires forall i :: 0 <= i < |ivs| ==> low <= ivs[i].start && ivs[i].end <= high
    ensures 0.0 <= TotalLength(ivs) <= if ivs == [] then 0.0 else ivs[|ivs| - 1].end - low
  {
    if ivs != [] {
      WithinBounds(ivs[..|ivs| - 1], low, high);
    }
  }

  lemma {:induction false} ClampedBounds(boxes: seq<TextBox>)
    ensures forall iv :: iv in RealIntervals(boxes) ==> PRINTABLE_BOTTOM <= iv.start && iv.end <= PRINTABLE_TOP
  {
    if boxes != [] {
      ClampedBounds(boxes[..|boxes| - 1]);
    }
  }

  lemma SortedCoversAlike(ivs: seq<Interval>)
    ensures SameCover(Sorted(ivs), ivs)
  {
    SortedSorts(ivs);
    forall x ensures Covered(Sorted(ivs), x) <==> Covered(ivs, x) {
      if Covered(ivs, x) {
        var i :| 0 <= i < |ivs| && ivs[i].start <= x < ivs[i].end;
        assert ivs[i] in Sorted(ivs);
      }
      if Covered(Sorted(ivs), x) {
        var i :| 0 <= i < |Sorted(ivs)| && Sorted(ivs)[i].start <= x < Sorted(ivs)[i].end;
        assert Sorted(ivs)[i] in ivs;
      }
    }
  }

  lemma GridOfSorted(ivs: seq<Interval>, cuts: seq<real>)
    requires IsGrid(cuts, ivs)
    ensures IsGrid(cuts, Sorted(ivs))
  {
    SortedSorts(ivs);
    forall i | 0 <= i < |Sorted(ivs)| ensures Sorted(ivs)[i].start in cuts && Sorted(ivs)[i].end in cuts {
      assert Sorted(ivs)[i] in ivs;
    }
  }

  method Merge(ivs: seq<Interval>) returns (merged: seq<Interval>)
    ensures merged == Merged(ivs)
  {
    merged := [];
    for i := 0 to |ivs|
      invariant merged == Merged(ivs[..i])
    {
      assert ivs[..i + 1][..i] == ivs[..i];
      var start, end := ivs[i].start, ivs[i].end;
      if end <= start {
        continue;
      }
      if merged == [] || start > merged[|merged| - 1].end {
        merged := merged + [Interval(start, end)];
      } else {
        var last := |merged| - 1;
        merged := merged[last := Interval(merged[last].start, Max(merged[last].end, end))];
      }
    }
    assert ivs[..|ivs|] == ivs;
  }

  /** intervals_occupancy computes the share of the printable height under the union of
      the clamped real boxes, whatever their order and nesting. */
  method IntervalsOccupancy(boxes: seq<TextBox>) returns (r: real)
    ensures r == Occupancy(boxes)
  {
    hide Merged, Sorted, CoveredLength, IsGrid;
    var intervals := Sorted(RealIntervals(boxes));
    GridOfIsGrid(RealIntervals(boxes));
    MeasureOfSorted(RealIntervals(boxes), GridOf(RealIntervals(boxes)));
    AtMostPrintable(boxes);
    if intervals == [] {
      NothingMerged();
      return 0.0;
    }
    var merged := Merge(intervals);
    r := Least(1.0, TotalLength(merged) / PRINTABLE_HEIGHT);
  }

  lemma NothingMerged()
    ensures TotalLength(Merged([])) == 0.0
  {}

  /** The cap at one in the source never takes effect. */
  lemma AtMostPrintable(boxes: seq<TextBox>)
    ensures 0.0 <= TotalLength(Merged(Sorted(RealIntervals(boxes)))) <= PRINTABLE_HEIGHT
  {
    var intervals := Sorted(RealIntervals(boxes));
    ClampedBounds(boxes);
    SortedSorts(RealIntervals(boxes));
    MergedIsMerge(intervals);
    var merged := Merged(intervals);
    forall i | 0 <= i < |merged| ensures PRINTABLE_BOTTOM <= merged[i].start && merged[i].end <= PRINTABLE_TOP {
      var j :| 0 <= j < |intervals| && intervals[j].start == merged[i].start;
      var k :| 0 <= k < |intervals| && intervals[k].end == merged[i].end;
      assert intervals[j] in RealIntervals(boxes) && intervals[k] in RealIntervals(boxes);
    }
    WithinBounds(merged, PRINTABLE_BOTTOM, PRINTABLE_TOP);
  }

  // --------------------------------------------------- what follows from it

  /** Every grid through the boxes' ends gives the same occupancy. */
  lemma OnAnyGrid(boxes: seq<TextBox>, cuts: seq<real>)
    requires IsGrid(cuts, RealIntervals(boxes))
    ensures Occupancy(boxes) * PRINTABLE_HEIGHT == CoveredLength(cuts, RealIntervals(boxes))
  {
    var ivs := RealIntervals(boxes);
    GridOfIsGrid(ivs);
    hide IsGrid, Merged, Sorted, CoveredLength;
    MeasureOfSorted(ivs, GridOf(ivs));
    MeasureOfSorted(ivs, cuts);
  }

  ghost predicate CoversMore(a: seq<Interval>, b: seq<Interval>) {
    forall x :: Covered(a, x) ==> Covered(b, x)
  }

  lemma MoreBoxesCoverMore(some: seq<TextBox>, more: seq<TextBox>)
    requires forall b :: b in some && b.realContent ==> b in more
    ensures CoversMore(RealIntervals(some), RealIntervals(more))
  {
    var a, b := RealIntervals(some), RealIntervals(more);
    forall x | Covered(a, x) ensures Covered(b, x) {
      var i :| 0 <= i < |a| && a[i].start <= x < a[i].end;
      var box := IntervalHasBox(some, i);
      BoxHasInterval(more, box);
      var j :| 0 <= j < |b| && b[j] == Clamped(box);
      assert b[j].start <= x < b[j].end;
    }
  }

  lemma CommonGrid(a: seq<Interval>, b: seq<Interval>) returns (cuts: seq<real>)
    ensures IsGrid(cuts, a) && IsGrid(cuts, b)
  {
    cuts := GridOf(a + b);
    GridOfIsGrid(a + b);
    assert forall i :: 0 <= i < |a| ==> (a + b)[i] == a[i];
    assert forall i :: 0 <= i < |b| ==> (a + b)[|a| + i] == b[i];
  }

  lemma OccupancyAtMostOne(boxes: seq<TextBox>)
    ensures 0.0 <= Occupancy(boxes) <= 1.0
  {
    var ivs := RealIntervals(boxes);
    GridOfIsGrid(ivs);
    hide IsGrid, Merged, Sorted, CoveredLength;
    MeasureOfSorted(ivs, GridOf(ivs));
    AtMostPrintable(boxes);
  }

  /** More boxes never make a page emptier, the order they come in does not matter, and a
      page is never more than full. */
  lemma MoreBoxesMoreOccupied(some: seq<TextBox>, more: seq<TextBox>)
    requires forall b :: b in some && b.realContent ==> b in more
    ensures 0.0 <= Occupancy(some) <= Occupancy(more) <= 1.0
  {
    var a, b := RealIntervals(some), RealIntervals(more);
    var cuts := CommonGrid(a, b);
    MoreBoxesCoverMore(some, more);
    CoveredLengthGrows(cuts, a, b);
    hide Covered, CoveredLength, IsGrid, Occupancy, CoversMore;
    OnAnyGrid(some, cuts);
    OnAnyGrid(more, cuts);
    OccupancyAtMostOne(some);
    OccupancyAtMostOne(more);
  }

  lemma {:induction false} IntervalHasBox(boxes: seq<TextBox>, i: nat) returns (box: TextBox)
    requires i < |RealIntervals(boxes)|
    ensures box in boxes && box.realContent && Clamped(box) == RealIntervals(boxes)[i]
  {
    var n := |boxes| - 1;
    if i < |RealIntervals(boxes[..n])| {
      box := IntervalHasBox(boxes[..n], i);
    } else {
      box := boxes[n];
    }
  }

  lemma {:induction false} BoxHasInterval(boxes: seq<TextBox>, box: TextBox)
    requires box in boxes && box.realContent
    ensures Clamped(box) in RealIntervals(boxes)
  {
    var n := |boxes| - 1;
    if boxes[n] != box {
      assert box in boxes[..n];
      BoxHasInterval(boxes[..n], box);
    }
  }
}
