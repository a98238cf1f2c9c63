/** The windowed list of applicants.html: which rows are painted, how tall a row is taken to be,
    and what a change of that height does to the reader's place. */
module VirtualList {
  import opened Basics

  const GAP: int := 9
  const OVERSCAN: int := 4

  datatype Basis = Narrow | Wide

  /** What the list does not decide itself: `natural` is the height each row would have by itself,
      0 for a row with no content. */
  datatype Page = Page(compact: bool, basis: Basis, clientHeight: nat, natural: seq<nat>)

  /** `rowHeight` is None before the first measurement; `space` is the height of the painted
      virtual space; rows `start` to `end` are in the document; `paints` counts the paints. */
  datatype List = List(
    rowHeight: Option<int>, basis: Option<Basis>, scrollTop: real, space: int, start: int, end: int, paints: nat)

  function Fallback(compact: bool, basis: Basis): int {
    if compact then (if basis == Narrow then 200 else 160) else if basis == Narrow then 360 else 260
  }

  function Min(compact: bool, basis: Basis): int {
    if compact then (if basis == Narrow then 150 else 130) else if basis == Narrow then 200 else 150
  }

  function Max(compact: bool, basis: Basis): int {
    if compact then (if basis == Narrow then 300 else 260) else if basis == Narrow then 460 else 340
  }

  function RowHeight(list: List, page: Page): int {
    if list.rowHeight.Some? then list.rowHeight.value else Fallback(page.compact, page.basis)
  }

  /** The distance from one row to the next. */
  function Pitch(list: List, page: Page): int { RowHeight(list, page) + GAP }

  /** A row height that was measured on a page is within the bounds of that page. */
  predicate Valid(list: List, compact: bool) {
    && (list.rowHeight.Some? ==>
          list.basis.Some? && Min(compact, list.basis.value) <= list.rowHeight.value <= Max(compact, list.basis.value))
    && list.scrollTop >= 0.0
  }

  // -------------------------------------------------------------------- painting

  function Ceil(x: real): int { -(-x).Floor }

  function Round(x: real): int { (x + 0.5).Floor }

  function AtLeast(x: int, low: int): int { if x < low then low else x }

  function AtMost(x: int, high: int): int { if x > high then high else x }

  function Total(list: List, page: Page): int { AtLeast(|page.natural| * Pitch(list, page) - GAP, 0) }

  /** The furthest the browser lets a space of this height scroll. */
  function Furthest(space: int, page: Page): real { AtLeast(space - page.clientHeight, 0) as real }

  /** The offset renderVirtual computes the window from. */
  function Offset(list: List, page: Page): real {
    if list.scrollTop > Total(list, page) as real then Furthest(Total(list, page), page) else list.scrollTop
  }

  function Start(list: List, page: Page): int
    requires Valid(list, page.compact)
  {
    AtLeast((Offset(list, page) / Pitch(list, page) as real).Floor - OVERSCAN, 0)
  }

  function End(list: List, page: Page): int
    requires Valid(list, page.compact)
  {
    AtMost(Ceil((Offset(list, page) + AtLeast(page.clientHeight, 440) as real) / Pitch(list, page) as real) + OVERSCAN,
           |page.natural|)
  }

  function Clamped(scrollTop: real, space: int, page: Page): real {
    if scrollTop > Furthest(space, page) then Furthest(space, page) else scrollTop
  }

  /** One paint; the browser then keeps the offset within the new space. */
  function Paint(list: List, page: Page): List
    requires Valid(list, page.compact)
  {
    var total := Total(list, page);
    list.(scrollTop := Clamped(Offset(list, page), total, page), space := total,
          start := Start(list, page), end := End(list, page), paints := list.paints + 1)
  }

  // ---------------------------------------------------------------------- tuning

  function Tallest(natural: seq<nat>): nat {
    if natural == [] then 0
    else
      var rest := Tallest(natural[..|natural| - 1]);
      if natural[|natural| - 1] > rest then natural[|natural| - 1] else rest
  }

  function Painted(list: List, page: Page): seq<nat> {
    if 0 <= list.start < list.end <= |page.natural| then page.natural[list.start..list.end] else []
  }

  /** The tallest painted row, within bounds; nothing when no row has content. */
  function Measure(list: List, page: Page): Option<int> {
    var tallest := Tallest(Painted(list, page));
    if tallest == 0 then None
    else Some(AtMost(AtLeast(tallest, Min(page.compact, page.basis)), Max(page.compact, page.basis)))
  }

  /** The height this measurement leads to: never below one already measured at this breakpoint. */
  function Target(list: List, page: Page, measured: int): int {
    var carried := if list.basis == Some(page.basis) && list.rowHeight.Some? then list.rowHeight.value else 0;
    AtMost(AtLeast(measured, carried), Max(page.compact, page.basis))
  }

  function Adopt(list: List, page: Page, target: int): List {
    list.(rowHeight := Some(target), basis := Some(page.basis))
  }

  /** The row at the top of the viewport, with its fraction. */
  function Anchor(list: List, page: Page): real
    requires Valid(list, page.compact)
  {
    list.scrollTop / Pitch(list, page) as real
  }

  predicate Changes(list: List, page: Page, target: int) {
    target - RowHeight(list, page) >= 2 || RowHeight(list, page) - target >= 2
  }

  /** The offset of a row at this pitch. */
  function OffsetOf(anchor: real, pitch: int): real { anchor * pitch as real }

  /** Put the anchor row back at the top, as far as the painted space allows. */
  function ScrollBack(list: List, page: Page, anchor: real): List {
    list.(scrollTop := Clamped(Round(OffsetOf(anchor, Pitch(list, page))) as real, list.space, page))
  }

  lemma ProductOrder(a: real, b: real, p: real)
    requires p > 0.0
    ensures a <= b <==> a * p <= b * p
    ensures a < b <==> a * p < b * p
  {
    if a < b {
      assert (b - a) * p > 0.0;
    } else if a > b {
      assert (a - b) * p > 0.0;
    }
  }

  lemma QuotientOrder(a: real, b: real, p: real)
    requires p > 0.0
    ensures a < b / p <==> a * p < b
    ensures a > b / p <==> a * p > b
  {
    assert (b / p) * p == b;
    ProductOrder(a, b / p, p);
    ProductOrder(b / p, a, p);
  }

  lemma TargetInBounds(list: List, page: Page)
    requires Valid(list, page.compact) && Measure(list, page).Some?
    ensures var target := Target(list, page, Measure(list, page).value);
      && Min(page.compact, page.basis) <= target <= Max(page.compact, page.basis)
      && Valid(Adopt(list, page, target), page.compact)
  {}

  lemma PaintKeeps(list: List, page: Page)
    requires Valid(list, page.compact)
    ensures Valid(Paint(list, page), page.compact)
  {}

  lemma ClampedInRange(scrollTop: real, space: int, page: Page)
    requires scrollTop >= 0.0
    ensures 0.0 <= Clamped(scrollTop, space, page) <= scrollTop
  {}

  lemma OffsetIsPositive(anchor: real, pitch: int)
    requires anchor >= 0.0 && pitch > 0
    ensures OffsetOf(anchor, pitch) >= 0.0 && Round(OffsetOf(anchor, pitch)) >= 0
  {
    assert 0.0 * pitch as real == 0.0;
    ProductOrder(0.0, anchor, pitch as real);
  }

  lemma ScrollBackKeeps(list: List, page: Page, anchor: real)
    requires Valid(list, page.compact) && anchor >= 0.0
    ensures Valid(ScrollBack(list, page, anchor), page.compact)
  {
    OffsetIsPositive(anchor, Pitch(list, page));
    hide OffsetOf, Round, Clamped;
    ClampedInRange(Round(OffsetOf(anchor, Pitch(list, page))) as real, list.space, page);
  }

  /** Tuning after a paint: adopt the height, repaint, put the reader back, repaint. */
  function Tune(list: List, page: Page): (after: List)
    requires Valid(list, page.compact)
    ensures Valid(after, page.compact)
  {
    var measured := Measure(list, page);
    if measured.None? then list
    else
      var target := Target(list, page, measured.value);
      TargetInBounds(list, page);
      var adopted := Adopt(list, page, target);
      if !Changes(list, page, target) then adopted
      else
        PaintKeeps(adopted, page);
        var repainted := Paint(adopted, page);
        var anchor := Anchor(list, page);
        if anchor == 0.0 then repainted
        else
          ScrollBackKeeps(repainted, page, anchor);
          Paint(ScrollBack(repainted, page, anchor), page)
  }

  function Render(list: List, page: Page): (after: List)
    requires Valid(list, page.compact)
    ensures Valid(after, page.compact)
  {
    PaintKeeps(list, page);
    Tune(Paint(list, page), page)
  }

  // ------------------------------------------------------------------ the window

  /** The row, without the gap below it, shows somewhere in `height` pixels from `offset`. */
  predicate Intersects(list: List, page: Page, i: int, offset: real, height: int) {
    && (i * Pitch(list, page)) as real < offset + height as real
    && (i * Pitch(list, page) + RowHeight(list, page)) as real > offset
  }

  lemma RowAboveBottom(i: int, pitch: int, bottom: real)
    requires pitch > 0 && (i * pitch) as real < bottom
    ensures i < Ceil(bottom / pitch as real)
  {
    assert (i * pitch) as real == i as real * pitch as real;
    QuotientOrder(i as real, bottom, pitch as real);
  }

  lemma RowBelowTop(i: int, pitch: int, top: real)
    requires pitch > 0 && ((i + 1) * pitch) as real > top
    ensures (top / pitch as real).Floor <= i
  {
    assert ((i + 1) * pitch) as real == (i + 1) as real * pitch as real;
    QuotientOrder((i + 1) as real, top, pitch as real);
  }

  lemma RowEnds(list: List, page: Page, i: int)
    requires Valid(list, page.compact)
    ensures (i * Pitch(list, page) + RowHeight(list, page)) as real < ((i + 1) * Pitch(list, page)) as real
  {
    assert (i + 1) * Pitch(list, page) == i * Pitch(list, page) + Pitch(list, page);
  }

  /** The window holds every row that intersects the viewport, and OVERSCAN rows on either side. */
  lemma WindowCovers(list: List, page: Page, i: nat)
    requires Valid(list, page.compact) && i < |page.natural|
    requires Intersects(list, page, i, Offset(list, page), AtLeast(page.clientHeight, 440))
    ensures Start(list, page) <= AtLeast(i - OVERSCAN, 0) <= i < AtMost(i + 1 + OVERSCAN, |page.natural|)
      <= End(list, page)
  {
    RowEnds(list, page, i);
    hide Offset, Pitch, RowHeight;
    RowBelowTop(i, Pitch(list, page), Offset(list, page));
    RowAboveBottom(i, Pitch(list, page), Offset(list, page) + AtLeast(page.clientHeight, 440) as real);
  }

  lemma FloorIsBelow(k: int, pitch: int, offset: real)
    requires pitch > 0 && k <= (offset / pitch as real).Floor
    ensures (k * pitch) as real <= offset
  {
    assert (k * pitch) as real == k as real * pitch as real;
    QuotientOrder(k as real, offset, pitch as real);
  }

  lemma StartIsAbove(list: List, page: Page)
    requires Valid(list, page.compact) && Start(list, page) > 0
    ensures ((Start(list, page) + OVERSCAN) * Pitch(list, page)) as real <= Offset(list, page)
  {
    assert Pitch(list, page) > 0;
    hide Pitch, Offset;
    FloorIsBelow(Start(list, page) + OVERSCAN, Pitch(list, page), Offset(list, page));
  }

  lemma RowOrder(i: int, j: int, pitch: int)
    requires i <= j && pitch > 0
    ensures i * pitch <= j * pitch
  {
    assert (j - i) * pitch >= 0;
  }

  /** Where the browser leaves the offset after a paint. */
  lemma ClampedOffset(list: List, page: Page)
    requires Valid(list, page.compact)
    ensures var p := Paint(list, page);
      0.0 <= p.scrollTop <= Offset(list, page) <= AtLeast(Total(list, page), 0) as real
      && (p.scrollTop == Offset(list, page) || p.scrollTop + page.clientHeight as real >= Offset(list, page))
  {}

  lemma BeforeWindow(start: int, pitch: int, rows: int, offset: real, scrollTop: real, height: int)
    requires pitch > 0 && start > 0 && height >= 0 && rows >= 0
    requires ((start + OVERSCAN) * pitch) as real <= offset <= AtLeast(rows * pitch - GAP, 0) as real
    requires scrollTop == offset || scrollTop + height as real >= offset
    ensures start - 1 < rows && ((start - 1) * pitch) as real < scrollTop + height as real
  {
    assert (start - 1) * pitch == (start + OVERSCAN) * pitch - 5 * pitch;
    if start - 1 >= rows {
      RowOrder(rows, start - 1, pitch);
    }
  }

  lemma NothingBelowWindow(list: List, page: Page, i: nat)
    requires Valid(list, page.compact) && i < |page.natural|
    requires Intersects(list, page, i, Paint(list, page).scrollTop, page.clientHeight)
    ensures i < Paint(list, page).end
  {
    ClampedOffset(list, page);
    hide Offset, Pitch, RowHeight, Total, Clamped;
    RowAboveBottom(i, Pitch(list, page), Offset(list, page) + AtLeast(page.clientHeight, 440) as real);
  }

  lemma NothingAboveWindow(list: List, page: Page, i: nat)
    requires Valid(list, page.compact) && i < Paint(list, page).start
    requires var p := Paint(list, page);
      ((p.start - 1) * Pitch(list, page) + RowHeight(list, page)) as real <= p.scrollTop
    ensures !Intersects(list, page, i, Paint(list, page).scrollTop, page.clientHeight)
  {
    assert Pitch(list, page) > 0;
    hide Paint, RowHeight, Pitch;
    RowOrder(i, Paint(list, page).start - 1, Pitch(list, page));
  }

  lemma RowBeforeWindow(list: List, page: Page)
    requires Valid(list, page.compact) && Paint(list, page).start > 0
    ensures var p := Paint(list, page);
      p.start - 1 < |page.natural|
      && (Intersects(list, page, p.start - 1, p.scrollTop, page.clientHeight)
          <==> ((p.start - 1) * Pitch(list, page) + RowHeight(list, page)) as real > p.scrollTop)
  {
    StartIsAbove(list, page);
    ClampedOffset(list, page);
    var p := Paint(list, page);
    assert p.start == Start(list, page);
    assert AtLeast(Total(list, page), 0) == AtLeast(|page.natural| * Pitch(list, page) - GAP, 0);
    hide Paint, Start, Offset, Total;
    BeforeWindow(p.start, Pitch(list, page), |page.natural|, Offset(list, page), p.scrollTop, page.clientHeight);
  }

  /** The offset, and how far the window it gives may begin, on the inputs of a paint. */
  predicate WindowReaches(list: List, page: Page)
    requires Valid(list, page.compact)
  {
    var room := Furthest(Total(list, page), page);
    var top := (list.scrollTop / Pitch(list, page) as real).Floor;
    || list.scrollTop <= room || list.scrollTop > Total(list, page) as real || top <= OVERSCAN
    || ((top - OVERSCAN - 1) * Pitch(list, page) + RowHeight(list, page)) as real <= room
  }

  /** Where the window begins and where the browser leaves the offset. */
  lemma WindowReachesExactly(list: List, page: Page)
    requires Valid(list, page.compact)
    ensures var p := Paint(list, page);
      WindowReaches(list, page)
      <==> p.start == 0 || ((p.start - 1) * Pitch(list, page) + RowHeight(list, page)) as real <= p.scrollTop
  {
    var room := Furthest(Total(list, page), page);
    if room < list.scrollTop <= Total(list, page) as real {
      hide RowHeight, Pitch, Total, Furthest;
    } else {
      assert Paint(list, page).scrollTop == Offset(list, page);
      if Start(list, page) > 0 {
        StartIsAbove(list, page);
        var start := Start(list, page);
        assert Pitch(list, page) == RowHeight(list, page) + GAP;
        hide RowHeight, Pitch, Offset, Start;
        RowOrder(start, start + OVERSCAN, Pitch(list, page));
        assert (start - 1) * Pitch(list, page) == start * Pitch(list, page) - Pitch(list, page);
      }
    }
  }

  /** The painted window after the browser has pulled the offset back into a shorter space: every
      row in the viewport is in the document exactly when the offset was inside the new space, or
      past its end and so put back, or the window reaches far enough above it. */
  lemma PaintedWindowCovers(list: List, page: Page)
    requires Valid(list, page.compact)
    ensures var p := Paint(list, page);
      (forall i :: 0 <= i < |page.natural| && Intersects(list, page, i, p.scrollTop, page.clientHeight)
        ==> p.start <= i < p.end)
      <==> WindowReaches(list, page)
  {
    WindowReachesExactly(list, page);
    var p := Paint(list, page);
    assert p.start >= 0;
    hide Paint, Intersects, Pitch, RowHeight, WindowReaches;
    forall i | 0 <= i < |page.natural| && Intersects(list, page, i, p.scrollTop, page.clientHeight) ensures i < p.end {
      NothingBelowWindow(list, page, i);
    }
    if p.start > 0 {
      RowBeforeWindow(list, page);
      if ((p.start - 1) * Pitch(list, page) + RowHeight(list, page)) as real <= p.scrollTop {
        forall i | 0 <= i < p.start ensures !Intersects(list, page, i, p.scrollTop, page.clientHeight) {
          NothingAboveWindow(list, page, i);
        }
      }
    }
  }

  /** The condition can fail: a reader half way down a painted list of forty rows, in a tall
      viewport, when twenty of the rows go.  The browser pulls the offset back, and row 14 is in
      view but not in the document. */
  lemma WindowCanMissRow()
    ensures var forty, twenty := Page(true, Wide, 1000, seq(40, _ => 130)), Page(true, Wide, 1000, seq(20, _ => 130));
      var list := List(Some(130), Some(Wide), 2771.0, 5551, 15, 32, 1);
      && Valid(list, true) && Render(list, forty) == list.(paints := 2)
      && var after := Render(list, twenty);
         Intersects(after, twenty, 14, after.scrollTop, twenty.clientHeight) && 14 < after.start
  {
    var forty, twenty := Page(true, Wide, 1000, seq(40, _ => 130)), Page(true, Wide, 1000, seq(20, _ => 130));
    var list := List(Some(130), Some(Wide), 2771.0, 5551, 15, 32, 1);
    assert Total(list, forty) == 5551 && Offset(list, forty) == 2771.0;
    assert Total(list, twenty) == 2771 && Offset(list, twenty) == 2771.0;
    QuotientOrder(19.0, 2771.0, 139.0);
    QuotientOrder(20.0, 2771.0, 139.0);
    QuotientOrder(27.0, 3771.0, 139.0);
    QuotientOrder(28.0, 3771.0, 139.0);
    assert Start(list, forty) == Start(list, twenty) == 15 && End(list, forty) == 32 && End(list, twenty) == 20;
    EvenRows(Paint(list, forty), forty, 130);
    EvenRows(Paint(list, twenty), twenty, 130);
  }

  /** Painted rows that are all as tall as the list takes them to be change nothing. */
  lemma EvenRows(list: List, page: Page, height: int)
    requires Valid(list, page.compact) && list.rowHeight == Some(height) && list.basis == Some(page.basis)
    requires 0 <= list.start < list.end <= |page.natural|
      && forall i :: 0 <= i < |page.natural| ==> page.natural[i] == height
    ensures Tune(list, page) == list
  {
    var rows := Painted(list, page);
    assert rows == page.natural[list.start..list.end];
    TallestOfOne(rows, height);
    assert Measure(list, page) == Some(height) && Target(list, page, height) == height && !Changes(list, page, height);
    assert Adopt(list, page, height) == list;
  }

  // ------------------------------------------------------------------ the height

  /** What one rendering may do to the height a list takes its rows to have. */
  lemma HeightOnlyGrows(list: List, page: Page)
    requires Valid(list, page.compact)
    ensures var after := Render(list, page);
      && (after.rowHeight.Some? && after.basis == Some(page.basis) ==>
            Min(page.compact, page.basis) <= after.rowHeight.value <= Max(page.compact, page.basis))
      && (list.rowHeight.Some? && list.basis == Some(page.basis) ==>
            after.basis == list.basis && after.rowHeight.Some? && after.rowHeight.value >= list.rowHeight.value)
  {
    PaintKeeps(list, page);
  }

  /** It takes the painted rows at their word, within the bounds: no painted row is taller than the
      height adopted, unless the height is the bound. */
  lemma HeightFitsPainted(list: List, page: Page, i: int)
    requires Valid(list, page.compact)
    requires var p := Paint(list, page); p.start <= i < p.end && page.natural[i] > 0
    ensures var after := Render(list, page);
      after.rowHeight.Some? && after.basis == Some(page.basis)
      && (page.natural[i] <= after.rowHeight.value || after.rowHeight.value == Max(page.compact, page.basis))
  {
    var p := Paint(list, page);
    PaintKeeps(list, page);
    assert 0 <= p.start < p.end <= |page.natural|;
    assert Painted(p, page)[i - p.start] == page.natural[i];
    TallestBounds(Painted(p, page), i - p.start);
  }

  lemma {:induction false} TallestBounds(natural: seq<nat>, i: nat)
    requires i < |natural|
    ensures natural[i] <= Tallest(natural)
  {
    if i < |natural| - 1 {
      TallestBounds(natural[..|natural| - 1], i);
    }
  }

  /** A rendering paints once, twice or three times: again only when the height moved by two pixels
      or more, and a third time only when the list was scrolled. */
  lemma PaintsAtMostThrice(list: List, page: Page)
    requires Valid(list, page.compact)
    ensures var p := Paint(list, page); var after := Render(list, page);
      && list.paints + 1 <= after.paints <= list.paints + 3
      && (after.paints > list.paints + 1 <==>
        Measure(p, page).Some? && Changes(p, page, Target(p, page, Measure(p, page).value)))
      && (after.paints == list.paints + 3 ==> Anchor(p, page) > 0.0)
  {
    var p := Paint(list, page);
    PaintKeeps(list, page);
    assert Anchor(p, page) >= 0.0;
    if Measure(p, page).Some? {
      var adopted := Adopt(p, page, Target(p, page, Measure(p, page).value));
      TargetInBounds(p, page);
      PaintKeeps(adopted, page);
      hide Offset, Total, Clamped, Measure, Target, Changes, Anchor, Valid;
    }
  }

  // -------------------------------------------------------------- the reader's row

  function Abs(x: real): real { if x < 0.0 then -x else x }

  /** The furthest offset once the list is as long as the new height makes it. */
  function Room(list: List, page: Page, target: int): real {
    Furthest(Total(Adopt(list, page, target), page), page)
  }

  lemma RoundsToHalf(x: real)
    ensures Abs(Round(x) as real - x) <= 0.5
  {}

  /** Painting a space of the height it already has leaves an offset inside it alone. */
  lemma PaintAgain(list: List, page: Page, scrollTop: real)
    requires Valid(list, page.compact) && scrollTop >= 0.0 && list.space == Total(list, page)
    requires Valid(list.(scrollTop := Clamped(scrollTop, list.space, page)), page.compact)
    ensures Paint(list.(scrollTop := Clamped(scrollTop, list.space, page)), page).scrollTop
      == Clamped(scrollTop, list.space, page)
  {}

  lemma TuneScrolled(list: List, page: Page, target: int)
    requires Valid(list, page.compact) && Measure(list, page).Some?
      && target == Target(list, page, Measure(list, page).value)
    requires Changes(list, page, target) && Anchor(list, page) > 0.0
    ensures Valid(Adopt(list, page, target), page.compact)
    ensures var repainted := Paint(Adopt(list, page, target), page);
      && Valid(ScrollBack(repainted, page, Anchor(list, page)), page.compact)
      && Tune(list, page) == Paint(ScrollBack(repainted, page, Anchor(list, page)), page)
  {
    TargetInBounds(list, page);
    var adopted := Adopt(list, page, target);
    PaintKeeps(adopted, page);
    ScrollBackKeeps(Paint(adopted, page), page, Anchor(list, page));
    hide Measure, Target, Changes, Paint, ScrollBack, Valid, Anchor;
  }

  /** After a change of height the row at the top of the viewport is the same, to half a pixel,
      unless the list now ends too soon to scroll that far. */
  lemma TunedOffset(list: List, page: Page)
    requires Valid(list, page.compact) && Measure(list, page).Some?
    requires Changes(list, page, Target(list, page, Measure(list, page).value)) && Anchor(list, page) > 0.0
    ensures var target := Target(list, page, Measure(list, page).value);
      var asked := OffsetOf(Anchor(list, page), target + GAP);
      && Tune(list, page).scrollTop == Clamped(Round(asked) as real, Total(Adopt(list, page, target), page), page)
      && Abs(Round(asked) as real - asked) <= 0.5
  {
    var target := Target(list, page, Measure(list, page).value);
    var adopted := Adopt(list, page, target);
    var asked := OffsetOf(Anchor(list, page), target + GAP);
    TuneScrolled(list, page, target);
    PaintKeeps(adopted, page);
    var repainted := Paint(adopted, page);
    assert repainted.space == Total(repainted, page) == Total(adopted, page);
    assert Pitch(repainted, page) == target + GAP > 0;
    OffsetIsPositive(Anchor(list, page), target + GAP);
    RoundsToHalf(asked);
    hide Measure, Target, Changes, Paint, Valid, Anchor, Tune, Total, Pitch, RowHeight, Clamped, Round, OffsetOf;
    PaintAgain(repainted, page, Round(asked) as real);
  }

  lemma AnchorTimesPitch(list: List, page: Page)
    requires Valid(list, page.compact)
    ensures Anchor(list, page) * Pitch(list, page) as real == list.scrollTop
    ensures Anchor(list, page) >= 0.0
  {}

  lemma SmallDrift(anchor: real, step: int)
    requires anchor >= 0.0 && -1 <= step <= 1
    ensures Abs(OffsetOf(anchor, step)) <= 0.5 <==> step == 0 || anchor <= 0.5
  {}

  lemma TuneAdopts(list: List, page: Page)
    requires Valid(list, page.compact) && Measure(list, page).Some?
    ensures Pitch(Tune(list, page), page) == Target(list, page, Measure(list, page).value) + GAP
  {}

  /** How far, in pixels, tuning moves the row that was at the top of the viewport. */
  function Drift(list: List, page: Page): real
    requires Valid(list, page.compact)
  {
    (Anchor(Tune(list, page), page) - Anchor(list, page)) * Pitch(Tune(list, page), page) as real
  }

  lemma Distributes(a: real, b: real, p: real)
    ensures (a - b) * p == a * p - b * p
  {}

  lemma DriftIsOffset(list: List, page: Page)
    requires Valid(list, page.compact)
    ensures Drift(list, page) == Tune(list, page).scrollTop
      - OffsetOf(Anchor(list, page), Pitch(Tune(list, page), page))
  {
    hide Tune, Anchor, Pitch, Valid;
    var after := Tune(list, page);
    AnchorTimesPitch(after, page);
    Distributes(Anchor(after, page), Anchor(list, page), Pitch(after, page) as real);
  }

  lemma SmallChangeStays(list: List, page: Page)
    requires Valid(list, page.compact) && Measure(list, page).Some?
    requires !Changes(list, page, Target(list, page, Measure(list, page).value))
    ensures Tune(list, page).scrollTop == list.scrollTop
  {
    hide Measure, Target, Changes;
    var target := Target(list, page, Measure(list, page).value);
    var adopted := list.(rowHeight := Some(target), basis := Some(page.basis));
    assert adopted == Adopt(list, page, target) && adopted.scrollTop == list.scrollTop;
    assert Tune(list, page) == adopted;
  }

  /** A change of one pixel, or of none, leaves the offset and so moves the row at the top. */
  lemma DriftAfterSmallChange(list: List, page: Page)
    requires Valid(list, page.compact) && Measure(list, page).Some?
    requires !Changes(list, page, Target(list, page, Measure(list, page).value))
    ensures Drift(list, page)
         == OffsetOf(Anchor(list, page), RowHeight(list, page) - Target(list, page, Measure(list, page).value))
  {
    hide Measure, Target, Changes, Anchor, Tune, Drift, OffsetOf, Valid;
    SmallChangeStays(list, page);
    TuneAdopts(list, page);
    DriftIsOffset(list, page);
    AnchorOffset(list, page);
    ScaledDifference(Anchor(list, page), RowHeight(list, page), Target(list, page, Measure(list, page).value));
  }

  lemma AnchorOffset(list: List, page: Page)
    requires Valid(list, page.compact)
    ensures OffsetOf(Anchor(list, page), RowHeight(list, page) + GAP) == list.scrollTop
  {
    AnchorTimesPitch(list, page);
  }

  lemma ScaledDifference(anchor: real, height: int, target: int)
    ensures OffsetOf(anchor, height + GAP) - OffsetOf(anchor, target + GAP) == OffsetOf(anchor, height - target)
  {
    Distributes((height + GAP) as real, (target + GAP) as real, anchor);
  }

  lemma DriftAfterChange(list: List, page: Page)
    requires Valid(list, page.compact) && Measure(list, page).Some?
    requires var target := Target(list, page, Measure(list, page).value);
      && Changes(list, page, target)
      && Round(OffsetOf(Anchor(list, page), target + GAP)) as real <= Room(list, page, target)
    ensures Abs(Drift(list, page)) <= 0.5
  {
    TuneAdopts(list, page);
    DriftIsOffset(list, page);
    AnchorTimesPitch(list, page);
    if Anchor(list, page) > 0.0 {
      TunedOffset(list, page);
      hide Measure, Target, Changes, Anchor, Tune, Drift, OffsetOf, Pitch, Round, Total;
    } else {
      hide Drift;
      TopStaysTop(list, page);
    }
  }

  lemma TopStaysTop(list: List, page: Page)
    requires Valid(list, page.compact) && Anchor(list, page) == 0.0
    ensures Tune(list, page).scrollTop == 0.0
  {
    AnchorTimesPitch(list, page);
    hide Measure, Target, Changes, Pitch, Start, End;
  }

  /** The reader's row moves by at most half a pixel exactly when the height moved by two pixels
      or more, by none, or the list stood at its top: a change of one pixel is adopted without
      putting the reader back. */
  lemma ReaderStaysExactly(list: List, page: Page)
    requires Valid(list, page.compact) && Measure(list, page).Some?
    requires var target := Target(list, page, Measure(list, page).value);
      Round(OffsetOf(Anchor(list, page), target + GAP)) as real <= Room(list, page, target)
    ensures var target := Target(list, page, Measure(list, page).value);
      Abs(Drift(list, page)) <= 0.5 <==>
        Changes(list, page, target) || target == RowHeight(list, page) || Anchor(list, page) <= 0.5
  {
    var target := Target(list, page, Measure(list, page).value);
    AnchorTimesPitch(list, page);
    if Changes(list, page, target) {
      hide Drift;
      DriftAfterChange(list, page);
    } else {
      var step := RowHeight(list, page) - target;
      SmallDrift(Anchor(list, page), step);
      hide Drift, Measure, Target, Tune, Anchor, Pitch, Abs;
      DriftAfterSmallChange(list, page);
    }
  }

  /** A reader ten rows down a list of a hundred, whose rows turn out one pixel taller than they
      were taken to be: the row at the top moves by ten pixels. */
  lemma OnePixelDrifts()
    ensures var page := Page(true, Wide, 500, seq(100, _ => 131));
      var list := List(Some(130), Some(Wide), 1390.0, 13891, 6, 18, 1);
      && Valid(list, true) && Paint(list, page) == list.(paints := 2)
      && Anchor(list, page) == 10.0 && Measure(list, page) == Some(131) && Drift(list, page) == -10.0
      && 1400.0 <= Room(list, page, 131)
  {
    var page := Page(true, Wide, 500, seq(100, _ => 131));
    var list := List(Some(130), Some(Wide), 1390.0, 13891, 6, 18, 1);
    PaintedThere(list, page);
    var painted := Painted(list, page);
    assert painted == page.natural[6..18];
    TallestOfOne(painted, 131);
    assert Measure(list, page) == Some(131) && Target(list, page, 131) == 131 && !Changes(list, page, 131);
    AnchorIsTen(list, page);
    hide Drift, Tune;
    DriftAfterSmallChange(list, page);
  }

  lemma PaintedThere(list: List, page: Page)
    requires page == Page(true, Wide, 500, seq(100, _ => 131))
    requires list == List(Some(130), Some(Wide), 1390.0, 13891, 6, 18, 1)
    ensures Valid(list, true) && Paint(list, page) == list.(paints := 2)
  {
    assert Total(list, page) == 13891 && Offset(list, page) == 1390.0;
    assert 1390.0 / 139.0 == 10.0;
    QuotientOrder(13.0, 1890.0, 139.0);
    QuotientOrder(14.0, 1890.0, 139.0);
    assert Start(list, page) == 6 && End(list, page) == 18;
  }

  lemma AnchorIsTen(list: List, page: Page)
    requires Valid(list, page.compact) && list.scrollTop == 1390.0 && list.rowHeight == Some(130)
    ensures Anchor(list, page) == 10.0
  {}

  lemma {:induction false} TallestOfOne(natural: seq<nat>, height: nat)
    requires natural != [] && forall i :: 0 <= i < |natural| ==> natural[i] == height
    ensures Tallest(natural) == height
  {
    if |natural| > 1 {
      TallestOfOne(natural[..|natural| - 1], height);
    }
  }

  // ------------------------------------------------------------- a reading session

  /** One rendering of the session: where the reader has scrolled to, and the page then. */
  datatype Visit = Visit(page: Page, scrollTop: real)

  /** One population at one breakpoint. */
  predicate Steady(visits: seq<Visit>, compact: bool, basis: Basis) {
    forall v :: v in visits ==> v.page.compact == compact && v.page.basis == basis && v.scrollTop >= 0.0
  }

  function Visited(list: List, visits: seq<Visit>, compact: bool, basis: Basis): (after: List)
    requires Steady(visits, compact, basis) && Valid(list, compact)
    ensures Valid(after, compact)
  {
    if visits == [] then list
    else
      var n := |visits| - 1;
      SteadyFront(visits, compact, basis);
      Render(Visited(list, visits[..n], compact, basis).(scrollTop := visits[n].scrollTop), visits[n].page)
  }

  lemma SteadyFront(visits: seq<Visit>, compact: bool, basis: Basis)
    requires Steady(visits, compact, basis) && visits != []
    ensures Steady(visits[..|visits| - 1], compact, basis)
    ensures var v := visits[|visits| - 1]; v.page.compact == compact && v.page.basis == basis && v.scrollTop >= 0.0
  {}

  /** The number of renderings of the session that had to paint again. */
  function Repaints(list: List, visits: seq<Visit>, compact: bool, basis: Basis): nat
    requires Steady(visits, compact, basis) && Valid(list, compact)
  {
    if visits == [] then 0
    else
      var n := |visits| - 1;
      SteadyFront(visits, compact, basis);
      var before := Visited(list, visits[..n], compact, basis);
      Repaints(list, visits[..n], compact, basis)
      + if Visited(list, visits, compact, basis).paints > before.paints + 1 then 1 else 0
  }

  predicate Measured(list: List, basis: Basis) { list.rowHeight.Some? && list.basis == Some(basis) }

  lemma RepaintGrows(list: List, page: Page)
    requires Valid(list, page.compact)
    ensures var after := Render(list, page);
      && (Measured(list, page.basis) ==> Measured(after, page.basis) && after.rowHeight.value >= list.rowHeight.value)
      && (after.paints > list.paints + 1 ==> Measured(after, page.basis))
      && (after.paints > list.paints + 1 && Measured(list, page.basis)
        ==> after.rowHeight.value >= list.rowHeight.value + 2)
      && (Measured(after, page.basis) ==> after.rowHeight.value <= Max(page.compact, page.basis))
  {
    PaintsAtMostThrice(list, page);
    HeightOnlyGrows(list, page);
    PaintKeeps(list, page);
    TuneTakes(Paint(list, page), page);
    hide Tune, Paint, Measure;
  }

  lemma PaintHeight(list: List, page: Page)
    requires Valid(list, page.compact)
    ensures Paint(list, page).rowHeight == list.rowHeight
  {}

  lemma TuneTakes(list: List, page: Page)
    requires Valid(list, page.compact)
    ensures Measure(list, page).Some? ==>
      Measured(Tune(list, page), page.basis)
        && Tune(list, page).rowHeight == Some(Target(list, page, Measure(list, page).value))
  {}

  /** The bound on tuning, from whatever a list knew before, nothing or a height of the other
      breakpoint included: within one population at one breakpoint, it paints again once for the
      first measurement, if at all, and after that at most once for every two pixels that its
      height can still grow. */
  lemma {:induction false} TuningStops(list: List, visits: seq<Visit>, compact: bool, basis: Basis)
    requires Steady(visits, compact, basis) && Valid(list, compact)
    ensures var n, after := Repaints(list, visits, compact, basis), Visited(list, visits, compact, basis);
      && (!Measured(after, basis) ==> n == 0)
      && (Measured(after, basis) ==> Min(compact, basis) + 2 * (n - 1) <= after.rowHeight.value <= Max(compact, basis))
      && (Measured(list, basis) ==>
            Measured(after, basis) && list.rowHeight.value + 2 * n <= after.rowHeight.value <= Max(compact, basis))
  {
    if visits != [] {
      var n := |visits| - 1;
      SteadyFront(visits, compact, basis);
      TuningStops(list, visits[..n], compact, basis);
      var before := Visited(list, visits[..n], compact, basis);
      MeasuredInBounds(before, compact, basis);
      MeasuredInBounds(Visited(list, visits, compact, basis), compact, basis);
      hide Render, Min, Max, Valid, Steady;
      RepaintGrows(before.(scrollTop := visits[n].scrollTop), visits[n].page);
    }
  }

  lemma MeasuredInBounds(list: List, compact: bool, basis: Basis)
    requires Valid(list, compact)
    ensures Measured(list, basis) ==> Min(compact, basis) <= list.rowHeight.value <= Max(compact, basis)
  {}

  /** So a fresh population is painted again no more often than this, however it is scrolled. */
  lemma FreshPopulationSettles(list: List, visits: seq<Visit>, compact: bool, basis: Basis)
    requires Steady(visits, compact, basis) && Valid(list, compact)
    ensures 2 * Repaints(list, visits, compact, basis) <= Max(compact, basis) - Min(compact, basis) + 2
  {
    hide Repaints, Visited, Valid, Steady;
    TuningStops(list, visits, compact, basis);
  }

  // ---------------------------------------------------------------- the list itself

  /** The element and the fields the code hangs on it. `natural` and the viewport are the page's. */
  class Scroller {
    var rowHeight: Option<int>
    var basis: Option<Basis>
    var scrollTop: real
    var space: int
    var start: int
    var end: int
    var paints: nat
    var tuning: bool
    var page: Page

    constructor (page: Page)
      ensures Value().rowHeight == None && !tuning && Valid(Value(), page.compact) && this.page == page
    {
      rowHeight, basis, scrollTop, space, start, end, paints := None, None, 0.0, 0, 0, 0, 0;
      tuning, this.page := false, page;
    }

    ghost function Value(): List
      reads this
    {
      List(rowHeight, basis, scrollTop, space, start, end, paints)
    }

    /** A new filter is a new population: measured from scratch, read from the top. */
    method Reset()
      requires Valid(Value(), page.compact)
      modifies `scrollTop, `rowHeight
      ensures Value() == old(Value()).(scrollTop := 0.0, rowHeight := None) && Valid(Value(), page.compact)
    {
      scrollTop := 0.0;
      rowHeight := None;
    }

    method MeasureVirtualRowHeight() returns (measured: Option<int>)
      ensures measured == Measure(Value(), page)
    {
      var rows := Painted(List(rowHeight, basis, scrollTop, space, start, end, paints), page);
      var tallest := 0;
      for i := 0 to |rows|
        invariant tallest == Tallest(rows[..i])
      {
        assert rows[..i + 1][..i] == rows[..i];
        if rows[i] > tallest {
          tallest := rows[i];
        }
      }
      assert rows[..|rows|] == rows;
      if tallest == 0 {
        return None;
      }
      return Some(AtMost(AtLeast(tallest, Min(page.compact, page.basis)), Max(page.compact, page.basis)));
    }

    method SetScrollTop(offset: real)
      modifies `scrollTop
      ensures Value() == old(Value()).(scrollTop := Clamped(offset, space, page))
    {
      scrollTop := Clamped(offset, space, page);
    }

    /** One paint, and then, unless it is part of a tuning already, the tuning. */
    method RenderVirtual()
      requires Valid(Value(), page.compact)
      modifies `rowHeight, `basis, `scrollTop, `space, `start, `end, `paints, `tuning
      ensures tuning == old(tuning)
      ensures Value() == if tuning then Paint(old(Value()), page) else Render(old(Value()), page)
      decreases !tuning, 1
    {
      var pitch := (if rowHeight.Some? then rowHeight.value else Fallback(page.compact, page.basis)) + GAP;
      var total := AtLeast(|page.natural| * pitch - GAP, 0);
      if scrollTop > total as real {
        scrollTop := AtLeast(total - page.clientHeight, 0) as real;
      }
      var visible := AtLeast(page.clientHeight, 440);
      start := AtLeast((scrollTop / pitch as real).Floor - OVERSCAN, 0);
      end := AtMost(Ceil((scrollTop + visible as real) / pitch as real) + OVERSCAN, |page.natural|);
      space := total;
      scrollTop := Clamped(scrollTop, space, page);
      paints := paints + 1;
      assert Value() == Paint(old(Value()), page);
      PaintKeeps(old(Value()), page);
      TuneVirtualRowHeight();
    }

    /** The repaint at the new height, and the one that puts the reader back. */
    method RepaintAt(target: int, anchor: real)
      requires Valid(Value(), page.compact) && !tuning && rowHeight == Some(target) && anchor >= 0.0
      modifies `rowHeight, `basis, `scrollTop, `space, `start, `end, `paints, `tuning
      ensures tuning == old(tuning)
      ensures var repainted := Paint(old(Value()), page);
        Value() == if anchor == 0.0 then repainted
                   else (PaintKeeps(old(Value()), page); ScrollBackKeeps(repainted, page, anchor);
                         Paint(ScrollBack(repainted, page, anchor), page))
      decreases false, 2
    {
      hide Paint, Round, OffsetOf, Clamped, Render, Valid;
      tuning := true;
      PaintKeeps(Value(), page);
      RenderVirtual();
      PaintHeight(old(Value()), page);
      if anchor > 0.0 {
        ScrollBackKeeps(Value(), page, anchor);
        SetScrollTop(Round(OffsetOf(anchor, target + GAP)) as real);
        RenderVirtual();
      }
      tuning := false;
    }

    method TuneVirtualRowHeight()
      requires Valid(Value(), page.compact)
      modifies `rowHeight, `basis, `scrollTop, `space, `start, `end, `paints, `tuning
      ensures tuning == old(tuning)
      ensures Value() == if tuning then old(Value()) else Tune(old(Value()), page)
      decreases !tuning, 0
    {
      if tuning {
        return;
      }
      var measured := MeasureVirtualRowHeight();
      if measured.None? {
        return;
      }
      var carried := if basis == Some(page.basis) && rowHeight.Some? then rowHeight.value else 0;
      var previous := if rowHeight.Some? then rowHeight.value else Fallback(page.compact, page.basis);
      var target := AtMost(AtLeast(measured.value, carried), Max(page.compact, page.basis));
      var changed := target - previous >= 2 || previous - target >= 2;
      var anchor := scrollTop / (previous + GAP) as real;
      TargetInBounds(Value(), page);
      assert changed == Changes(Value(), page, target) && anchor == Anchor(Value(), page);
      assert target == Target(Value(), page, measured.value);
      basis := Some(page.basis);
      rowHeight := Some(target);
      assert Value() == Adopt(old(Value()), page, target);
      hide Measure, Target, Changes, Anchor;
      if changed {
        RepaintAt(target, anchor);
      }
    }
  }
}
