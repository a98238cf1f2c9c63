/** The geometry preflight over finished pages (resume-renderer-v2/app.py, 1110-1138). */
module Preflight {
  import opened Text
  import opened Resume
  import opened Column
  import opened Geometry
  import opened Layout
  import opened Content
  import opened Occupancy

  type Boxes = seq<TextBox>

  datatype Report = Report(occupancies: seq<real>, hasClipping: bool, hasOverlap: bool, contentBoxCount: nat)

  function Real(boxes: Boxes): Boxes {
    if boxes == [] then []
    else Real(boxes[..|boxes| - 1]) + (if boxes[|boxes| - 1].realContent then [boxes[|boxes| - 1]] else [])
  }

  function Count(pages: seq<Boxes>): nat {
    if pages == [] then 0 else Count(pages[..|pages| - 1]) + |Real(pages[|pages| - 1])|
  }

  /** Two real boxes of the page, in drawing order, overlap. */
  ghost predicate Overlapping(boxes: Boxes) {
    exists i, j :: 0 <= i < j < |boxes| && boxes[i].realContent && boxes[j].realContent
      && BoxesOverlap(boxes[i], boxes[j])
  }

  ghost predicate Clipping(boxes: Boxes) {
    exists b :: b in boxes && b.realContent && Clipped(b)
  }

  /** round(x, 4): to the nearest ten-thousandth, ties to the even one. */
  function Round4(x: real): real {
    var scaled := x * 10000.0;
    var below := scaled.Floor;
    var rest := scaled - below as real;
    var nearest := if rest < 0.5 || (rest == 0.5 && below % 2 == 0) then below else below + 1;
    nearest as real / 10000.0
  }

  // -------------------------------------------------- filtering real boxes

  lemma {:induction false} RealIndex(boxes: Boxes, i: nat) returns (k: nat)
    requires i < |Real(boxes)|
    ensures k < |boxes| && boxes[k] == Real(boxes)[i] && boxes[k].realContent && i == |Real(boxes[..k])|
  {
    var n := |boxes| - 1;
    var prefix := boxes[..n];
    if i < |Real(prefix)| {
      k := RealIndex(prefix, i);
      assert prefix[..k] == boxes[..k];
    } else {
      k := n;
    }
  }

  lemma {:induction false} RealGrows(boxes: Boxes, i: nat, j: nat)
    requires i <= j <= |boxes|
    ensures |Real(boxes[..i])| <= |Real(boxes[..j])|
  {
    if i < j {
      RealGrows(boxes, i, j - 1);
      assert boxes[..j][..j - 1] == boxes[..j - 1];
    }
  }

  lemma RealAhead(boxes: Boxes, i: nat, j: nat)
    requires i < j <= |boxes| && boxes[i].realContent
    ensures |Real(boxes[..i])| < |Real(boxes[..j])|
  {
    RealGrows(boxes, i + 1, j);
    assert boxes[..i + 1][..i] == boxes[..i];
  }

  lemma {:induction false} RealPosition(boxes: Boxes, k: nat)
    requires k < |boxes| && boxes[k].realContent
    ensures |Real(boxes[..k])| < |Real(boxes)| && Real(boxes)[|Real(boxes[..k])|] == boxes[k]
  {
    var n := |boxes| - 1;
    if k < n {
      RealPosition(boxes[..n], k);
      assert boxes[..n][..k] == boxes[..k];
    }
  }

  /** Looking at the filtered list finds the same overlaps. */
  lemma OverlappingReal(boxes: Boxes)
    ensures Overlapping(boxes) <==> exists i, j ::
      0 <= i < j < |Real(boxes)| && BoxesOverlap(Real(boxes)[i], Real(boxes)[j])
  {
    hide BoxesOverlap, Real;
    var kept := Real(boxes);
    if Overlapping(boxes) {
      var i, j :| 0 <= i < j < |boxes| && boxes[i].realContent && boxes[j].realContent
        && BoxesOverlap(boxes[i], boxes[j]);
      RealPosition(boxes, i);
      RealPosition(boxes, j);
      RealAhead(boxes, i, j);
      var p, q := |Real(boxes[..i])|, |Real(boxes[..j])|;
      assert 0 <= p < q < |kept| && BoxesOverlap(kept[p], kept[q]);
    }
    if i, j :| 0 <= i < j < |kept| && BoxesOverlap(kept[i], kept[j]) {
      var k := RealIndex(boxes, i);
      var l := RealIndex(boxes, j);
      if l <= k {
        RealGrows(boxes, l, k);
      }
      assert BoxesOverlap(boxes[k], boxes[l]);
    }
  }

  lemma {:induction false} ClippingReal(boxes: Boxes)
    ensures Clipping(boxes) <==> exists b :: b in Real(boxes) && Clipped(b)
  {
    hide Clipped;
    forall b | b in Real(boxes) ensures b in boxes && b.realContent {
      var i :| 0 <= i < |Real(boxes)| && Real(boxes)[i] == b;
      var k := RealIndex(boxes, i);
    }
    forall b | b in boxes && b.realContent ensures b in Real(boxes) {
      var k :| 0 <= k < |boxes| && boxes[k] == b;
      RealPosition(boxes, k);
    }
  }

  // ---------------------------------------------------------------- the scan

  /** The two nested loops over the real boxes of a page, left at the first overlap. */
  method FindOverlap(kept: Boxes) returns (overlap: bool)
    ensures overlap <==> exists i, j :: 0 <= i < j < |kept| && BoxesOverlap(kept[i], kept[j])
  {
    hide BoxesOverlap;
    overlap := false;
    for index := 0 to |kept|
      invariant !overlap
      invariant forall i, j :: 0 <= i < j < |kept| && i < index ==> !BoxesOverlap(kept[i], kept[j])
    {
      if exists j :: index < j < |kept| && BoxesOverlap(kept[index], kept[j]) {
        overlap := true;
        break;
      }
    }
  }

  method GeometryPreflight(pages: seq<Boxes>) returns (report: Report)
    ensures report.hasClipping <==> exists p :: 0 <= p < |pages| && Clipping(pages[p])
    ensures report.hasOverlap <==> exists p :: 0 <= p < |pages| && Overlapping(pages[p])
    ensures report.contentBoxCount == Count(pages)
    ensures |report.occupancies| == |pages|
    ensures forall p :: 0 <= p < |pages| ==> report.occupancies[p] == Round4(Occupancy.Occupancy(pages[p]))
  {
    hide Clipping, Overlapping, Real, Occupancy.Occupancy, Round4, BoxesOverlap, Clipped;
    var clipping, overlap, count := false, false, 0;
    var occupancies := [];
    for p := 0 to |pages|
      invariant clipping <==> exists q :: 0 <= q < p && Clipping(pages[q])
      invariant overlap <==> exists q :: 0 <= q < p && Overlapping(pages[q])
      invariant count == Count(pages[..p])
      invariant |occupancies| == p
      invariant forall q :: 0 <= q < p ==> occupancies[q] == Round4(Occupancy.Occupancy(pages[q]))
    {
      assert pages[..p + 1][..p] == pages[..p];
      var kept := Real(pages[p]);
      count := count + |kept|;
      ClippingReal(pages[p]);
      clipping := clipping || exists b :: b in kept && Clipped(b);
      OverlappingReal(pages[p]);
      var here := FindOverlap(kept);
      overlap := overlap || here;
      var share := IntervalsOccupancy(pages[p]);
      occupancies := occupancies + [Round4(share)];
    }
    assert pages[..|pages|] == pages;
    report := Report(occupancies, clipping, overlap, count);
  }

  // -------------------------------------------------------- what it can find

  /** Column content alone never makes the preflight report clipping or overlap: every
      clipped box and at least one of any two overlapping boxes belong to the page header. */
  lemma OnlyHeadersFail(face: Face, ast: Ast, density: Density, maximumPages: nat, headers: seq<Boxes>, p: nat)
    requires FaceOk(face) && WellFormed(ast) && density in DENSITIES && 1 <= maximumPages == |headers|
    requires LayoutOf(face, ast, density, maximumPages).Laid? && p < maximumPages
    ensures var page := AllPages(face, LayoutOf(face, ast, density, maximumPages), headers)[p];
      && (Clipping(page) <==> Clipping(headers[p]))
      && (Overlapping(page) ==>
            exists i, j :: 0 <= i < j < |page| && i < |headers[p]| && page[i].realContent && page[j].realContent
              && BoxesOverlap(page[i], page[j]))
  {
    hide BoxesOverlap, Clipped, LayoutOf, FaceOk, WellFormed, InItsColumn;
    var laid := LayoutOf(face, ast, density, maximumPages);
    var boxes := PageBoxes(face, laid, p);
    ColumnsPassPreflight(face, ast, density, maximumPages, p);
    var page := headers[p] + boxes;
    assert AllPages(face, laid, headers)[p] == page;
    assert forall k :: |headers[p]| <= k < |page| ==> page[k] == boxes[k - |headers[p]|];
    if Clipping(page) {
      var b :| b in page && b.realContent && Clipped(b);
      assert b in headers[p];
    }
    if Overlapping(page) {
      var i, j :| 0 <= i < j < |page| && page[i].realContent && page[j].realContent && BoxesOverlap(page[i], page[j]);
      assert i < |headers[p]|;
    }
  }

  /** Rounding lets a page through from 39.995 per cent on. */
  lemma FortyPercent(x: real)
    ensures Round4(x) >= PAGE_TWO_MINIMUM_OCCUPANCY <==> x >= 0.39995
  {
    var scaled := x * 10000.0;
    var below := scaled.Floor;
    assert below % 2 == 0 || below % 2 == 1;
    if x >= 0.39995 {
      assert below >= 3999;
    } else {
      assert below <= 3999;
    }
  }
}
