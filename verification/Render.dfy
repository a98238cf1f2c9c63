/** The fixed schedule of densities and page counts
    (resume-renderer-v2/app.py, 1206-1307). */
module Render {
  import opened Basics
  import opened Text
  import opened Resume
  import opened Column
  import opened Geometry
  import opened Layout
  import opened Content
  import opened Occupancy
  import opened Preflight
  import Density
  import Pages
  import RL = ResumeLayout

  datatype Trial = Trial(density: Resume.Density, maximumPages: nat)

  /** All four densities on one page, then the two tightest on two. */
  const CANDIDATES: seq<Trial> := [
    Trial(DENSITIES[0], 1), Trial(DENSITIES[1], 1), Trial(DENSITIES[2], 1), Trial(DENSITIES[3], 1),
    Trial(DENSITIES[2], 2), Trial(DENSITIES[3], 2)]

  const UNDERFILLED := "RESUME_PAGE_TWO_UNDERFILLED"
  const PREFLIGHT_FAILED := "RESUME_VISUAL_PREFLIGHT_FAILED"
  const PAGE_LIMIT := "RESUME_PAGE_LIMIT_EXCEEDED"

  /** What the renderer is given besides the resume: the header boxes of page one and of a
      continuation page, and what reading the drawn PDF back objects to, if anything. */
  datatype Surroundings = Surroundings(
    firstHeader: Boxes, laterHeader: Boxes, pdfError: (Trial, seq<Boxes>) -> Option<string>)

  function Headers(around: Surroundings, maximumPages: nat): (headers: seq<Boxes>) {
    seq(maximumPages, p => if p == 0 then around.firstHeader else around.laterHeader)
  }

  /** How one candidate ends. */
  datatype Attempt =
    | Overflowed
    | Skipped
    | Underfilled
    | Rejected(code: string)
    | Accepted(pages: seq<Boxes>)

  predicate Retried(a: Attempt) { a.Overflowed? || a.Skipped? || a.Underfilled? }

  /** The preflight's verdict on finished pages. */
  ghost function Inspected(around: Surroundings, c: Trial, pages: seq<Boxes>): Attempt {
    match around.pdfError(c, pages)
    case Some(code) => Rejected(code)
    case None =>
      if exists p :: 0 <= p < |pages| && (Clipping(pages[p]) || Overlapping(pages[p])) then Rejected(PREFLIGHT_FAILED)
      else if |pages| == 2 && Round4(Occupancy.Occupancy(pages[1])) < PAGE_TWO_MINIMUM_OCCUPANCY then Underfilled
      else Accepted(pages)
  }

  /** Pages up to the last with real content. */
  ghost function KeptPages(pages: seq<Boxes>): seq<Boxes>
    requires pages != []
  {
    if |pages| == 1 || HasReal(pages[|pages| - 1]) then pages else KeptPages(pages[..|pages| - 1])
  }

  ghost function Attempted(face: Face, ast: Ast, around: Surroundings, c: Trial): Attempt
    requires WellFormed(ast) && 1 <= c.maximumPages
  {
    var laid := LayoutOf(face, ast, c.density, c.maximumPages);
    if laid.LayoutOverflow? then Overflowed
    else
      var kept := KeptPages(AllPages(face, laid, Headers(around, c.maximumPages)));
      if |kept| != c.maximumPages && c.maximumPages == 2 then Skipped else Inspected(around, c, kept)
  }

  ghost function Attempts(face: Face, ast: Ast, around: Surroundings): (attempts: seq<Attempt>)
    requires WellFormed(ast)
  {
    seq(|CANDIDATES|, i requires 0 <= i < |CANDIDATES| => Attempted(face, ast, around, CANDIDATES[i]))
  }

  datatype Result = Rendered(candidate: nat, pages: seq<Boxes>) | Raised(code: string)

  /** The first attempt that is not retried decides; if all are, an underfilled second page
      is reported in preference to the page limit. */
  ghost predicate Verdict(attempts: seq<Attempt>, r: Result) {
    match r
    case Rendered(k, pages) =>
      k < |attempts| && attempts[k] == Accepted(pages) && forall j :: 0 <= j < k ==> Retried(attempts[j])
    case Raised(code) =>
      || (exists k ::
        0 <= k < |attempts| && attempts[k] == Rejected(code) && forall j :: 0 <= j < k ==> Retried(attempts[j]))
      || ((forall j :: 0 <= j < |attempts| ==> Retried(attempts[j]))
          && code == if Underfilled in attempts then UNDERFILLED else PAGE_LIMIT)
  }

  lemma {:induction false} KeptPagesLast(pages: seq<Boxes>, count: nat)
    requires LastReal(pages, count)
    ensures KeptPages(pages) == pages[..count]
  {
    hide HasReal;
    if |pages| == count {
      assert pages[..count] == pages;
    } else {
      var n := |pages| - 1;
      KeptPagesLast(pages[..n], count);
      assert pages[..n][..count] == pages[..count];
    }
  }

  method Inspect(around: Surroundings, c: Trial, pages: seq<Boxes>) returns (a: Attempt)
    requires 1 <= |pages|
    ensures a == Inspected(around, c, pages)
  {
    hide Clipping, Overlapping, Occupancy.Occupancy, Round4;
    var report := GeometryPreflight(pages);
    match around.pdfError(c, pages) {
      case Some(code) =>
        return Rejected(code);
      case None =>
        if report.hasClipping || report.hasOverlap {
          return Rejected(PREFLIGHT_FAILED);
        }
        if |pages| == 2 && report.occupancies[1] < PAGE_TWO_MINIMUM_OCCUPANCY {
          return Underfilled;
        }
        return Accepted(pages);
    }
  }

  method Try(face: Face, ast: Ast, around: Surroundings, c: Trial) returns (a: Attempt)
    requires WellFormed(ast) && 1 <= c.maximumPages
    ensures a == Attempted(face, ast, around, c)
  {
    hide LayoutOf, WellFormed, Inspected;
    var layout := new RL.ResumeLayout(face, ast, c.density, c.maximumPages, Headers(around, c.maximumPages));
    var ok, kept := layout.Layout();
    if !ok {
      return Overflowed;
    }
    KeptPagesLast(AllPages(face, LayoutOf(face, ast, c.density, c.maximumPages), Headers(around, c.maximumPages)),
      |kept|);
    if |kept| != c.maximumPages && c.maximumPages == 2 {
      return Skipped;
    }
    a := Inspect(around, c, kept);
  }

  /** The loop over the candidates, with its last error. */
  method RenderResume(face: Face, ast: Ast, around: Surroundings) returns (r: Result)
    requires WellFormed(ast)
    ensures Verdict(Attempts(face, ast, around), r)
  {
    hide WellFormed, Attempted;
    ghost var attempts := Attempts(face, ast, around);
    var lastError: Option<string> := None;
    for i := 0 to |CANDIDATES|
      invariant forall j :: 0 <= j < i ==> Retried(attempts[j])
      invariant lastError == if Underfilled in attempts[..i] then Some(UNDERFILLED) else None
    {
      assert attempts[..i + 1] == attempts[..i] + [attempts[i]];
      var a := Try(face, ast, around, CANDIDATES[i]);
      match a {
        case Accepted(pages) => return Rendered(i, pages);
        case Rejected(code) => return Raised(code);
        case Underfilled => lastError := Some(UNDERFILLED);
        case Overflowed =>
        case Skipped =>
      }
    }
    assert attempts[..|CANDIDATES|] == attempts;
    r := Raised(if lastError.Some? then lastError.value else PAGE_LIMIT);
  }

  // ------------------------------------------------------ what the schedule means

  /** The continuation page's header is furniture, not content. */
  ghost predicate AroundOk(around: Surroundings) {
    !HasReal(around.laterHeader)
  }

  /** A one-page attempt is retried only because it overflowed. */
  lemma OnePageRetried(face: Face, ast: Ast, around: Surroundings, d: Resume.Density)
    requires WellFormed(ast) && Retried(Attempted(face, ast, around, Trial(d, 1)))
    ensures LayoutOf(face, ast, d, 1).LayoutOverflow?
    ensures Attempted(face, ast, around, Trial(d, 1)).Overflowed?
  {
    hide LayoutOf, WellFormed, HasReal, Clipping, Overlapping, Occupancy.Occupancy;
  }

  /** Real boxes beyond the header come from content draws, and every content draw has one. */
  lemma UsedPageIsReal(face: Face, ast: Ast, density: Resume.Density, around: Surroundings)
    requires FaceOk(face) && WellFormed(ast) && density in DENSITIES && AroundOk(around)
    requires LayoutOf(face, ast, density, 2).Laid? && UsedPages(LayoutOf(face, ast, density, 2), 2) == 2
    ensures HasReal(AllPages(face, LayoutOf(face, ast, density, 2), Headers(around, 2))[1])
  {
    hide LayoutOf, FaceOk, WellFormed, Parts, AllPages;
    var laid := LayoutOf(face, ast, density, 2);
    var draws := laid.main + laid.side;
    var i :| 0 <= i < |draws| && draws[i].role.Content? && draws[i].page == 1;
    ContentHasLines(face, ast, density, 2, draws[i]);
    var box := BoxAt(face.glyph, draws[i], 0);
    DrawLeavesBox(face.glyph, draws, i, 0);
    BoxesOnAppend(face.glyph, laid.main, laid.side, 1);
    PageHasBox(face, laid, around, box);
  }

  lemma PageHasBox(face: Face, laid: LayoutResult, around: Surroundings, box: TextBox)
    requires laid.Laid? && box in PageBoxes(face, laid, 1) && box.realContent
    ensures HasReal(AllPages(face, laid, Headers(around, 2))[1])
  {
    hide PageBoxes;
    assert box in AllPages(face, laid, Headers(around, 2))[1];
  }

  lemma ContentHasLines(face: Face, ast: Ast, density: Resume.Density, maximumPages: nat, d: Draw)
    requires FaceOk(face) && WellFormed(ast) && density in DENSITIES && 1 <= maximumPages
    requires LayoutOf(face, ast, density, maximumPages).Laid? && d.role.Content?
    requires d in LayoutOf(face, ast, density, maximumPages).main
      || d in LayoutOf(face, ast, density, maximumPages).side
    ensures d.block.lines != []
  {
    hide FaceOk, FlowColumn, WellFormedSection, AllApart, DensityOk;
    ContextsOk(face, ast, density, maximumPages);
    PlacedMembers(ast.sections, Main);
    PlacedMembers(ast.sections, Sidebar);
    var mc := MainContext(face, ast, density, maximumPages);
    FlowColumnDescends(mc, ast.summary, Placed(ast.sections, Main));
    if Placed(ast.sections, Sidebar) != [] {
      FlowColumnDescends(SideContext(face, density, maximumPages), None, Placed(ast.sections, Sidebar));
    }
  }

  lemma {:induction false} DrawLeavesBox(g: Glyphs, draws: seq<Draw>, i: nat, m: nat)
    requires i < |draws| && m < |draws[i].block.lines|
    ensures BoxAt(g, draws[i], m) in BoxesOn(g, draws, draws[i].page)
  {
    hide BoxAt;
    var n := |draws| - 1;
    if i < n {
      DrawLeavesBox(g, draws[..n], i, m);
    } else {
      assert Geometry.Boxes(g, draws[n])[m] in Geometry.Boxes(g, draws[n]);
    }
  }

  /** By the time a two-page candidate is tried, the page-count guard cannot skip it. */
  lemma TwoPagesNeverSkipped(face: Face, ast: Ast, around: Surroundings, d: Resume.Density)
    requires FaceOk(face) && WellFormed(ast) && d in DENSITIES && AroundOk(around)
    requires LayoutOf(face, ast, d, 1).LayoutOverflow?
    ensures !Attempted(face, ast, around, Trial(d, 2)).Skipped?
  {
    hide LayoutOf, WellFormed, FaceOk, HasReal, UsedPages, Inspected, AllPages;
    if LayoutOf(face, ast, d, 2).Laid? {
      Pages.SecondPageIsUsed(face, ast, d);
      UsedPageIsReal(face, ast, d, around);
      AllPagesCount(face, LayoutOf(face, ast, d, 2), Headers(around, 2));
      NeverSkippedByCount(around, Trial(d, 2), AllPages(face, LayoutOf(face, ast, d, 2), Headers(around, 2)));
    }
  }

  lemma AllPagesCount(face: Face, laid: LayoutResult, headers: seq<Boxes>)
    requires laid.Laid?
    ensures |AllPages(face, laid, headers)| == |headers|
  {}

  lemma NeverSkippedByCount(around: Surroundings, c: Trial, pages: seq<Boxes>)
    requires |pages| == 2 && HasReal(pages[1])
    ensures KeptPages(pages) == pages
    ensures !Inspected(around, c, pages).Skipped?
  {}

  /** A two-page result means all four one-page layouts overflowed, and its second page is
      at least forty per cent occupied, give or take the rounding to four places. */
  lemma TwoPageResult(face: Face, ast: Ast, around: Surroundings, r: Result)
    requires FaceOk(face) && WellFormed(ast) && Verdict(Attempts(face, ast, around), r)
    requires r.Rendered? && CANDIDATES[r.candidate].maximumPages == 2
    ensures forall i :: 0 <= i < |DENSITIES| ==> LayoutOf(face, ast, DENSITIES[i], 1).LayoutOverflow?
    ensures |r.pages| == 2 && Occupancy.Occupancy(r.pages[1]) >= 0.39995
  {
    hide LayoutOf, WellFormed, FaceOk, HasReal, Attempted, Occupancy.Occupancy;
    forall i | 0 <= i < |DENSITIES| ensures LayoutOf(face, ast, DENSITIES[i], 1).LayoutOverflow? {
      assert CANDIDATES[i] == Trial(DENSITIES[i], 1);
      assert Retried(Attempts(face, ast, around)[i]);
      OnePageRetried(face, ast, around, DENSITIES[i]);
    }
    AcceptedTwoPages(face, ast, around, CANDIDATES[r.candidate], r.pages);
    FortyPercent(Occupancy.Occupancy(r.pages[1]));
  }

  lemma AcceptedTwoPages(face: Face, ast: Ast, around: Surroundings, c: Trial, pages: seq<Boxes>)
    requires WellFormed(ast) && c.maximumPages == 2 && Attempted(face, ast, around, c) == Accepted(pages)
    ensures |pages| == 2 && Round4(Occupancy.Occupancy(pages[1])) >= PAGE_TWO_MINIMUM_OCCUPANCY
  {
    hide LayoutOf, WellFormed, HasReal, Round4, Occupancy.Occupancy, Clipping, Overlapping, AllPages;
    AllPagesCount(face, LayoutOf(face, ast, c.density, 2), Headers(around, 2));
  }

  /** A one-page result is the loosest density that fits, and when no word is wider than its
      column every tighter density would have fitted as well. */
  lemma OnePageResult(face: Face, ast: Ast, around: Surroundings, r: Result, j: nat)
    requires FaceOk(face) && WellFormed(ast) && Verdict(Attempts(face, ast, around), r)
    requires r.Rendered? && CANDIDATES[r.candidate].maximumPages == 1 && j < |DENSITIES|
    requires Density.NoOverlongWord(face, ast, CANDIDATES[r.candidate].density)
    ensures LayoutOf(face, ast, DENSITIES[j], 1).Laid? <==> r.candidate <= j
  {
    hide LayoutOf, WellFormed, FaceOk, Attempted, Density.NoOverlongWord;
    var k := r.candidate;
    assert CANDIDATES[k] == Trial(DENSITIES[k], 1);
    if j < k {
      assert CANDIDATES[j] == Trial(DENSITIES[j], 1);
      assert Retried(Attempts(face, ast, around)[j]);
      OnePageRetried(face, ast, around, DENSITIES[j]);
    } else {
      AcceptedIsLaid(face, ast, around, CANDIDATES[k], r.pages);
      Density.FitsOnePageFromHereOn(face, ast, k, j);
    }
  }

  lemma AcceptedIsLaid(face: Face, ast: Ast, around: Surroundings, c: Trial, pages: seq<Boxes>)
    requires WellFormed(ast) && 1 <= c.maximumPages && Attempted(face, ast, around, c) == Accepted(pages)
    ensures LayoutOf(face, ast, c.density, c.maximumPages).Laid?
  {
    hide LayoutOf, WellFormed;
  }

  /** The PDF checks have codes of their own: they never raise the two codes of the schedule. */
  ghost predicate OwnCodes(around: Surroundings) {
    forall c, pages :: around.pdfError(c, pages).Some? ==>
      around.pdfError(c, pages).value != UNDERFILLED && around.pdfError(c, pages).value != PAGE_LIMIT
  }

  lemma AcceptedIsWhole(face: Face, ast: Ast, around: Surroundings, c: Trial, pages: seq<Boxes>)
    requires WellFormed(ast) && 1 <= c.maximumPages <= 2 && Attempted(face, ast, around, c) == Accepted(pages)
    ensures LayoutOf(face, ast, c.density, c.maximumPages).Laid?
    ensures pages == AllPages(face, LayoutOf(face, ast, c.density, c.maximumPages), Headers(around, c.maximumPages))
    ensures |pages| == c.maximumPages
  {
    hide LayoutOf, WellFormed, KeptPages, AllPages, Occupancy.Occupancy, Clipping, Overlapping, Round4;
    var laid := LayoutOf(face, ast, c.density, c.maximumPages);
    AllPagesCount(face, laid, Headers(around, c.maximumPages));
    KeptWhole(AllPages(face, laid, Headers(around, c.maximumPages)));
  }

  lemma {:induction false} KeptWhole(pages: seq<Boxes>)
    requires pages != []
    ensures 1 <= |KeptPages(pages)| <= |pages|
    ensures |KeptPages(pages)| == |pages| ==> KeptPages(pages) == pages
  {
    hide HasReal;
    if |pages| > 1 {
      KeptWhole(pages[..|pages| - 1]);
    }
  }

  /** Every line of every draw has its box on the draw's page. */
  ghost predicate AllShown(g: Glyphs, draws: seq<Draw>, pages: seq<Boxes>) {
    forall d, m :: d in draws && 0 <= m < |d.block.lines| ==> d.page < |pages| && BoxAt(g, d, m) in pages[d.page]
  }

  /** The pages are those of the candidate's layout, all of them. */
  ghost predicate WholeLayout(face: Face, ast: Ast, around: Surroundings, c: Trial, pages: seq<Boxes>)
  {
    && WellFormed(ast) && 1 <= c.maximumPages
    && var laid := LayoutOf(face, ast, c.density, c.maximumPages);
    && laid.Laid? && |pages| == c.maximumPages && pages == AllPages(face, laid, Headers(around, c.maximumPages))
    && AllShown(face.glyph, laid.main, pages) && AllShown(face.glyph, laid.side, pages)
  }

  /** What is returned is the whole layout of its candidate: no page is cut off, and every line
      of everything either column draws stands on its page. */
  lemma RenderedIsWhole(face: Face, ast: Ast, around: Surroundings, r: Result)
    requires FaceOk(face) && WellFormed(ast) && Verdict(Attempts(face, ast, around), r) && r.Rendered?
    ensures WholeLayout(face, ast, around, CANDIDATES[r.candidate], r.pages)
  {
    hide LayoutOf, WellFormed, FaceOk, Attempted, UsedPages, AllPages, AllShown;
    var c := CANDIDATES[r.candidate];
    AcceptedIsWhole(face, ast, around, c, r.pages);
    var laid := LayoutOf(face, ast, c.density, c.maximumPages);
    DrawnOnKeptPages(face, ast, c.density, c.maximumPages);
    DrawsAreShown(face, laid, Headers(around, c.maximumPages));
  }

  lemma DrawsAreShown(face: Face, laid: LayoutResult, headers: seq<Boxes>)
    requires laid.Laid? && forall d :: d in laid.main || d in laid.side ==> d.page < |headers|
    ensures AllShown(face.glyph, laid.main, AllPages(face, laid, headers))
    ensures AllShown(face.glyph, laid.side, AllPages(face, laid, headers))
  {
    hide BoxAt, BoxesOn;
    var pages := AllPages(face, laid, headers);
    forall d, m | d in laid.main && 0 <= m < |d.block.lines| ensures BoxAt(face.glyph, d, m) in pages[d.page] {
      var i :| 0 <= i < |laid.main| && laid.main[i] == d;
      DrawLeavesBox(face.glyph, laid.main, i, m);
    }
    forall d, m | d in laid.side && 0 <= m < |d.block.lines| ensures BoxAt(face.glyph, d, m) in pages[d.page] {
      var i :| 0 <= i < |laid.side| && laid.side[i] == d;
      DrawLeavesBox(face.glyph, laid.side, i, m);
    }
  }

  /** Whatever the PDF checks object to: the underfilled error means some two-page attempt was
      underfilled and none of the six candidates succeeded or was rejected, the page-limit error
      that all six overflowed. */
  lemma WhyItFailed(face: Face, ast: Ast, around: Surroundings, r: Result)
    requires FaceOk(face) && WellFormed(ast) && AroundOk(around) && Verdict(Attempts(face, ast, around), r)
    requires OwnCodes(around)
    ensures r == Raised(UNDERFILLED) <==>
              var attempts := Attempts(face, ast, around);
              && Underfilled in attempts && forall i :: 0 <= i < |attempts| ==> Retried(attempts[i])
    ensures r == Raised(PAGE_LIMIT) <==>
              forall c :: c in CANDIDATES ==> LayoutOf(face, ast, c.density, c.maximumPages).LayoutOverflow?
  {
    hide LayoutOf, WellFormed, FaceOk, Attempted;
    var attempts := Attempts(face, ast, around);
    forall i | 0 <= i < |CANDIDATES|
      ensures attempts[i].Rejected? ==> attempts[i].code != UNDERFILLED && attempts[i].code != PAGE_LIMIT
      ensures attempts[i].Overflowed?
        <==> LayoutOf(face, ast, CANDIDATES[i].density, CANDIDATES[i].maximumPages).LayoutOverflow?
    {
      AttemptCases(face, ast, around, CANDIDATES[i]);
    }
    forall i | 0 <= i < |DENSITIES| && Retried(attempts[i]) ensures attempts[i].Overflowed? {
      assert CANDIDATES[i] == Trial(DENSITIES[i], 1);
      OnePageRetried(face, ast, around, DENSITIES[i]);
    }
    forall i | 4 <= i < 6 && attempts[i - 2].Overflowed? ensures !attempts[i].Skipped? {
      assert CANDIDATES[i] == Trial(DENSITIES[i - 2], 2) && CANDIDATES[i - 2] == Trial(DENSITIES[i - 2], 1);
      TwoPagesNeverSkipped(face, ast, around, DENSITIES[i - 2]);
    }
    assert forall c :: c in CANDIDATES <==> exists i :: 0 <= i < |CANDIDATES| && CANDIDATES[i] == c;
    LimitMeansOverflow(attempts, r);
  }

  lemma AttemptCases(face: Face, ast: Ast, around: Surroundings, c: Trial)
    requires WellFormed(ast) && 1 <= c.maximumPages
    requires OwnCodes(around)
    ensures var a := Attempted(face, ast, around, c);
      && (a.Rejected? ==> a.code != UNDERFILLED && a.code != PAGE_LIMIT)
      && (a.Overflowed? <==> LayoutOf(face, ast, c.density, c.maximumPages).LayoutOverflow?)
  {
    hide LayoutOf, WellFormed, HasReal, Round4, Occupancy.Occupancy, Clipping, Overlapping, AllPages;
    CodesDiffer();
  }

  lemma CodesDiffer()
    ensures PREFLIGHT_FAILED != PAGE_LIMIT && PREFLIGHT_FAILED != UNDERFILLED && UNDERFILLED != PAGE_LIMIT
  {
    assert PREFLIGHT_FAILED[7] == 'V' && PAGE_LIMIT[7] == 'P' && UNDERFILLED[7] == 'P';
    assert |UNDERFILLED| == |PAGE_LIMIT| + 1;
  }

  lemma LimitMeansOverflow(attempts: seq<Attempt>, r: Result)
    requires |attempts| == 6 && Verdict(attempts, r)
    requires forall i :: 0 <= i < 6 && attempts[i].Rejected? ==>
      attempts[i].code != UNDERFILLED && attempts[i].code != PAGE_LIMIT
    requires forall i :: 0 <= i < 4 && Retried(attempts[i]) ==> attempts[i].Overflowed?
    requires forall i :: 4 <= i < 6 && attempts[i - 2].Overflowed? ==> !attempts[i].Skipped?
    ensures r == Raised(PAGE_LIMIT) <==> forall i :: 0 <= i < 6 ==> attempts[i].Overflowed?
    ensures r == Raised(UNDERFILLED) <==> Underfilled in attempts && forall i :: 0 <= i < 6 ==> Retried(attempts[i])
  {
    CodesDiffer();
    assert forall j :: 0 <= j < 6 ==> attempts[j] in attempts;
    if r == Raised(PAGE_LIMIT) || r == Raised(UNDERFILLED) {
      assert forall j :: 0 <= j < 6 ==> Retried(attempts[j]);
    }
    if forall i :: 0 <= i < 6 ==> attempts[i].Overflowed? {
      assert Underfilled !in attempts;
      match r {
        case Rendered(k, pages) =>
        case Raised(code) => assert forall k :: 0 <= k < 6 ==> attempts[k] != Rejected(code);
      }
    }
    if r == Raised(PAGE_LIMIT) {
      assert Underfilled !in attempts;
      assert attempts[2].Overflowed? && attempts[3].Overflowed?;
      assert attempts[4].Overflowed? && attempts[5].Overflowed?;
    }
  }
}
