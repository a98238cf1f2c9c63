/** The two columns of a candidate layout, and why they alone never trip the
    geometry preflight (resume-renderer-v2/app.py, 730-758, 1110-1138). */
module Layout {
  import opened Basics
  import opened Text
  import opened Resume
  import opened Column
  import opened Geometry

  // -------------------------------------------------------------- two columns

  function MainContext(face: Face, ast: Ast, density: Density, maximumPages: nat): Context
    requires 1 <= maximumPages
  {
    Context(face, density, ContentTops(maximumPages), MAIN_X,
            if Placed(ast.sections, Sidebar) != [] then MAIN_WIDTH else PAGE_WIDTH - 2.0 * MAIN_X, false)
  }

  function SideContext(face: Face, density: Density, maximumPages: nat): Context
    requires 1 <= maximumPages
  {
    Context(face, density, ContentTops(maximumPages), SIDEBAR_CONTENT_X, SIDEBAR_CONTENT_WIDTH, true)
  }

  /** What a layout draws in its main column and its sidebar. */
  datatype LayoutResult = LayoutOverflow | Laid(main: seq<Draw>, side: seq<Draw>)

  function LayoutOf(face: Face, ast: Ast, density: Density, maximumPages: nat): LayoutResult
    requires 1 <= maximumPages && WellFormed(ast)
  {
    PlacedMembers(ast.sections, Main);
    PlacedMembers(ast.sections, Sidebar);
    var side := Placed(ast.sections, Sidebar);
    match FlowColumn(MainContext(face, ast, density, maximumPages), ast.summary, Placed(ast.sections, Main))
    case Overflow => LayoutOverflow
    case Done(_, main) =>
      if side == [] then Laid(main, [])
      else
        match FlowColumn(SideContext(face, density, maximumPages), None, side)
        case Overflow => LayoutOverflow
        case Done(_, draws) => Laid(main, draws)
  }

  /** The boxes a list of draws leaves on one page, in drawing order. */
  function BoxesOn(g: Glyphs, draws: seq<Draw>, page: nat): seq<TextBox> {
    if draws == [] then []
    else
      BoxesOn(g, draws[..|draws| - 1], page)
      + (if draws[|draws| - 1].page == page then Boxes(g, draws[|draws| - 1]) else [])
  }

  lemma {:induction false} BoxesOnAppend(g: Glyphs, a: seq<Draw>, b: seq<Draw>, page: nat)
    ensures BoxesOn(g, a + b, page) == BoxesOn(g, a, page) + BoxesOn(g, b, page)
  {
    if b == [] {
      assert a + b == a;
    } else {
      assert (a + b)[..|a + b| - 1] == a + b[..|b| - 1];
      BoxesOnAppend(g, a, b[..|b| - 1], page);
    }
  }

  lemma {:induction false} BoxOrigin(g: Glyphs, draws: seq<Draw>, page: nat, i: nat) returns (k: nat, m: nat)
    requires i < |BoxesOn(g, draws, page)|
    ensures k < |draws| && draws[k].page == page
    ensures m < |draws[k].block.lines| && BoxesOn(g, draws, page)[i] == BoxAt(g, draws[k], m)
  {
    var n := |draws| - 1;
    var before := BoxesOn(g, draws[..n], page);
    if i < |before| {
      k, m := BoxOrigin(g, draws[..n], page, i);
    } else {
      k, m := n, i - |before|;
    }
  }

  // ----------------------------------------------------- from draws to boxes

  /** Inside the column horizontally, and between the content edges of the page. */
  ghost predicate BoxInside(c: Context, b: TextBox, page: nat) {
    && page < |c.tops|
    && c.x <= b.x && b.x + b.width <= c.x + c.width + SLACK
    && CONTENT_BOTTOM <= b.y && b.y + b.height <= c.tops[page]
  }

  lemma LinesHeightStep(i: nat, j: nat, leading: real)
    requires i <= j && 0.0 <= leading
    ensures LinesHeight(i, leading) <= LinesHeight(j, leading)
    ensures i < j ==> LinesHeight(i, leading) + leading <= LinesHeight(j, leading)
  {
    assert LinesHeight(j, leading) - LinesHeight(i, leading) == LinesHeight(j - i, leading);
    if i < j {
      assert LinesHeight(j - i, leading) == LinesHeight(j - i - 1, leading) + leading;
      assert 0.0 <= LinesHeight(j - i - 1, leading);
    }
  }

  lemma BoxWithinDraw(g: Glyphs, d: Draw, m: nat, limit: real)
    requires m < |d.block.lines| && 0.0 < d.block.size <= d.block.leading && EndsBy(g, d, limit)
    ensures var b := BoxAt(g, d, m);
      && b.x == d.x && b.x + b.width <= limit
      && Bottom(d) <= b.y && b.y + b.height <= Top(d) && 0.0 < b.height
  {
    LinesHeightStep(m, |d.block.lines| - 1, d.block.leading);
    LinesHeightStep(0, m, d.block.leading);
    assert LinesHeight(0, d.block.leading) == 0.0;
  }

  /** Two lines of one draw do not overlap. */
  lemma OwnBoxesApart(g: Glyphs, d: Draw, m: nat, n: nat)
    requires m < n < |d.block.lines| && 0.0 < d.block.size <= d.block.leading
    ensures !BoxesOverlap(BoxAt(g, d, m), BoxAt(g, d, n))
  {
    LinesHeightStep(m, n, d.block.leading);
  }

  lemma DrawBoxesApart(c: Context, a: Draw, b: Draw, m: nat, n: nat)
    requires Inside(c, a) && Inside(c, b) && a.page == b.page && Apart(c.face.glyph, a, b)
    requires m < |a.block.lines| && n < |b.block.lines|
    ensures !BoxesOverlap(BoxAt(c.face.glyph, a, m), BoxAt(c.face.glyph, b, n))
  {
    var g := c.face.glyph;
    var limit := c.x + c.width + SLACK;
    BoxWithinDraw(g, a, m, limit);
    BoxWithinDraw(g, b, n, limit);
    if EndsBy(g, a, b.x) {
      BoxWithinDraw(g, a, m, b.x);
    }
  }

  ghost predicate PairwiseApart(boxes: seq<TextBox>) {
    forall i, j :: 0 <= i < j < |boxes| && boxes[i].realContent && boxes[j].realContent ==>
      !BoxesOverlap(boxes[i], boxes[j])
  }

  lemma {:induction false} ColumnBoxesInside(c: Context, draws: seq<Draw>, page: nat, from: Pos, to: Pos)
    requires AllBetween(c, from, draws, to)
    ensures forall i :: 0 <= i < |BoxesOn(c.face.glyph, draws, page)| ==>
      BoxesOn(c.face.glyph, draws, page)[i].realContent ==>
      BoxInside(c, BoxesOn(c.face.glyph, draws, page)[i], page)
  {
    var g := c.face.glyph;
    forall i | 0 <= i < |BoxesOn(g, draws, page)| && BoxesOn(g, draws, page)[i].realContent
      ensures BoxInside(c, BoxesOn(g, draws, page)[i], page)
    {
      var k, m := BoxOrigin(g, draws, page, i);
      assert Inside(c, draws[k]);
      BoxWithinDraw(g, draws[k], m, c.x + c.width + SLACK);
    }
  }

  lemma PairwiseApartAppend(left: seq<TextBox>, right: seq<TextBox>)
    requires PairwiseApart(left) && PairwiseApart(right)
    requires forall i, j :: 0 <= i < |left| && 0 <= j < |right| && left[i].realContent && right[j].realContent ==>
      !BoxesOverlap(left[i], right[j])
    ensures PairwiseApart(left + right)
  {
    hide BoxesOverlap;
    var boxes := left + right;
    forall i, j | 0 <= i < j < |boxes| && boxes[i].realContent && boxes[j].realContent
      ensures !BoxesOverlap(boxes[i], boxes[j])
    {
      if j < |left| {
        assert boxes[i] == left[i] && boxes[j] == left[j];
      } else if |left| <= i {
        assert boxes[i] == right[i - |left|] && boxes[j] == right[j - |left|];
      } else {
        assert boxes[i] == left[i] && boxes[j] == right[j - |left|];
      }
    }
  }

  lemma OwnBoxesPairwise(c: Context, d: Draw)
    requires d.role.Content? ==> Inside(c, d)
    ensures PairwiseApart(Boxes(c.face.glyph, d))
  {
    hide BoxesOverlap, EndsBy, LinesHeight, LineWidth;
    var boxes := Boxes(c.face.glyph, d);
    forall i, j | 0 <= i < j < |boxes| && boxes[i].realContent && boxes[j].realContent
      ensures !BoxesOverlap(boxes[i], boxes[j])
    {
      OwnBoxesApart(c.face.glyph, d, i, j);
    }
  }

  lemma {:induction false} ColumnBoxesApart(c: Context, draws: seq<Draw>, page: nat, from: Pos, to: Pos)
    requires AllBetween(c, from, draws, to) && AllApart(c.face.glyph, draws)
    ensures PairwiseApart(BoxesOn(c.face.glyph, draws, page))
  {
    hide BoxesOverlap, Inside, Apart, LinesHeight, LineWidth, Top, Bottom;
    if draws != [] {
      var g := c.face.glyph;
      var n := |draws| - 1;
      var last, prefix := draws[n], draws[..n];
      assert AllBetween(c, from, prefix, to) && AllApart(g, prefix);
      ColumnBoxesApart(c, prefix, page, from, to);
      if last.page == page {
        var before, own := BoxesOn(g, prefix, page), Boxes(g, last);
        OwnBoxesPairwise(c, last);
        forall i, j | 0 <= i < |before| && 0 <= j < |own| && before[i].realContent && own[j].realContent
          ensures !BoxesOverlap(before[i], own[j])
        {
          var k, m := BoxOrigin(g, prefix, page, i);
          assert Apart(g, draws[k], last);
          DrawBoxesApart(c, draws[k], last, m, j);
        }
        PairwiseApartAppend(before, own);
      } else {
        assert BoxesOn(g, prefix, page) + [] == BoxesOn(g, prefix, page);
      }
    }
  }

  // ------------------------------------------------------- the preflight claim

  function PageBoxes(face: Face, laid: LayoutResult, page: nat): seq<TextBox>
    requires laid.Laid?
  {
    BoxesOn(face.glyph, laid.main, page) + BoxesOn(face.glyph, laid.side, page)
  }

  /** Every page's boxes: the shared header's, then both columns'. */
  function AllPages(face: Face, laid: LayoutResult, headers: seq<seq<TextBox>>): (pages: seq<seq<TextBox>>)
    requires laid.Laid?
  {
    seq(|headers|, p requires 0 <= p < |headers| => headers[p] + PageBoxes(face, laid, p))
  }

  predicate HasReal(boxes: seq<TextBox>) {
    exists b :: b in boxes && b.realContent
  }

  /** `count` reaches the last page with real content, or page one. */
  predicate LastReal(pages: seq<seq<TextBox>>, count: nat) {
    && 1 <= count <= |pages|
    && (count > 1 ==> HasReal(pages[count - 1]))
    && forall p :: count <= p < |pages| ==> !HasReal(pages[p])
  }

  predicate Clipped(b: TextBox) {
    || b.x < -0.5 || b.x + b.width > PAGE_WIDTH + 0.5
    || b.y < -0.5 || b.y + b.height > PAGE_HEIGHT + 0.5
  }

  lemma ContextsOk(face: Face, ast: Ast, density: Density, maximumPages: nat)
    requires FaceOk(face) && density in DENSITIES && 1 <= maximumPages
    ensures ContextOk(MainContext(face, ast, density, maximumPages))
    ensures ContextOk(SideContext(face, density, maximumPages))
  {
    DensitiesOk();
  }

  /** Every real box of the columns lies in its column and in the content area of its page. */
  ghost predicate InItsColumn(face: Face, ast: Ast, density: Density, maximumPages: nat, b: TextBox, page: nat)
    requires 1 <= maximumPages
  {
    || BoxInside(MainContext(face, ast, density, maximumPages), b, page)
    || (Placed(ast.sections, Sidebar) != [] && BoxInside(SideContext(face, density, maximumPages), b, page))
  }

  /** For every accepted resume, density and page count, no real text box drawn by the
      columns leaves its column or the page's content area, and no two overlap. */
  lemma ColumnsPassPreflight(face: Face, ast: Ast, density: Density, maximumPages: nat, page: nat)
    requires FaceOk(face) && WellFormed(ast) && density in DENSITIES && 1 <= maximumPages
    requires LayoutOf(face, ast, density, maximumPages).Laid?
    ensures var boxes := PageBoxes(face, LayoutOf(face, ast, density, maximumPages), page);
      && PairwiseApart(boxes)
      && (forall i :: 0 <= i < |boxes| && boxes[i].realContent ==>
            !Clipped(boxes[i]) && InItsColumn(face, ast, density, maximumPages, boxes[i], page))
  {
    hide AllBetween, AllApart, FaceOk, ContextOk, FlowColumn, WellFormedSection, BoxesOverlap, BoxesOn;
    ContextsOk(face, ast, density, maximumPages);
    PlacedMembers(ast.sections, Main);
    PlacedMembers(ast.sections, Sidebar);
    var side := Placed(ast.sections, Sidebar);
    var laid := LayoutOf(face, ast, density, maximumPages);
    var mc := MainContext(face, ast, density, maximumPages);
    var main := FlowColumn(mc, ast.summary, Placed(ast.sections, Main));
    FlowColumnDescends(mc, ast.summary, Placed(ast.sections, Main));
    var start := Pos(0, mc.tops[0]);
    ColumnBoxesInside(mc, main.draws, page, start, main.pos);
    ColumnBoxesApart(mc, main.draws, page, start, main.pos);
    var left := BoxesOn(face.glyph, laid.main, page);
    if side == [] {
      assert BoxesOn(face.glyph, [], page) == [] by { NoBoxes(face.glyph, page); }
      assert left + [] == left;
    } else {
      var sc := SideContext(face, density, maximumPages);
      var aside := FlowColumn(sc, None, side);
      FlowColumnDescends(sc, None, side);
      ColumnBoxesInside(sc, aside.draws, page, start, aside.pos);
      ColumnBoxesApart(sc, aside.draws, page, start, aside.pos);
      var right := BoxesOn(face.glyph, laid.side, page);
      ColumnsDisjoint(mc, sc, left, right, page);
    }
  }

  lemma NoBoxes(g: Glyphs, page: nat)
    ensures BoxesOn(g, [], page) == []
  {}

  lemma ColumnsDisjoint(mc: Context, sc: Context, left: seq<TextBox>, right: seq<TextBox>, page: nat)
    requires mc.x + mc.width + SLACK <= sc.x
    requires PairwiseApart(left) && PairwiseApart(right)
    requires forall i :: 0 <= i < |left| && left[i].realContent ==> BoxInside(mc, left[i], page)
    requires forall i :: 0 <= i < |right| && right[i].realContent ==> BoxInside(sc, right[i], page)
    ensures PairwiseApart(left + right)
  {
    forall i, j | 0 <= i < |left| && 0 <= j < |right| && left[i].realContent && right[j].realContent
      ensures !BoxesOverlap(left[i], right[j])
    {
      assert BoxInside(mc, left[i], page) && BoxInside(sc, right[j], page);
    }
    PairwiseApartAppend(left, right);
  }
}
