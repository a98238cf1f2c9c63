/** A two-page layout that leaves its second page empty would have fitted one page
    (resume-renderer-v2/app.py, 744-747, 769-778, 1277-1284). */
module Pages {
  import opened Basics
  import opened Text
  import opened Resume
  import opened Column
  import opened Geometry
  import opened Layout
  import opened Content

  /** The same column with two pages and with one. */
  ghost predicate TwoAndOne(two: Context, one: Context) {
    && ContextOk(two) && ContextOk(one) && one == two.(tops := [666.0]) && two.tops == [666.0, 696.0]
  }

  lemma {:induction false} SameBodies(two: Context, one: Context, blocks: seq<Block>, width: real, y: real)
    requires TwoAndOne(two, one) && y <= 666.0
    requires BlocksOk(two.face.glyph, blocks, BodyWidth(two), two.density.bulletGap)
    requires FlowBodies(two, blocks, Pos(0, y)).Done? && FlowBodies(two, blocks, Pos(0, y)).pos.page == 0
    ensures FlowBodies(one, blocks, Pos(0, y)) == FlowBodies(two, blocks, Pos(0, y))
  {
    hide FaceOk, BlockOk;
    if blocks != [] {
      var step := Height(blocks[0]) + two.density.bulletGap;
      StackHeightNonNegative(two.face.glyph, blocks[..1], BodyWidth(two), two.density.bulletGap, two.density.bulletGap);
      assert StackHeight(blocks[..1], two.density.bulletGap)
        == step + StackHeight(blocks[..1][1..], two.density.bulletGap);
      var at := Advance(two.tops, Pos(0, y), step).value;
      FlowBodiesDescends(two, blocks[1..], Pos(at.page, at.y - step));
      SameBodies(two, one, blocks[1..], width, y - step);
    }
  }

  lemma SameMeasures(two: Context, one: Context, kind: Kind, e: Entry)
    requires TwoAndOne(two, one)
    ensures HeaderBlocks(one, kind, e) == HeaderBlocks(two, kind, e)
    ensures BodyBlocks(one, e) == BodyBlocks(two, e)
    ensures TotalHeight(one, kind, e) == TotalHeight(two, kind, e)
    ensures MinimumHeight(one, kind, e) == MinimumHeight(two, kind, e)
  {
    hide WrapBlock, StackHeight, FaceOk;
    assert HeaderBlocks(one, kind, e) == HeaderBlocks(two, kind, e);
    assert BodyBlocks(one, e) == BodyBlocks(two, e);
  }

  lemma SameEntry(two: Context, one: Context, kind: Kind, e: Entry, y: real)
    requires TwoAndOne(two, one) && y <= 666.0
    requires PlaceEntry(two, kind, e, Pos(0, y)).Done? && PlaceEntry(two, kind, e, Pos(0, y)).pos.page == 0
    ensures PlaceEntry(one, kind, e, Pos(0, y)) == PlaceEntry(two, kind, e, Pos(0, y))
  {
    hide HeaderBlocks, BodyBlocks, TotalHeight, MinimumHeight, WrapBlock, FaceOk, StackHeight, FlowBodies, Stack,
      AllBetween, AllApart;
    SameMeasures(two, one, kind, e);
    BodyBlocksOk(two, e);
    RequiredCoversHeader(two, kind, e);
    StackIsNonNegative(two, kind, e);
    var required := Required(two, kind, e);
    assert Capacity([666.0, 696.0]) == 640.0 && Capacity([666.0]) == 610.0 by {
      assert [666.0, 696.0][..1] == [666.0];
    }
    if y - required < CONTENT_BOTTOM {
      var heading := ContinuationBlock(two, kind);
      PlainHeightNonNegative(two, "section-continuation",
        if kind == Experience then "Earlier experience" else "Continued");
      var full := required + (Height(heading) + 10.0);
      var at := Advance(two.tops, Pos(0, y), full).value;
      var mid := Pos(at.page, at.y - Height(heading) - 10.0);
      DrawEntryDescends(two, kind, e, mid);
    } else {
      var mid := y - StackHeight(HeaderBlocks(two, kind, e), 1.0) - 1.0;
      SameBodies(two, one, BodyBlocks(two, e), BodyWidth(two), mid);
    }
  }

  lemma StackIsNonNegative(c: Context, kind: Kind, e: Entry)
    requires ContextOk(c)
    ensures 0.0 <= StackHeight(HeaderBlocks(c, kind, e), 1.0)
  {
    HeaderBlocksOk(c, kind, e);
    StackHeightNonNegative(c.face.glyph, HeaderBlocks(c, kind, e), c.width, 1.0, 1.0);
  }

  lemma {:induction false} SameEntries(two: Context, one: Context, kind: Kind, entries: seq<Entry>, y: real)
    requires TwoAndOne(two, one) && y <= 666.0
    requires FlowEntries(two, kind, entries, Pos(0, y)).Done?
      && FlowEntries(two, kind, entries, Pos(0, y)).pos.page == 0
    ensures FlowEntries(one, kind, entries, Pos(0, y)) == FlowEntries(two, kind, entries, Pos(0, y))
  {
    hide PlaceEntry, FaceOk, AllBetween, AllApart;
    if entries != [] {
      var first := PlaceEntry(two, kind, entries[0], Pos(0, y));
      PlaceEntryDescends(two, kind, entries[0], Pos(0, y));
      var next := Pos(first.pos.page, first.pos.y - two.density.entryGap);
      FlowEntriesDescends(two, kind, entries[1..], next);
      SameEntry(two, one, kind, entries[0], y);
      SameEntries(two, one, kind, entries[1..], next.y);
    }
  }

  lemma {:induction false} SameCards(two: Context, one: Context, entries: seq<Entry>, y: real)
    requires TwoAndOne(two, one) && CardEntries(entries) && y <= 666.0
    requires FlowCards(two, entries, Pos(0, y)).Done? && FlowCards(two, entries, Pos(0, y)).pos.page == 0
    ensures FlowCards(one, entries, Pos(0, y)) == FlowCards(two, entries, Pos(0, y))
    decreases |entries|
  {
    hide FaceOk, AllBetween, AllApart, RowHeight, DrawRow;
    if entries != [] {
      var n := if |entries| == 1 then 1 else 2;
      RowsAlike(two, one, entries);
      var height := RowHeight(two, entries);
      var at := Advance(two.tops, Pos(0, y), height).value;
      RowDescends(two, entries, at);
      var next := Pos(at.page, at.y - (height + CARD_GAP));
      FlowCardsDescends(two, entries[n..], next);
      assert at.page == 0;
      SameCards(two, one, entries[n..], next.y);
    }
  }

  lemma SameSection(two: Context, one: Context, s: Section, y: real)
    requires TwoAndOne(two, one) && WellFormedSection(s) && y <= 666.0
    requires FlowSection(two, s, Pos(0, y)).Done? && FlowSection(two, s, Pos(0, y)).pos.page == 0
    ensures FlowSection(one, s, Pos(0, y)) == FlowSection(two, s, Pos(0, y))
  {
    hide FaceOk, AllBetween, AllApart, FlowCards, FlowEntries, TotalHeight, MinimumHeight, Wrapped, Height;
    var heading := HeadingBlock(two, s);
    assert HeadingBlock(one, s) == heading;
    PlainHeightNonNegative(two, s.id, s.title);
    SameMeasures(two, one, s.kind, s.entries[0]);
    ReserveNonNegative(two, s);
    assert Capacity([666.0, 696.0]) == 640.0 && Capacity([666.0]) == 610.0 by {
      assert [666.0, 696.0][..1] == [666.0];
    }
    var at := Advance(two.tops, Pos(0, y), Height(heading) + 6.0 + FirstReserve(two, s)).value;
    var mid := Pos(at.page, at.y - (Height(heading) + 3.0) - 7.0);
    if s.kind == Metrics && two.sidebar {
      FlowCardsDescends(two, s.entries, mid);
      assert at.page == 0;
      SameCards(two, one, s.entries, mid.y);
    } else {
      FlowEntriesDescends(two, s.kind, s.entries, mid);
      assert at.page == 0;
      SameEntries(two, one, s.kind, s.entries, mid.y);
    }
  }

  lemma ReserveNonNegative(c: Context, s: Section)
    requires ContextOk(c) && WellFormedSection(s)
    ensures 0.0 <= FirstReserve(c, s)
  {
    hide FaceOk, Height, HeaderBlocks, BodyBlocks, BodyBlock, StackHeight, Capacity;
    StackIsNonNegative(c, s.kind, s.entries[0]);
    BodyStackNonNegative(c, s.entries[0]);
    if s.entries[0].body != [] {
      BodyHeightNonNegative(c, s.entries[0].body[0]);
    }
  }

  lemma {:induction false} SameSections(two: Context, one: Context, sections: seq<Section>, y: real)
    requires TwoAndOne(two, one) && (forall s :: s in sections ==> WellFormedSection(s)) && y <= 666.0
    requires FlowSections(two, sections, Pos(0, y)).Done? && FlowSections(two, sections, Pos(0, y)).pos.page == 0
    ensures FlowSections(one, sections, Pos(0, y)) == FlowSections(two, sections, Pos(0, y))
  {
    hide FaceOk, AllBetween, AllApart, FlowSection;
    if sections != [] {
      var first := FlowSection(two, sections[0], Pos(0, y));
      FlowSectionDescends(two, sections[0], Pos(0, y));
      FlowSectionsDescends(two, sections[1..], first.pos);
      SameSection(two, one, sections[0], y);
      SameSections(two, one, sections[1..], first.pos.y);
    }
  }

  lemma SameColumn(two: Context, one: Context, profile: Option<Node>, sections: seq<Section>)
    requires TwoAndOne(two, one) && (forall s :: s in sections ==> WellFormedSection(s))
    requires profile.Some? ==> 354.0 <= two.width
    requires FlowColumn(two, profile, sections).Done? && FlowColumn(two, profile, sections).pos.page == 0
    ensures FlowColumn(one, profile, sections) == FlowColumn(two, profile, sections)
  {
    hide FaceOk, AllBetween, AllApart, FlowSections, Wrapped, Height;
    var start := Pos(0, 666.0);
    var first := FlowProfile(two, profile, start);
    FlowProfileDescends(two, profile, start);
    FlowSectionsDescends(two, sections, first.pos);
    assert first.pos.page == 0;
    SameSections(two, one, sections, first.pos.y);
  }

  /** If every draw of a two-page layout is on the first page, the one-page layout draws
      exactly the same. */
  lemma EmptySecondPage(face: Face, ast: Ast, density: Density)
    requires FaceOk(face) && WellFormed(ast) && density in DENSITIES
    requires LayoutOf(face, ast, density, 2).Laid? && UsedPages(LayoutOf(face, ast, density, 2), 2) == 1
    ensures LayoutOf(face, ast, density, 1) == LayoutOf(face, ast, density, 2)
  {
    hide FlowColumn, FaceOk, WellFormedSection, DensityOk, Parts, ColumnParts;
    ContextsOk(face, ast, density, 1);
    ContextsOk(face, ast, density, 2);
    PlacedMembers(ast.sections, Main);
    PlacedMembers(ast.sections, Sidebar);
    DrawnOnKeptPages(face, ast, density, 2);
    assert ContentTops(1) == [666.0] && ContentTops(2) == [666.0, 696.0];
    var main, side := Placed(ast.sections, Main), Placed(ast.sections, Sidebar);
    var mc := MainContext(face, ast, density, 2);
    var laid := LayoutOf(face, ast, density, 2);
    FlowColumnDraws(mc, ast.summary, main);
    LastPageZero(mc, laid.main, FlowColumn(mc, ast.summary, main).pos);
    SameColumn(mc, MainContext(face, ast, density, 1), ast.summary, main);
    if side != [] {
      var sc := SideContext(face, density, 2);
      FlowColumnDraws(sc, None, side);
      LastPageZero(sc, laid.side, FlowColumn(sc, None, side).pos);
      SameColumn(sc, SideContext(face, density, 1), None, side);
    }
  }

  lemma LastPageZero(c: Context, draws: seq<Draw>, to: Pos)
    requires c.tops != [] && EndsOnContent(Pos(0, c.tops[0]), draws, to)
    requires forall d :: d in draws ==> d.page < 1
    ensures to.page == 0
  {
    if draws != [] {
      assert draws[|draws| - 1] in draws;
    }
  }

  /** So a two-page attempt made because one page overflowed always uses both its pages: the
      page-count guard that would skip it never fires. */
  lemma SecondPageIsUsed(face: Face, ast: Ast, density: Density)
    requires FaceOk(face) && WellFormed(ast) && density in DENSITIES
    requires LayoutOf(face, ast, density, 1).LayoutOverflow? && LayoutOf(face, ast, density, 2).Laid?
    ensures UsedPages(LayoutOf(face, ast, density, 2), 2) == 2
  {
    hide LayoutOf, FaceOk, WellFormed;
    if UsedPages(LayoutOf(face, ast, density, 2), 2) == 1 {
      EmptySecondPage(face, ast, density);
    }
  }
}
