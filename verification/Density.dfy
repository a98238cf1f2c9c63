/** A resume that fits one page at some density fits one page at every later one
    (resume-renderer-v2/app.py, 493-498, 760-993, 1277). */
module Density {
  import opened Basics
  import opened Text
  import opened Resume
  import opened Column
  import opened Geometry
  import opened Layout

  /** The same one-page column at a tighter and a looser density. */
  ghost predicate Paired(tight: Context, loose: Context) {
    && ContextOk(tight) && ContextOk(loose)
    && tight == loose.(density := tight.density) && loose.tops == [666.0]
    && Tighter(tight.density, loose.density)
  }

  // ------------------------------------------------------- smaller blocks

  /** No word of a node whose size depends on the density is wider than its column. */
  predicate ShortEntry(c: Context, kind: Kind, e: Entry) {
    && (!(kind == Experience && !c.sidebar) ==> forall i :: 0 <= i < |e.header| ==> ShortHeader(c, kind, e, i))
    && forall i :: 0 <= i < |e.body| ==> ShortBody(c, e.body[i])
  }

  predicate ShortHeader(c: Context, kind: Kind, e: Entry, i: nat)
    requires i < |e.header|
  {
    NoLongWord(c.face.glyph, c.face.words(e.header[i]), HeaderBlock(c, kind, e.header[i], i).size, c.width,
               if i == 0 then Bold else Regular, Bold)
  }

  predicate ShortBody(c: Context, node: Node) {
    NoLongWord(c.face.glyph, c.face.words(node), BodyBlock(c, node).size, BodyWidth(c), Regular, Bold)
  }

  predicate ShortSections(c: Context, sections: seq<Section>) {
    forall s, e :: s in sections && !(s.kind == Metrics && c.sidebar) && e in s.entries ==> ShortEntry(c, s.kind, e)
  }

  predicate ShortProfile(c: Context, profile: Option<Node>) {
    profile.Some? ==>
      NoLongWord(c.face.glyph, c.face.words(profile.value), c.density.bodySize, c.width, Regular, Bold)
  }

  ghost predicate Smaller(a: seq<Block>, b: seq<Block>) {
    |a| == |b| && forall i :: 0 <= i < |a| ==> 0.0 <= Height(a[i]) <= Height(b[i])
  }

  lemma HeightMonotone(m: nat, n: nat, p: real, q: real)
    requires m <= n && 0.0 <= p <= q
    ensures 0.0 <= LinesHeight(m, p) <= LinesHeight(n, q)
  {
    assert m as real * p <= n as real * p;
    assert n as real * p <= n as real * q;
  }

  lemma BlockShrinks(face: Face, node: Node, width: real, small: real, large: real, p: real, q: real,
                     regular: Font, bold: Font)
    requires FaceOk(face) && 0.0 <= small <= large && 0.0 <= p <= q
    requires NoLongWord(face.glyph, face.words(node), large, width, regular, bold)
    ensures 0.0 <= Height(WrapBlock(face, node, width, small, p, regular, bold))
         <= Height(WrapBlock(face, node, width, large, q, regular, bold))
  {
    WrappedShrinks(face.glyph, face.words(node), small, large, width, regular, bold);
    HeightMonotone(|Wrapped(face.glyph, face.words(node), small, width, regular, bold)|,
                   |Wrapped(face.glyph, face.words(node), large, width, regular, bold)|, p, q);
  }

  lemma HeadersSmaller(tight: Context, loose: Context, kind: Kind, e: Entry)
    requires Paired(tight, loose) && ShortEntry(loose, kind, e)
    ensures Smaller(HeaderBlocks(tight, kind, e), HeaderBlocks(loose, kind, e))
  {
    hide FaceOk, NoLongWord, Wrapped, LinesHeight;
    forall i | 0 <= i < |e.header|
      ensures 0.0 <= Height(HeaderBlock(tight, kind, e.header[i], i))
        <= Height(HeaderBlock(loose, kind, e.header[i], i))
    {
      var a, b := HeaderBlock(tight, kind, e.header[i], i), HeaderBlock(loose, kind, e.header[i], i);
      if kind == Experience && !loose.sidebar {
        HeightMonotone(|a.lines|, |b.lines|, a.leading, b.leading);
      } else {
        assert ShortHeader(loose, kind, e, i);
        BlockShrinks(loose.face, e.header[i], loose.width, a.size, b.size, a.leading, b.leading,
                     if i == 0 then Bold else Regular, Bold);
      }
    }
  }

  lemma BodiesSmaller(tight: Context, loose: Context, kind: Kind, e: Entry)
    requires Paired(tight, loose) && ShortEntry(loose, kind, e)
    ensures Smaller(BodyBlocks(tight, e), BodyBlocks(loose, e))
  {
    hide FaceOk, NoLongWord, Wrapped, LinesHeight;
    forall i | 0 <= i < |e.body|
      ensures 0.0 <= Height(BodyBlock(tight, e.body[i])) <= Height(BodyBlock(loose, e.body[i]))
    {
      var a, b := BodyBlock(tight, e.body[i]), BodyBlock(loose, e.body[i]);
      assert ShortBody(loose, e.body[i]);
      BlockShrinks(loose.face, e.body[i], BodyWidth(loose), a.size, b.size, a.leading, b.leading, Regular, Bold);
    }
  }

  lemma {:induction false} StackShrinks(a: seq<Block>, b: seq<Block>, p: real, q: real)
    requires Smaller(a, b) && 0.0 <= p <= q
    ensures 0.0 <= StackHeight(a, p) <= StackHeight(b, q)
  {
    hide Height;
    if a != [] {
      StackShrinks(a[1..], b[1..], p, q);
    }
  }

  lemma TotalShrinks(tight: Context, loose: Context, kind: Kind, e: Entry)
    requires Paired(tight, loose) && ShortEntry(loose, kind, e)
    ensures 0.0 <= TotalHeight(tight, kind, e) <= TotalHeight(loose, kind, e)
  {
    hide FaceOk, ShortEntry, Smaller, StackHeight, HeaderBlocks, BodyBlocks;
    HeadersSmaller(tight, loose, kind, e);
    BodiesSmaller(tight, loose, kind, e);
    StackShrinks(HeaderBlocks(tight, kind, e), HeaderBlocks(loose, kind, e), 1.0, 1.0);
    StackShrinks(BodyBlocks(tight, e), BodyBlocks(loose, e), tight.density.bulletGap, loose.density.bulletGap);
  }

  // ------------------------------------------ when a one-page column succeeds

  lemma {:induction false} OnePageBodies(c: Context, blocks: seq<Block>, width: real, y: real)
    requires c.tops == [666.0] && ContextOk(c) && BlocksOk(c.face.glyph, blocks, width, c.density.bulletGap)
    ensures var o := FlowBodies(c, blocks, Pos(0, y));
      && (o.Done? <==> blocks == [] || y - StackHeight(blocks, c.density.bulletGap) >= CONTENT_BOTTOM)
      && (o.Done? ==> o.pos == Pos(0, y - StackHeight(blocks, c.density.bulletGap)))
  {
    hide BlockOk, FaceOk, Height;
    if blocks != [] {
      var step := Height(blocks[0]) + c.density.bulletGap;
      StackHeightNonNegative(c.face.glyph, blocks[1..], width, c.density.bulletGap, c.density.bulletGap);
      OnePageBodies(c, blocks[1..], width, y - step);
    }
  }

  /** On a single page, below its first point, an entry is placed if and only if its whole
      height and two points fit; the reservation of a mere minimum never helps. */
  lemma OnePageEntry(c: Context, kind: Kind, e: Entry, y: real)
    requires c.tops == [666.0] && ContextOk(c) && y <= 665.0
    ensures var o := PlaceEntry(c, kind, e, Pos(0, y));
      && (o.Done? <==> y - (TotalHeight(c, kind, e) + 2.0) >= CONTENT_BOTTOM)
      && (o.Done? ==> o.pos == Pos(0, y - TotalHeight(c, kind, e) - 1.0))
  {
    hide HeaderBlock, BodyBlock, FaceOk, BlockOk, WrapBlock, StackHeight, FlowBodies, Stack;
    PlainHeightNonNegative(c, "section-continuation", if kind == Experience then "Earlier experience" else "Continued");
    BodyBlocksOk(c, e);
    BodyStackNonNegative(c, e);
    EmptyStack(c.density.bulletGap);
    var mid := y - StackHeight(HeaderBlocks(c, kind, e), 1.0) - 1.0;
    OnePageBodies(c, BodyBlocks(c, e), BodyWidth(c), mid);
    MinimumWithinTotal(c, kind, e);
  }

  lemma EmptyStack(gap: real)
    ensures StackHeight([], gap) == 0.0
  {}

  lemma MinimumWithinTotal(c: Context, kind: Kind, e: Entry)
    requires ContextOk(c)
    ensures MinimumHeight(c, kind, e) <= TotalHeight(c, kind, e) + 2.0
    ensures e.body == [] ==> MinimumHeight(c, kind, e) == TotalHeight(c, kind, e) + 2.0
  {
    hide HeaderBlocks, BodyBlock, FaceOk, BlockOk, Height;
    if e.body != [] {
      BodyBlocksOk(c, e);
      StackHeightNonNegative(c.face.glyph, BodyBlocks(c, e)[1..], BodyWidth(c), c.density.bulletGap,
        c.density.bulletGap);
    }
  }

  // ------------------------------------------------------- the column shrinks

  lemma {:induction false} EntriesShrink(tight: Context, loose: Context, kind: Kind, entries: seq<Entry>, y: real,
      z: real)
    requires Paired(tight, loose) && (forall e :: e in entries ==> ShortEntry(loose, kind, e))
    requires z <= y <= 665.0
    requires FlowEntries(loose, kind, entries, Pos(0, z)).Done?
    ensures var a, b := FlowEntries(tight, kind, entries, Pos(0, y)), FlowEntries(loose, kind, entries, Pos(0, z));
      a.Done? && a.pos.page == b.pos.page == 0 && b.pos.y <= a.pos.y <= 665.0
    ensures entries != [] ==> z - (TotalHeight(loose, kind, entries[0]) + 2.0) >= CONTENT_BOTTOM
  {
    hide PlaceEntry, TotalHeight, ShortEntry, FaceOk;
    if entries != [] {
      var e := entries[0];
      OnePageEntry(loose, kind, e, z);
      OnePageEntry(tight, kind, e, y);
      TotalShrinks(tight, loose, kind, e);
      EntriesShrink(tight, loose, kind, entries[1..],
                    y - TotalHeight(tight, kind, e) - 1.0 - tight.density.entryGap,
                    z - TotalHeight(loose, kind, e) - 1.0 - loose.density.entryGap);
    }
  }

  lemma {:induction false} CardsShrink(tight: Context, loose: Context, entries: seq<Entry>, y: real, z: real)
    requires Paired(tight, loose) && (forall e :: e in entries ==> e.header != [])
    requires z <= y <= 665.0
    requires FlowCards(loose, entries, Pos(0, z)).Done?
    ensures var a, b := FlowCards(tight, entries, Pos(0, y)), FlowCards(loose, entries, Pos(0, z));
      a.Done? && a.pos.page == b.pos.page == 0 && b.pos.y <= a.pos.y <= 665.0
    decreases |entries|
  {
    hide RowHeight, DrawRow, FaceOk;
    if entries != [] {
      var n := if |entries| == 1 then 1 else 2;
      RowsAlike(tight, loose, entries);
      var step := RowHeight(loose, entries) + CARD_GAP;
      CardsShrink(tight, loose, entries[n..], y - step, z - step);
    }
  }

  lemma SectionShrinks(tight: Context, loose: Context, s: Section, y: real, z: real)
    requires Paired(tight, loose) && WellFormedSection(s) && (s.kind == Metrics ==> loose.sidebar)
    requires !(s.kind == Metrics && loose.sidebar) ==> forall e :: e in s.entries ==> ShortEntry(loose, s.kind, e)
    requires z <= y <= 666.0
    requires FlowSection(loose, s, Pos(0, z)).Done?
    ensures var a, b := FlowSection(tight, s, Pos(0, y)), FlowSection(loose, s, Pos(0, z));
      a.Done? && a.pos.page == b.pos.page == 0 && b.pos.y <= a.pos.y <= 666.0
  {
    hide FlowEntries, FlowCards, FaceOk, Wrapped, TotalHeight, MinimumHeight, ShortEntry, Height;
    var heading := HeadingBlock(loose, s);
    assert HeadingBlock(tight, s) == heading;
    PlainHeightNonNegative(loose, s.id, s.title);
    var drop := Height(heading) + 3.0 + 7.0;
    if s.kind == Metrics && loose.sidebar {
      CardsShrink(tight, loose, s.entries, y - drop, z - drop);
    } else {
      EntriesShrink(tight, loose, s.kind, s.entries, y - drop, z - drop);
      TotalShrinks(tight, loose, s.kind, s.entries[0]);
    }
  }

  lemma {:induction false} SectionsShrink(tight: Context, loose: Context, sections: seq<Section>, y: real, z: real)
    requires Paired(tight, loose) && (forall s :: s in sections ==> WellFormedSection(s))
    requires (forall s :: s in sections && s.kind == Metrics ==> loose.sidebar) && ShortSections(loose, sections)
    requires z <= y <= 666.0
    requires FlowSections(loose, sections, Pos(0, z)).Done?
    ensures FlowSections(tight, sections, Pos(0, y)).Done?
  {
    hide FlowSection, FaceOk, ShortEntry;
    if sections != [] {
      SectionShrinks(tight, loose, sections[0], y, z);
      var a, b := FlowSection(tight, sections[0], Pos(0, y)), FlowSection(loose, sections[0], Pos(0, z));
      SectionsShrink(tight, loose, sections[1..], a.pos.y, b.pos.y);
    }
  }

  lemma ColumnShrinks(tight: Context, loose: Context, profile: Option<Node>, sections: seq<Section>)
    requires Paired(tight, loose) && (forall s :: s in sections ==> WellFormedSection(s))
    requires (forall s :: s in sections && s.kind == Metrics ==> loose.sidebar) && ShortSections(loose, sections)
    requires ShortProfile(loose, profile)
    requires FlowColumn(loose, profile, sections).Done?
    ensures FlowColumn(tight, profile, sections).Done?
  {
    hide FlowSections, FaceOk, Wrapped, ShortSections, LinesHeight, WellFormedSection, NoLongWord;
    var z := FlowProfile(loose, profile, Pos(0, 666.0)).pos;
    match profile {
      case None =>
        SectionsShrink(tight, loose, sections, 666.0, 666.0);
      case Some(node) =>
        BlockShrinks(loose.face, node, loose.width, tight.density.bodySize, loose.density.bodySize,
                     tight.density.bodyLeading, loose.density.bodyLeading, Regular, Bold);
        ProfileHeadingPositive(loose);
        var y := FlowProfile(tight, profile, Pos(0, 666.0)).pos;
        SectionsShrink(tight, loose, sections, y.y, z.y);
    }
  }

  lemma ProfileHeadingPositive(c: Context)
    ensures 0.0 <= Height(ProfileHeading(c))
  {}

  /** No word that is set at a density-dependent size is wider than its column. */
  ghost predicate NoOverlongWord(face: Face, ast: Ast, density: Density) {
    && ShortSections(MainContext(face, ast, density, 1), Placed(ast.sections, Main))
    && ShortProfile(MainContext(face, ast, density, 1), ast.summary)
    && ShortSections(SideContext(face, density, 1), Placed(ast.sections, Sidebar))
  }

  /** The four densities are tried from loose to tight, and tightening never hurts: if the
      resume fits one page at one of them, it fits one page at every later one. */
  lemma FitsOnePageFromHereOn(face: Face, ast: Ast, i: nat, j: nat)
    requires FaceOk(face) && WellFormed(ast) && i <= j < |DENSITIES|
    requires NoOverlongWord(face, ast, DENSITIES[i])
    requires LayoutOf(face, ast, DENSITIES[i], 1).Laid?
    ensures LayoutOf(face, ast, DENSITIES[j], 1).Laid?
  {
    hide FlowColumn, FaceOk, ShortSections, NoLongWord, DensityOk;
    var loose, tight := DENSITIES[i], DENSITIES[j];
    DensitiesOk();
    ContextsOk(face, ast, loose, 1);
    ContextsOk(face, ast, tight, 1);
    PlacedMembers(ast.sections, Main);
    PlacedMembers(ast.sections, Sidebar);
    assert ContentTops(1) == [666.0];
    ColumnShrinks(MainContext(face, ast, tight, 1), MainContext(face, ast, loose, 1),
                  ast.summary, Placed(ast.sections, Main));
    if Placed(ast.sections, Sidebar) != [] {
      ColumnShrinks(SideContext(face, tight, 1), SideContext(face, loose, 1), None, Placed(ast.sections, Sidebar));
    }
  }
}
