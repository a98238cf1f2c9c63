/** The layout engine as it runs: pages that collect boxes while a cursor moves down
    (resume-renderer-v2/app.py, 589-993). */
module ResumeLayout {
  import opened Basics
  import opened Text
  import opened Resume
  import opened Column
  import opened Geometry
  import opened Layout
  import opened Content

  datatype TextOperation = TextOperation(x: real, top: real, lines: seq<Line>, size: real, leading: real)

  class PageLayout {
    var operations: seq<TextOperation>
    var boxes: seq<TextBox>

    constructor (header: seq<TextBox>)
      ensures operations == [] && boxes == header
    {
      operations, boxes := [], header;
    }

    /** Appends one box per line, and says how far the lines reach down. */
    method AddLines(g: Glyphs, ghost page: nat, x: real, top: real, block: Block, role: Role) returns (used: real)
      modifies this
      ensures boxes == old(boxes) + Boxes(g, Draw(page, x, top, role, block))
      ensures operations == old(operations) + [TextOperation(x, top, block.lines, block.size, block.leading)]
      ensures used == Height(block)
    {
      operations := operations + [TextOperation(x, top, block.lines, block.size, block.leading)];
      ghost var d := Draw(page, x, top, role, block);
      for index := 0 to |block.lines|
        invariant operations == old(operations) + [TextOperation(x, top, block.lines, block.size, block.leading)]
        invariant boxes == old(boxes) + Boxes(g, d)[..index]
      {
        var baseline := top - block.size - index as real * block.leading;
        var box := TextBox(x, baseline - block.size * 0.22,
                           Max(0.1, LineWidth(g, block.lines[index], block.size)), block.size, block.id, role.Content?);
        assert box == BoxAt(g, d, index);
        boxes := boxes + [box];
      }
      used := |block.lines| as real * block.leading;
    }
  }

  /** Wrapping a node into a block, with the loops of wrap_node. */
  method Measure(face: Face, node: Node, width: real, size: real, leading: real, regular: Font, bold: Font)
    returns (block: Block)
    ensures block == WrapBlock(face, node, width, size, leading, regular, bold)
  {
    var lines := WrapNode(face.glyph, face.words(node), size, width, regular, bold);
    block := Block(node.id, face.words(node), lines, size, leading, width, regular, bold);
  }

  method HeaderMeasurements(c: Context, kind: Kind, e: Entry) returns (blocks: seq<Block>)
    ensures blocks == HeaderBlocks(c, kind, e)
  {
    hide WrapBlock;
    blocks := [];
    for index := 0 to |e.header|
      invariant blocks == HeaderBlocks(c, kind, e)[..index]
    {
      var size, leading, font;
      if kind == Experience && !c.sidebar {
        size, leading := if index == 0 then 9.6 else 7.8, if index == 0 then 11.2 else 9.5;
        font := if index == 0 then Bold else Medium;
      } else {
        size := if c.sidebar then c.density.supportSize
                else if index == 0 then c.density.bodySize else c.density.supportSize;
        leading := if c.sidebar || index > 0 then c.density.supportLeading else c.density.bodyLeading;
        font := if index == 0 then Bold else Regular;
      }
      var block := Measure(c.face, e.header[index], c.width, size, leading, font, Bold);
      assert block == HeaderBlock(c, kind, e.header[index], index);
      blocks := blocks + [block];
    }
  }

  method BodyMeasurements(c: Context, e: Entry) returns (blocks: seq<Block>)
    ensures blocks == BodyBlocks(c, e)
  {
    hide WrapBlock;
    var size := if c.sidebar then c.density.supportSize else c.density.bodySize;
    var leading := if c.sidebar then c.density.supportLeading else c.density.bodyLeading;
    var bodyWidth := if c.sidebar then c.width else c.width - 10.0;
    blocks := [];
    for index := 0 to |e.body|
      invariant blocks == BodyBlocks(c, e)[..index]
    {
      var block := Measure(c.face, e.body[index], bodyWidth, size, leading, Regular, Bold);
      assert block == BodyBlock(c, e.body[index]);
      blocks := blocks + [block];
    }
  }

  /** Shrinks the metric by quarter points until its words fit the card, or 7.5 is reached. */
  method MetricSize(c: Context, words: seq<Word>) returns (size: real)
    ensures size == MetricSizeAt(MetricSteps(c, words, 0))
  {
    hide FontWidth;
    size := 14.0;
    ghost var steps := 0;
    while size > 7.5
          && exists i :: 0 <= i < |words| && FontWidth(c.face.glyph, words[i].text, Bold, size) > CardWidth(c) - 14.0
      invariant 0 <= steps <= 26 && size == MetricSizeAt(steps)
      invariant MetricSteps(c, words, 0) == MetricSteps(c, words, steps)
      decreases 26 - steps
    {
      size := size - 0.25;
      steps := steps + 1;
    }
  }

  method MeasureCard(c: Context, e: Entry) returns (card: Card)
    requires e.header != []
    ensures card == MakeCard(c, e)
  {
    hide WrapBlock, MetricSteps, StackHeight;
    var metricWidth := CardWidth(c) - 14.0;
    var size := MetricSize(c, c.face.words(e.header[0]));
    var metric := Measure(c.face, e.header[0], metricWidth, size, size + 1.0, Bold, Bold);
    var nodes := CardLabels(e);
    var labels: seq<Block> := [];
    for index := 0 to |nodes|
      invariant labels == LabelBlocks(c, nodes)[..index]
    {
      var block := Measure(c.face, nodes[index], metricWidth, 7.5, 9.0, Regular, Bold);
      labels := labels + [block];
    }
    assert labels == LabelBlocks(c, nodes);
    card := Card(metric, labels, Max(42.0, 8.0 + Height(metric) + StackHeight(labels, 1.0) + 7.0));
  }

  class ResumeLayout {
    const face: Face
    const ast: Ast
    const density: Density
    const maximumPages: nat
    var pages: seq<PageLayout>
    var contentTops: seq<real>

    /** The shared header's boxes, and everything the columns have drawn since. */
    ghost var headers: seq<seq<TextBox>>
    ghost var trace: seq<Draw>

    ghost predicate Valid()
      reads this, pages
    {
      && 1 <= maximumPages && |pages| == |headers| == maximumPages
      && contentTops == ContentTops(maximumPages)
      && (forall i, j :: 0 <= i < j < |pages| ==> pages[i] != pages[j])
      && (forall p :: 0 <= p < |pages| ==> pages[p].boxes == headers[p] + BoxesOn(face.glyph, trace, p))
    }

    /** The page furniture of _layout_shared_headers arrives as boxes per page. */
    constructor (face: Face, ast: Ast, density: Density, maximumPages: nat, header: seq<seq<TextBox>>)
      requires 1 <= maximumPages && |header| == maximumPages
      ensures Valid() && fresh(pages)
      ensures this.face == face && this.ast == ast && this.density == density && this.maximumPages == maximumPages
      ensures headers == header && trace == []
    {
      this.face, this.ast, this.density, this.maximumPages := face, ast, density, maximumPages;
      this.headers, this.trace := header, [];
      this.pages, this.contentTops := [], ContentTops(maximumPages);
      new;
      for p := 0 to maximumPages
        invariant |pages| == p && fresh(pages)
        invariant this.face == face && this.ast == ast && this.density == density && this.maximumPages == maximumPages
        invariant contentTops == ContentTops(maximumPages) && headers == header && trace == []
        invariant forall i, j :: 0 <= i < j < p ==> pages[i] != pages[j]
        invariant forall i :: 0 <= i < p ==> pages[i].boxes == header[i]
      {
        var page := new PageLayout(header[p]);
        pages := pages + [page];
      }
      forall p | 0 <= p < |pages| ensures pages[p].boxes == header[p] + BoxesOn(face.glyph, [], p) {
        NoBoxes(face.glyph, p);
      }
    }

    /** What every drawing step leaves alone. */
    twostate predicate Kept()
      reads this
    {
      pages == old(pages) && contentTops == old(contentTops) && headers == old(headers)
    }

    method Draw(pageIndex: nat, x: real, top: real, block: Block, role: Role) returns (used: real)
      requires Valid() && pageIndex < maximumPages
      modifies this`trace, pages
      ensures Valid() && Kept()
      ensures trace == old(trace) + [Column.Draw(pageIndex, x, top, role, block)]
      ensures used == Height(block)
    {
      hide Boxes;
      ghost var d := Column.Draw(pageIndex, x, top, role, block);
      used := pages[pageIndex].AddLines(face.glyph, pageIndex, x, top, block, role);
      trace := trace + [d];
      forall p | 0 <= p < |pages| ensures pages[p].boxes == headers[p] + BoxesOn(face.glyph, trace, p) {
        BoxesOnAppend(face.glyph, old(trace), [d], p);
        OneDraw(face.glyph, d, p);
      }
    }

    method AdvanceTo(pageIndex: nat, cursor: real, required: real) returns (ok: bool, page: nat, y: real)
      requires Valid() && pageIndex < maximumPages
      ensures ok == Advance(contentTops, Pos(pageIndex, cursor), required).Some?
      ensures ok ==> Pos(page, y) == Advance(contentTops, Pos(pageIndex, cursor), required).value && page < maximumPages
    {
      page, y := pageIndex, cursor;
      if cursor - required >= CONTENT_BOTTOM {
        return true, page, y;
      }
      page := page + 1;
      if page >= maximumPages {
        return false, page, y;
      }
      y := contentTops[page];
      ok := y - required >= CONTENT_BOTTOM;
    }

    /** The run from `from` matches the outcome the specification predicts. */
    ghost predicate Ran(before: seq<Column.Draw>, o: Outcome, ok: bool, page: nat, y: real)
      reads this
    {
      && ok == o.Done?
      && (ok ==> trace == before + o.draws && Pos(page, y) == o.pos && page < maximumPages)
    }

    method DrawHeaders(c: Context, blocks: seq<Block>, page: nat, cursor: real) returns (y: real)
      requires Valid() && page < maximumPages
      modifies this`trace, pages
      ensures Valid() && Kept()
      ensures trace == old(trace) + Stack(blocks, page, c.x, cursor, 1.0)
      ensures y == cursor - StackHeight(blocks, 1.0)
    {
      hide Height, Valid;
      y := cursor;
      for i := 0 to |blocks|
        invariant Valid() && Kept()
        invariant old(trace) + Stack(blocks, page, c.x, cursor, 1.0) == trace + Stack(blocks[i..], page, c.x, y, 1.0)
        invariant y - StackHeight(blocks[i..], 1.0) == cursor - StackHeight(blocks, 1.0)
      {
        assert blocks[i..][1..] == blocks[i + 1..];
        var used := Draw(page, c.x, y, blocks[i], Role.Content);
        y := y - (used + 1.0);
      }
    }

    method DrawBodies(c: Context, blocks: seq<Block>, pageIndex: nat, cursor: real)
        returns (ok: bool, page: nat, y: real)
      requires Valid() && pageIndex < maximumPages && c.tops == contentTops
      modifies this`trace, pages
      ensures Valid() && Kept()
      ensures Ran(old(trace), FlowBodies(c, blocks, Pos(pageIndex, cursor)), ok, page, y)
    {
      hide Height, Valid;
      page, y := pageIndex, cursor;
      ghost var drawn: seq<Column.Draw> := [];
      for i := 0 to |blocks|
        invariant Valid() && Kept() && page < maximumPages
        invariant trace == old(trace) + drawn
        invariant FlowBodies(c, blocks, Pos(pageIndex, cursor))
               == Prepend(drawn, FlowBodies(c, blocks[i..], Pos(page, y)))
      {
        assert blocks[i..][1..] == blocks[i + 1..];
        var required := Height(blocks[i]) + c.density.bulletGap;
        ok, page, y := AdvanceTo(page, y, required);
        if !ok {
          return;
        }
        ghost var d := Column.Draw(page, BodyX(c), y, Role.Content, blocks[i]);
        var used := Draw(page, if c.sidebar then c.x else c.x + 10.0, y, blocks[i], Role.Content);
        y := y - (used + c.density.bulletGap);
        PrependTwice(drawn, [d], FlowBodies(c, blocks[i + 1..], Pos(page, y)));
        drawn := drawn + [d];
      }
      ok := true;
    }

    method DrawEntry(c: Context, kind: Kind, e: Entry, pageIndex: nat, cursor: real)
      returns (ok: bool, page: nat, y: real)
      requires Valid() && pageIndex < maximumPages && c.tops == contentTops && c.face == face
      modifies this`trace, pages
      ensures Valid() && Kept()
      ensures Ran(old(trace), Column.DrawEntry(c, kind, e, Pos(pageIndex, cursor)), ok, page, y)
    {
      hide HeaderBlocks, BodyBlocks, Stack, StackHeight, FlowBodies, Valid;
      var headerBlocks := HeaderMeasurements(c, kind, e);
      var bodies := BodyMeasurements(c, e);
      y := DrawHeaders(c, headerBlocks, pageIndex, cursor);
      y := y - 1.0;
      ok, page, y := DrawBodies(c, bodies, pageIndex, y);
    }

    /** Measures and draws one row of cards, on this page or the next. */
    method DrawMetricRow(c: Context, row: seq<Entry>, pageIndex: nat, cursor: real)
      returns (ok: bool, page: nat, y: real)
      requires Valid() && pageIndex < maximumPages && c.tops == contentTops && c.face == face
      requires 1 <= |row| <= 2 && forall e :: e in row ==> e.header != []
      modifies this`trace, pages
      ensures Valid() && Kept()
      ensures var at := Advance(c.tops, Pos(pageIndex, cursor), RowHeight(c, row));
        && ok == at.Some?
        && (ok ==> trace == old(trace) + DrawRow(c, row, at.value) && page == at.value.page < maximumPages
                   && y == at.value.y - (RowHeight(c, row) + CARD_GAP))
    {
      hide MakeCard, DrawCard, Valid;
      var first := MeasureCard(c, row[0]);
      var second := first;
      var rowHeight := first.height;
      if |row| == 2 {
        second := MeasureCard(c, row[1]);
        rowHeight := Max(first.height, second.height);
      }
      ok, page, y := AdvanceTo(pageIndex, cursor, rowHeight);
      if !ok {
        return;
      }
      DrawOneCard(first, page, c.x, y);
      if |row| == 2 {
        DrawOneCard(second, page, c.x + (CardWidth(c) + CARD_GAP), y);
      }
      y := y - (rowHeight + CARD_GAP);
    }

    method DrawMetricGrid(c: Context, entries: seq<Entry>, pageIndex: nat, cursor: real)
      returns (ok: bool, page: nat, y: real)
      requires Valid() && pageIndex < maximumPages && c.tops == contentTops && c.face == face
      requires forall e :: e in entries ==> e.header != []
      modifies this`trace, pages
      ensures Valid() && Kept()
      ensures Ran(old(trace), FlowCards(c, entries, Pos(pageIndex, cursor)), ok, page, y)
    {
      hide MakeCard, DrawCard, Advance, RowHeight, DrawRow, Valid;
      page, y := pageIndex, cursor;
      ghost var start := Pos(pageIndex, cursor);
      ghost var drawn: seq<Column.Draw> := [];
      var rowStart := 0;
      ok := true;
      while rowStart < |entries|
        invariant 0 <= rowStart <= |entries| && ok
        invariant Valid() && Kept() && page < maximumPages
        invariant trace == old(trace) + drawn
        invariant FlowCards(c, entries, start) == Prepend(drawn, FlowCards(c, entries[rowStart..], Pos(page, y)))
      {
        var n := if rowStart + 1 < |entries| then 2 else 1;
        var row := entries[rowStart..rowStart + n];
        ghost var from := Pos(page, y);
        CardRowStep(c, entries[rowStart..], from, n);
        assert entries[rowStart..][n..] == entries[rowStart + n..] && entries[rowStart..][..n] == row;
        ok, page, y := DrawMetricRow(c, row, page, y);
        if !ok {
          return;
        }
        ghost var at := Advance(c.tops, from, RowHeight(c, row)).value;
        PrependTwice(drawn, DrawRow(c, row, at), FlowCards(c, entries[rowStart + n..], Pos(page, y)));
        drawn := drawn + DrawRow(c, row, at);
        rowStart := rowStart + n;
      }
    }

    method DrawOneCard(card: Card, pageIndex: nat, x: real, y: real)
      requires Valid() && pageIndex < maximumPages
      modifies this`trace, pages
      ensures Valid() && Kept()
      ensures trace == old(trace) + DrawCard(card, pageIndex, x, y)
    {
      hide Height, Valid;
      var textTop := y - 7.0;
      var used := Draw(pageIndex, x + 7.0, textTop, card.metric, Role.Content);
      textTop := textTop - (used + 2.0);
      for i := 0 to |card.labels|
        invariant Valid() && Kept()
        invariant old(trace) + DrawCard(card, pageIndex, x, y)
               == trace + Stack(card.labels[i..], pageIndex, x + 7.0, textTop, 1.0)
      {
        assert card.labels[i..][1..] == card.labels[i + 1..];
        used := Draw(pageIndex, x + 7.0, textTop, card.labels[i], Role.Content);
        textTop := textTop - (used + 1.0);
      }
    }

    /** One turn of the entry loop: the continuation heading if needed, then the entry. */
    method DrawNextEntry(c: Context, kind: Kind, e: Entry, pageIndex: nat, cursor: real)
      returns (ok: bool, page: nat, y: real)
      requires Valid() && pageIndex < maximumPages && c.tops == contentTops && c.face == face
      modifies this`trace, pages
      ensures Valid() && Kept()
      ensures Ran(old(trace), PlaceEntry(c, kind, e, Pos(pageIndex, cursor)), ok, page, y)
    {
      hide Column.DrawEntry, TotalHeight, MinimumHeight, Height, WrapBlock, Capacity, Advance, BoxesOn;
      page, y := pageIndex, cursor;
      var required := Required(c, kind, e);
      if cursor - required < CONTENT_BOTTOM {
        var title := if kind == Experience then "Earlier experience" else "Continued";
        var heading := Measure(c.face, Node("layout", title, ["layout"], []), c.width,
                               c.density.sectionSize, c.density.sectionLeading, Display, Display);
        heading := heading.(id := "section-continuation");
        ok, page, y := AdvanceTo(page, y, required + (Height(heading) + 10.0));
        if !ok {
          return;
        }
        ghost var d := Column.Draw(page, c.x, y, Continuation, heading);
        var used := Draw(page, c.x, y, heading, Continuation);
        y := y - (used + 3.0);
        y := y - 7.0;
        ghost var mid := Pos(page, y);
        ok, page, y := DrawEntry(c, kind, e, page, y);
        assert PlaceEntry(c, kind, e, Pos(pageIndex, cursor)) == Prepend([d], Column.DrawEntry(c, kind, e, mid));
      } else {
        ok, page, y := DrawEntry(c, kind, e, page, y);
      }
    }

    method LayoutEntries(c: Context, kind: Kind, entries: seq<Entry>, pageIndex: nat, cursor: real)
      returns (ok: bool, page: nat, y: real)
      requires Valid() && pageIndex < maximumPages && c.tops == contentTops && c.face == face
      modifies this`trace, pages
      ensures Valid() && Kept()
      ensures Ran(old(trace), FlowEntries(c, kind, entries, Pos(pageIndex, cursor)), ok, page, y)
    {
      hide PlaceEntry, BoxesOn;
      ok, page, y := true, pageIndex, cursor;
      ghost var drawn: seq<Column.Draw> := [];
      for i := 0 to |entries|
        invariant Valid() && Kept() && page < maximumPages && ok
        invariant trace == old(trace) + drawn
        invariant FlowEntries(c, kind, entries, Pos(pageIndex, cursor))
               == Prepend(drawn, FlowEntries(c, kind, entries[i..], Pos(page, y)))
      {
        assert entries[i..][1..] == entries[i + 1..];
        ghost var o := PlaceEntry(c, kind, entries[i], Pos(page, y));
        ok, page, y := DrawNextEntry(c, kind, entries[i], page, y);
        if !ok {
          return;
        }
        y := y - c.density.entryGap;
        PrependTwice(drawn, o.draws, FlowEntries(c, kind, entries[i + 1..], Pos(page, y)));
        drawn := drawn + o.draws;
      }
    }

    method LayoutSection(c: Context, s: Section, pageIndex: nat, cursor: real)
      returns (ok: bool, page: nat, y: real)
      requires Valid() && pageIndex < maximumPages && c.tops == contentTops && c.face == face && WellFormedSection(s)
      modifies this`trace, pages
      ensures Valid() && Kept()
      ensures Ran(old(trace), FlowSection(c, s, Pos(pageIndex, cursor)), ok, page, y)
    {
      hide FlowCards, FlowEntries, FirstReserve, Height, WrapBlock, Advance, BoxesOn;
      var heading := Measure(c.face, Node("layout", s.title, ["layout"], []), c.width,
                             c.density.sectionSize, c.density.sectionLeading, Display, Display);
      heading := heading.(id := s.id);
      var headingHeight := Height(heading) + 6.0;
      ok, page, y := AdvanceTo(pageIndex, cursor, headingHeight + FirstReserve(c, s));
      if !ok {
        return;
      }
      var used := Draw(page, c.x, y, heading, Heading);
      y := y - (used + 3.0);
      y := y - 7.0;
      if s.kind == Metrics && c.sidebar {
        ok, page, y := DrawMetricGrid(c, s.entries, page, y);
      } else {
        ok, page, y := LayoutEntries(c, s.kind, s.entries, page, y);
      }
      y := y - c.density.sectionGap;
    }

    method LayoutProfile(c: Context, profile: Option<Node>) returns (ok: bool, page: nat, y: real)
      requires Valid() && c.tops == contentTops && c.face == face
      modifies this`trace, pages
      ensures Valid() && Kept()
      ensures Ran(old(trace), FlowProfile(c, profile, Pos(0, contentTops[0])), ok, page, y)
    {
      hide Height, WrapBlock;
      ok, page, y := true, 0, contentTops[0];
      if profile.Some? {
        hide Valid;
        var heading := Measure(c.face, Node("layout", "Profile", ["layout"], []), c.width, 12.2, 13.4, Display,
          Display);
        heading := heading.(id := "profile-heading");
        var lines := Measure(c.face, profile.value, c.width, c.density.bodySize, c.density.bodyLeading, Regular, Bold);
        ok, page, y := AdvanceTo(page, y, 13.4 + 8.0 + Height(lines) + 9.0);
        if !ok {
          return;
        }
        var used := Draw(page, c.x, y, heading, Heading);
        y := y - (used + 3.0);
        y := y - 7.0;
        used := Draw(page, c.x, y, lines, Role.Content);
        y := y - (used + 9.0);
      }
    }

    method LayoutSections(c: Context, sections: seq<Section>, pageIndex: nat, cursor: real)
      returns (ok: bool, page: nat, y: real)
      requires Valid() && pageIndex < maximumPages && c.tops == contentTops && c.face == face
      requires forall s :: s in sections ==> WellFormedSection(s)
      modifies this`trace, pages
      ensures Valid() && Kept()
      ensures Ran(old(trace), FlowSections(c, sections, Pos(pageIndex, cursor)), ok, page, y)
    {
      hide FlowSection, WellFormedSection, BoxesOn;
      ok, page, y := true, pageIndex, cursor;
      ghost var start := Pos(pageIndex, cursor);
      ghost var drawn: seq<Column.Draw> := [];
      for i := 0 to |sections|
        invariant Valid() && Kept() && page < maximumPages && ok
        invariant trace == old(trace) + drawn
        invariant FlowSections(c, sections, start) == Prepend(drawn, FlowSections(c, sections[i..], Pos(page, y)))
      {
        assert sections[i..][1..] == sections[i + 1..];
        ghost var o := FlowSection(c, sections[i], Pos(page, y));
        ok, page, y := LayoutSection(c, sections[i], page, y);
        if !ok {
          return;
        }
        PrependTwice(drawn, o.draws, FlowSections(c, sections[i + 1..], Pos(page, y)));
        drawn := drawn + o.draws;
      }
    }

    method LayoutColumn(c: Context, sections: seq<Section>, profile: Option<Node>) returns (ok: bool)
      requires Valid() && c.tops == contentTops && c.face == face
      requires forall s :: s in sections ==> WellFormedSection(s)
      modifies this`trace, pages
      ensures Valid() && Kept()
      ensures ok == FlowColumn(c, profile, sections).Done?
      ensures ok ==> trace == old(trace) + FlowColumn(c, profile, sections).draws
    {
      hide FlowSections, FlowProfile, WellFormedSection, BoxesOn;
      var page: nat, y: real;
      ok, page, y := LayoutProfile(c, profile);
      if ok {
        ok, page, y := LayoutSections(c, sections, page, y);
      }
    }

    method LayoutColumns() returns (ok: bool)
      requires Valid() && WellFormed(ast) && trace == []
      modifies this`trace, pages
      ensures Valid() && Kept()
      ensures ok == LayoutOf(face, ast, density, maximumPages).Laid?
      ensures ok ==> var laid := LayoutOf(face, ast, density, maximumPages); trace == laid.main + laid.side
    {
      hide FlowColumn, Placed, WellFormedSection;
      PlacedMembers(ast.sections, Main);
      PlacedMembers(ast.sections, Sidebar);
      var side := Placed(ast.sections, Sidebar);
      ok := LayoutColumn(MainContext(face, ast, density, maximumPages), Placed(ast.sections, Main), ast.summary);
      if ok && side != [] {
        ok := LayoutColumn(SideContext(face, density, maximumPages), side, None);
      }
    }

    /** The pages up to the last one with real content; page one is always kept. */
    method KeepPages(ghost all: seq<seq<TextBox>>) returns (kept: seq<seq<TextBox>>)
      requires 1 <= |pages| == |all| && forall p :: 0 <= p < |pages| ==> pages[p].boxes == all[p]
      ensures LastReal(all, |kept|) && kept == all[..|kept|]
    {
      hide HasReal;
      var usedPages := 1;
      for index := 0 to |pages|
        invariant 1 <= usedPages && (index > 0 ==> usedPages <= index) && (index == 0 ==> usedPages == 1)
        invariant usedPages > 1 ==> HasReal(all[usedPages - 1])
        invariant forall p :: usedPages <= p < index ==> !HasReal(all[p])
      {
        if HasReal(pages[index].boxes) || index == 0 {
          usedPages := index + 1;
        }
      }
      kept := [];
      for index := 0 to usedPages
        invariant kept == all[..index]
      {
        kept := kept + [pages[index].boxes];
      }
    }

    /** Both columns, cut to the pages in use. */
    method Layout() returns (ok: bool, kept: seq<seq<TextBox>>)
      requires Valid() && WellFormed(ast) && trace == []
      modifies this`trace, pages
      ensures Valid() && Kept()
      ensures ok == LayoutOf(face, ast, density, maximumPages).Laid?
      ensures ok ==>
        var all := AllPages(face, LayoutOf(face, ast, density, maximumPages), headers);
        LastReal(all, |kept|) && kept == all[..|kept|]
    {
      hide LayoutOf, WellFormed, HasReal, BoxesOn;
      kept := [];
      ok := LayoutColumns();
      if !ok {
        return;
      }
      ghost var laid := LayoutOf(face, ast, density, maximumPages);
      ghost var all := AllPages(face, laid, headers);
      forall p | 0 <= p < |pages| ensures pages[p].boxes == all[p] {
        BoxesOnAppend(face.glyph, laid.main, laid.side, p);
      }
      kept := KeepPages(all);
    }
  }

  lemma OneDraw(g: Glyphs, d: Column.Draw, page: nat)
    ensures BoxesOn(g, [d], page) == if d.page == page then Boxes(g, d) else []
  {
    assert [d][..0] == [];
  }

  /** The grid takes its entries two at a time. */
  lemma CardRowStep(c: Context, rest: seq<Entry>, pos: Pos, n: nat)
    requires rest != [] && (forall e :: e in rest ==> e.header != []) && n == (if |rest| == 1 then 1 else 2)
    ensures FlowCards(c, rest, pos)
         == match Advance(c.tops, pos, RowHeight(c, rest[..n]))
            case None => Overflow
            case Some(at) =>
              Prepend(DrawRow(c, rest[..n], at),
                      FlowCards(c, rest[n..], Pos(at.page, at.y - (RowHeight(c, rest[..n]) + CARD_GAP))))
  {
    hide MakeCard, DrawCard;
  }

  lemma PrependTwice(a: seq<Column.Draw>, b: seq<Column.Draw>, o: Outcome)
    ensures Prepend(a, Prepend(b, o)) == Prepend(a + b, o)
  {
    if o.Done? {
      assert a + (b + o.draws) == a + b + o.draws;
    }
  }
}
