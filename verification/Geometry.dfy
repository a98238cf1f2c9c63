/** Column content stays inside its column and never overlaps
    (resume-renderer-v2/app.py, 589-635, 760-993, 1110-1138). */
module Geometry {
  import opened Basics
  import opened Text
  import opened Resume
  import opened Column

  // ----------------------------------------------------------------- boxes

  datatype TextBox = TextBox(x: real, y: real, width: real, height: real, contentId: string, realContent: bool)

  function BoxAt(g: Glyphs, d: Draw, i: nat): TextBox
    requires i < |d.block.lines|
  {
    var baseline := d.top - d.block.size - LinesHeight(i, d.block.leading);
    TextBox(d.x, baseline - d.block.size * 0.22, Max(0.1, LineWidth(g, d.block.lines[i], d.block.size)),
            d.block.size, d.block.id, d.role.Content?)
  }

  function Boxes(g: Glyphs, d: Draw): (boxes: seq<TextBox>) {
    seq(|d.block.lines|, i requires 0 <= i < |d.block.lines| => BoxAt(g, d, i))
  }

  predicate BoxesOverlap(left: TextBox, right: TextBox) {
    && (if left.x + left.width <= right.x + right.width then left.x + left.width else right.x + right.width)
       - Max(left.x, right.x) > 0.35
    && (if left.y + left.height <= right.y + right.height then left.y + left.height else right.y + right.height)
       - Max(left.y, right.y) > 0.35
  }

  // ---------------------------------------------------- one draw, two draws

  /** The highest and lowest ink of a draw. */
  function Top(d: Draw): real { d.top - 0.22 * d.block.size }

  function Bottom(d: Draw): real {
    d.top - LinesHeight(|d.block.lines| - 1, d.block.leading) - 1.22 * d.block.size
  }

  /** Every line of the draw ends at or left of `limit`. */
  ghost predicate EndsBy(g: Glyphs, d: Draw, limit: real) {
    && d.x + 0.1 <= limit
    && forall i :: 0 <= i < |d.block.lines| ==> d.x + LineWidth(g, d.block.lines[i], d.block.size) <= limit
  }

  /** Inside the column and inside the content area of its page, with its node's characters. */
  ghost predicate Inside(c: Context, d: Draw) {
    && Ink(d.block.lines) == WordInk(d.block.words)
    && d.block.lines != [] && 0.0 < d.block.size <= d.block.leading
    && c.x <= d.x && EndsBy(c.face.glyph, d, c.x + c.width + SLACK)
    && d.page < |c.tops| && CONTENT_BOTTOM <= Bottom(d) && Top(d) <= c.tops[d.page]
  }

  ghost predicate Apart(g: Glyphs, a: Draw, b: Draw) {
    a.page != b.page || Bottom(a) >= Top(b) || EndsBy(g, a, b.x)
  }

  // -------------------------------------------------- runs of the typesetter

  /** `draws` takes the cursor from `from` down to `to` without leaving the column
      and without two pieces of content touching. */
  ghost predicate Descends(c: Context, from: Pos, draws: seq<Draw>, to: Pos) {
    && from.page <= to.page < |c.tops|
    && to.y <= c.tops[to.page]
    && (from.page == to.page ==> to.y <= from.y)
    && AllBetween(c, from, draws, to)
    && AllApart(c.face.glyph, draws)
  }

  ghost predicate AllBetween(c: Context, from: Pos, draws: seq<Draw>, to: Pos) {
    forall i :: 0 <= i < |draws| ==>
      && from.page <= draws[i].page <= to.page
      && (draws[i].role.Content? ==> ContentBetween(c, from, draws[i], to))
  }

  ghost predicate ContentBetween(c: Context, from: Pos, d: Draw, to: Pos) {
    && Inside(c, d)
    && (d.page == from.page ==> Top(d) <= from.y)
    && (d.page == to.page ==> to.y <= Bottom(d))
  }

  ghost predicate AllApart(g: Glyphs, draws: seq<Draw>) {
    forall i, j :: 0 <= i < j < |draws| && draws[i].role.Content? && draws[j].role.Content? ==>
      Apart(g, draws[i], draws[j])
  }

  lemma DescendsThen(c: Context, a: Pos, first: seq<Draw>, b: Pos, second: seq<Draw>, z: Pos)
    requires Descends(c, a, first, b) && Descends(c, b, second, z)
    ensures Descends(c, a, first + second, z)
  {
    var draws := first + second;
    forall i, j | 0 <= i < j < |draws| && draws[i].role.Content? && draws[j].role.Content?
      ensures Apart(c.face.glyph, draws[i], draws[j])
    {
      if i < |first| && |first| <= j {
        assert draws[i] == first[i] && draws[j] == second[j - |first|];
      } else if j < |first| {
        assert draws[i] == first[i] && draws[j] == first[j];
      } else {
        assert draws[i] == second[i - |first|] && draws[j] == second[j - |first|];
      }
    }
  }

  lemma DescendsLower(c: Context, from: Pos, draws: seq<Draw>, to: Pos, gap: real)
    requires Descends(c, from, draws, to) && 0.0 <= gap
    ensures Descends(c, from, draws, Pos(to.page, to.y - gap))
  {}

  lemma Idle(c: Context, pos: Pos)
    requires pos.page < |c.tops| && pos.y <= c.tops[pos.page]
    ensures Descends(c, pos, [], pos)
  {}

  /** A run that keeps clear of a lower start may be said to begin there. */
  lemma DescendsFrom(c: Context, from: Pos, draws: seq<Draw>, to: Pos, y: real)
    requires Descends(c, from, draws, to) && from.page == to.page && to.y <= y
    requires forall d :: d in draws ==> Top(d) <= y
    ensures Descends(c, Pos(from.page, y), draws, to)
  {
    forall i | 0 <= i < |draws| ensures Top(draws[i]) <= y {
      assert draws[i] in draws;
    }
  }

  /** What the measurements of a block must satisfy for its slot to hold its ink. */
  ghost predicate BlockOk(g: Glyphs, b: Block, width: real, pad: real) {
    && Ink(b.lines) == WordInk(b.words)
    && b.lines != [] && LinesOk(g, b.lines, b.size, width)
    && 0.0 < b.size <= b.leading && 1.22 * b.size <= b.leading + pad
  }

  lemma SlotHoldsInk(g: Glyphs, d: Draw, width: real, pad: real)
    requires BlockOk(g, d.block, width, pad) && 0.1 <= width
    ensures Top(d) <= d.top && d.top - (Height(d.block) + pad) <= Bottom(d)
    ensures EndsBy(g, d, d.x + width + SLACK)
    ensures 0.0 < Height(d.block)
  {
    assert LinesHeight(|d.block.lines|, d.block.leading)
        == LinesHeight(|d.block.lines| - 1, d.block.leading) + d.block.leading;
    assert 0.0 <= LinesHeight(|d.block.lines| - 1, d.block.leading);
    forall i | 0 <= i < |d.block.lines|
      ensures d.x + LineWidth(g, d.block.lines[i], d.block.size) <= d.x + width + SLACK
    {
      assert LineOk(g, d.block.lines[i], d.block.size, width);
    }
  }

  /** A single content draw at the cursor. */
  lemma DrawDescends(c: Context, d: Draw, width: real, pad: real, drop: real)
    requires BlockOk(c.face.glyph, d.block, width, pad) && 0.1 <= width && 0.0 <= pad
    requires c.x <= d.x && d.x + width <= c.x + c.width
    requires d.page < |c.tops| && d.top <= c.tops[d.page]
    requires CONTENT_BOTTOM <= d.top - (Height(d.block) + pad)
    requires Height(d.block) + pad <= drop
    ensures Descends(c, Pos(d.page, d.top), [d], Pos(d.page, d.top - drop))
  {
    SlotHoldsInk(c.face.glyph, d, width, pad);
  }

  /** A heading carries no real content, so it only lowers the cursor. */
  lemma HeadingDescends(c: Context, d: Draw, drop: real)
    requires !d.role.Content? && 0.0 <= drop
    requires d.page < |c.tops| && d.top <= c.tops[d.page]
    ensures Descends(c, Pos(d.page, d.top), [d], Pos(d.page, d.top - drop))
  {}

  lemma AdvanceDescends(c: Context, pos: Pos, required: real)
    requires pos.page < |c.tops| && pos.y <= c.tops[pos.page]
    requires Advance(c.tops, pos, required).Some?
    ensures var at := Advance(c.tops, pos, required).value;
      Descends(c, pos, [], at) && at.y - required >= CONTENT_BOTTOM
  {}

  ghost predicate BlocksOk(g: Glyphs, blocks: seq<Block>, width: real, pad: real) {
    forall i :: 0 <= i < |blocks| ==> BlockOk(g, blocks[i], width, pad)
  }

  lemma {:induction false} StackHeightNonNegative(g: Glyphs, blocks: seq<Block>, width: real, pad: real, gap: real)
    requires BlocksOk(g, blocks, width, pad) && 0.0 <= gap
    ensures 0.0 <= StackHeight(blocks, gap)
  {
    if blocks != [] {
      assert BlockOk(g, blocks[0], width, pad);
      assert 0.0 <= Height(blocks[0]);
      StackHeightNonNegative(g, blocks[1..], width, pad, gap);
    }
  }

  lemma {:induction false} StackDescends(c: Context, blocks: seq<Block>, page: nat, x: real, y: real, gap: real,
                                        width: real)
    requires BlocksOk(c.face.glyph, blocks, width, gap) && 0.1 <= width && 0.0 <= gap
    requires c.x <= x && x + width <= c.x + c.width
    requires page < |c.tops| && y <= c.tops[page]
    requires CONTENT_BOTTOM <= y - StackHeight(blocks, gap)
    ensures Descends(c, Pos(page, y), Stack(blocks, page, x, y, gap), Pos(page, y - StackHeight(blocks, gap)))
    ensures forall d :: d in Stack(blocks, page, x, y, gap) ==>
      d.page == page && d.x == x && d.role.Content? && EndsBy(c.face.glyph, d, x + width + SLACK)
      && d.top <= y && d.block in blocks
  {
    hide AllBetween, AllApart, BlockOk, EndsBy, Top;
    if blocks == [] {
      Idle(c, Pos(page, y));
    } else {
      var step := Height(blocks[0]) + gap;
      var d := Draw(page, x, y, Content, blocks[0]);
      assert BlockOk(c.face.glyph, blocks[0], width, gap);
      StackHeightNonNegative(c.face.glyph, blocks[1..], width, gap, gap);
      SlotHoldsInk(c.face.glyph, d, width, gap);
      DrawDescends(c, d, width, gap, step);
      StackDescends(c, blocks[1..], page, x, y - step, gap, width);
      DescendsThen(c, Pos(page, y), [d], Pos(page, y - step),
                   Stack(blocks[1..], page, x, y - step, gap), Pos(page, y - StackHeight(blocks, gap)));
    }
  }

  // -------------------------------------------------------- the column's data

  /** styled_words yields words, and the template's own title is one word. */
  ghost predicate FaceOk(face: Face) {
    && GlyphsOk(face.glyph)
    && (forall n :: Words?(face.words(n)))
    && face.words(Node("layout", "Profile", ["layout"], [])) == [Word("Profile", false)]
  }

  ghost predicate ContextOk(c: Context) {
    && c.tops != [] && (forall p :: 0 <= p < |c.tops| ==> CONTENT_BOTTOM <= c.tops[p])
    && DensityOk(c.density) && FaceOk(c.face) && 151.0 <= c.width
  }

  lemma ProductNonNegative(a: real, b: real)
    requires 0.0 <= a && 0.0 <= b
    ensures 0.0 <= a * b
  {
    if a == 0.0 {
      assert a * b == 0.0;
    } else if b == 0.0 {
      assert a * b == 0.0;
    } else {
      assert a > 0.0 && b > 0.0;
    }
  }

  lemma ScaledWidth(size: real, unit: real)
    requires 0.0 <= size <= 14.0 && 0.0 <= unit <= 4.0
    ensures 0.0 <= size * unit <= 56.0
  {
    ProductNonNegative(size, unit);
    ProductNonNegative(size, 4.0 - unit);
    assert size * (4.0 - unit) == size * 4.0 - size * unit;
  }

  lemma GlyphsFitWidth(g: Glyphs, size: real, width: real)
    requires GlyphsOk(g) && 0.0 <= size <= 14.0 && 56.0 <= width
    ensures GlyphsFit(g, size, width)
  {
    forall f, c ensures 0.0 <= size * g(f, c) <= width {
      ScaledWidth(size, g(f, c));
    }
  }

  lemma WrapBlockOk(face: Face, node: Node, width: real, size: real, leading: real, regular: Font, bold: Font,
      pad: real)
    requires FaceOk(face) && 56.0 <= width
    requires 0.0 < size <= 14.0 && size <= leading && 1.22 * size <= leading + pad
    ensures BlockOk(face.glyph, WrapBlock(face, node, width, size, leading, regular, bold), width, pad)
  {
    GlyphsFitWidth(face.glyph, size, width);
    assert Words?(face.words(node));
    WrappedCorrect(face.glyph, face.words(node), size, width, regular, bold);
  }

  lemma HeaderBlocksOk(c: Context, kind: Kind, e: Entry)
    requires ContextOk(c)
    ensures BlocksOk(c.face.glyph, HeaderBlocks(c, kind, e), c.width, 1.0)
  {
    forall i | 0 <= i < |e.header| ensures BlockOk(c.face.glyph, HeaderBlock(c, kind, e.header[i], i), c.width, 1.0) {
      var b := HeaderBlock(c, kind, e.header[i], i);
      if kind == Experience && !c.sidebar {
        if i == 0 {
          WrapBlockOk(c.face, e.header[i], c.width, 9.6, 11.2, Bold, Bold, 1.0);
        } else {
          WrapBlockOk(c.face, e.header[i], c.width, 7.8, 9.5, Medium, Bold, 1.0);
        }
      } else {
        WrapBlockOk(c.face, e.header[i], c.width, b.size, b.leading, if i == 0 then Bold else Regular, Bold, 1.0);
      }
    }
  }

  function BodyWidth(c: Context): real { if c.sidebar then c.width else c.width - 10.0 }

  lemma BodyBlockOk(c: Context, node: Node)
    requires ContextOk(c)
    ensures BlockOk(c.face.glyph, BodyBlock(c, node), BodyWidth(c), c.density.bulletGap)
  {
    var b := BodyBlock(c, node);
    WrapBlockOk(c.face, node, BodyWidth(c), b.size, b.leading, Regular, Bold, c.density.bulletGap);
  }

  lemma BodyBlocksOk(c: Context, e: Entry)
    requires ContextOk(c)
    ensures BlocksOk(c.face.glyph, BodyBlocks(c, e), BodyWidth(c), c.density.bulletGap)
  {
    forall i | 0 <= i < |e.body|
      ensures BlockOk(c.face.glyph, BodyBlock(c, e.body[i]), BodyWidth(c), c.density.bulletGap)
    {
      BodyBlockOk(c, e.body[i]);
    }
  }

  // ---------------------------------------------------------------- entries

  lemma {:induction false} FlowBodiesDescends(c: Context, blocks: seq<Block>, pos: Pos)
    requires ContextOk(c) && BlocksOk(c.face.glyph, blocks, BodyWidth(c), c.density.bulletGap)
    requires pos.page < |c.tops| && pos.y <= c.tops[pos.page]
    requires FlowBodies(c, blocks, pos).Done?
    ensures var o := FlowBodies(c, blocks, pos); Descends(c, pos, o.draws, o.pos)
  {
    hide AllBetween, AllApart, Wrapped, BlockOk, Height, FaceOk;
    if blocks == [] {
      Idle(c, pos);
    } else {
      var step := Height(blocks[0]) + c.density.bulletGap;
      AdvanceDescends(c, pos, step);
      var at := Advance(c.tops, pos, step).value;
      var d := Draw(at.page, BodyX(c), at.y, Content, blocks[0]);
      assert BlockOk(c.face.glyph, blocks[0], BodyWidth(c), c.density.bulletGap);
      DrawDescends(c, d, BodyWidth(c), c.density.bulletGap, step);
      var next := Pos(at.page, at.y - step);
      DescendsThen(c, pos, [], at, [d], next);
      assert [] + [d] == [d];
      FlowBodiesDescends(c, blocks[1..], next);
      var o := FlowBodies(c, blocks[1..], next);
      DescendsThen(c, pos, [d], next, o.draws, o.pos);
    }
  }

  lemma DrawEntryDescends(c: Context, kind: Kind, e: Entry, pos: Pos)
    requires ContextOk(c)
    requires pos.page < |c.tops| && pos.y <= c.tops[pos.page]
    requires CONTENT_BOTTOM <= pos.y - StackHeight(HeaderBlocks(c, kind, e), 1.0)
    requires DrawEntry(c, kind, e, pos).Done?
    ensures var o := DrawEntry(c, kind, e, pos); Descends(c, pos, o.draws, o.pos)
  {
    hide AllBetween, AllApart, Wrapped, BlockOk, HeaderBlock, BodyBlock, Height, StackHeight, FaceOk, FlowBodies;
    var headers := HeaderBlocks(c, kind, e);
    var h := StackHeight(headers, 1.0);
    HeaderBlocksOk(c, kind, e);
    StackHeightNonNegative(c.face.glyph, headers, c.width, 1.0, 1.0);
    StackDescends(c, headers, pos.page, c.x, pos.y, 1.0, c.width);
    var stack := Stack(headers, pos.page, c.x, pos.y, 1.0);
    DescendsLower(c, pos, stack, Pos(pos.page, pos.y - h), 1.0);
    var mid := Pos(pos.page, pos.y - h - 1.0);
    BodyBlocksOk(c, e);
    FlowBodiesDescends(c, BodyBlocks(c, e), mid);
    var o := FlowBodies(c, BodyBlocks(c, e), mid);
    DescendsThen(c, pos, stack, mid, o.draws, o.pos);
  }

  lemma BodyStackNonNegative(c: Context, e: Entry)
    requires ContextOk(c)
    ensures 0.0 <= StackHeight(BodyBlocks(c, e), c.density.bulletGap)
  {
    BodyBlocksOk(c, e);
    StackHeightNonNegative(c.face.glyph, BodyBlocks(c, e), BodyWidth(c), c.density.bulletGap, c.density.bulletGap);
  }

  /** Both reservations cover the entry's header and two points. */
  lemma RequiredCoversHeader(c: Context, kind: Kind, e: Entry)
    requires ContextOk(c)
    ensures StackHeight(HeaderBlocks(c, kind, e), 1.0) + 2.0 <= Required(c, kind, e)
  {
    hide Wrapped, BlockOk, HeaderBlocks, BodyBlocks, BodyBlock, Capacity, FaceOk;
    BodyStackNonNegative(c, e);
    if e.body != [] {
      BodyHeightNonNegative(c, e.body[0]);
    }
  }

  lemma BodyHeightNonNegative(c: Context, node: Node)
    requires ContextOk(c)
    ensures 0.0 <= Height(BodyBlock(c, node))
  {
    hide Wrapped, FaceOk, LinesOk, DensityOk;
    BodyBlockOk(c, node);
  }

  lemma PlainHeightNonNegative(c: Context, id: string, text: string)
    requires ContextOk(c)
    ensures 0.0 <= Height(PlainBlock(c, id, text))
  {}

  lemma PlaceEntryDescends(c: Context, kind: Kind, e: Entry, pos: Pos)
    requires ContextOk(c)
    requires pos.page < |c.tops| && pos.y <= c.tops[pos.page]
    requires PlaceEntry(c, kind, e, pos).Done?
    ensures var o := PlaceEntry(c, kind, e, pos); Descends(c, pos, o.draws, o.pos)
  {
    hide AllBetween, AllApart, WrapBlock, Height, StackHeight, FaceOk, DrawEntry, TotalHeight, MinimumHeight, Capacity;
    var required := Required(c, kind, e);
    RequiredCoversHeader(c, kind, e);
    if pos.y - required < CONTENT_BOTTOM {
      var heading := ContinuationBlock(c, kind);
      var full := required + (Height(heading) + 10.0);
      AdvanceDescends(c, pos, full);
      var at := Advance(c.tops, pos, full).value;
      var d := Draw(at.page, c.x, at.y, Continuation, heading);
      PlainHeightNonNegative(c, "section-continuation",
        if kind == Experience then "Earlier experience" else "Continued");
      HeadingDescends(c, d, Height(heading) + 10.0);
      var mid := Pos(at.page, at.y - Height(heading) - 10.0);
      DescendsThen(c, pos, [], at, [d], mid);
      assert [] + [d] == [d];
      DrawEntryDescends(c, kind, e, mid);
      var o := DrawEntry(c, kind, e, mid);
      DescendsThen(c, pos, [d], mid, o.draws, o.pos);
    } else {
      DrawEntryDescends(c, kind, e, pos);
    }
  }

  lemma {:induction false} FlowEntriesDescends(c: Context, kind: Kind, entries: seq<Entry>, pos: Pos)
    requires ContextOk(c)
    requires pos.page < |c.tops| && pos.y <= c.tops[pos.page]
    requires FlowEntries(c, kind, entries, pos).Done?
    ensures var o := FlowEntries(c, kind, entries, pos); Descends(c, pos, o.draws, o.pos)
  {
    hide AllBetween, AllApart, PlaceEntry, FaceOk;
    if entries == [] {
      Idle(c, pos);
    } else {
      PlaceEntryDescends(c, kind, entries[0], pos);
      var first := PlaceEntry(c, kind, entries[0], pos);
      DescendsLower(c, pos, first.draws, first.pos, c.density.entryGap);
      var next := Pos(first.pos.page, first.pos.y - c.density.entryGap);
      FlowEntriesDescends(c, kind, entries[1..], next);
      var rest := FlowEntries(c, kind, entries[1..], next);
      DescendsThen(c, pos, first.draws, next, rest.draws, rest.pos);
    }
  }

  // ------------------------------------------------------------------ cards

  lemma MakeCardOk(c: Context, e: Entry)
    requires ContextOk(c) && |e.header| == 1 && |e.body| == 1
    ensures var card := MakeCard(c, e);
      && BlockOk(c.face.glyph, card.metric, CardWidth(c) - 14.0, 2.1)
      && 7.5 <= card.metric.size <= 14.0 && card.metric.leading == card.metric.size + 1.0
      && BlocksOk(c.face.glyph, card.labels, CardWidth(c) - 14.0, 1.0)
      && (forall b :: b in card.labels ==> b.size == 7.5)
      && CardLabels(e) == e.body
  {
    hide Wrapped, BlockOk, FaceOk, FontWidth, DensityOk;
    var node := e.header[0];
    var size := MetricSizeAt(MetricSteps(c, c.face.words(node), 0));
    WrapBlockOk(c.face, node, CardWidth(c) - 14.0, size, size + 1.0, Bold, Bold, 2.1);
    assert CardLabels(e) == e.body;
    forall i | 0 <= i < |e.body|
      ensures BlockOk(c.face.glyph, WrapBlock(c.face, e.body[i], CardWidth(c) - 14.0, 7.5, 9.0, Regular, Bold),
                      CardWidth(c) - 14.0, 1.0)
    {
      WrapBlockOk(c.face, e.body[i], CardWidth(c) - 14.0, 7.5, 9.0, Regular, Bold, 1.0);
    }
  }

  /** The metric's ink may hang 2.1 points below its slot, but the label's starts lower still. */
  lemma CardDescends(c: Context, e: Entry, page: nat, x: real, y: real, row: real)
    requires ContextOk(c) && |e.header| == 1 && |e.body| == 1
    requires page < |c.tops| && y <= c.tops[page]
    requires c.x <= x && x + CardWidth(c) <= c.x + c.width
    requires MakeCard(c, e).height <= row && CONTENT_BOTTOM <= y - row
    ensures Descends(c, Pos(page, y), DrawCard(MakeCard(c, e), page, x, y), Pos(page, y - row))
    ensures forall d :: d in DrawCard(MakeCard(c, e), page, x, y) ==>
      d.page == page && d.x == x + 7.0 && d.role.Content?
      && EndsBy(c.face.glyph, d, x + CardWidth(c) - 7.0 + SLACK)
  {
    hide AllBetween, AllApart, BlockOk, WrapBlock, LabelBlocks, MetricSteps, StackHeight, LinesHeight, FaceOk,
      CardLabels;
    MakeCardOk(c, e);
    var card := MakeCard(c, e);
    var g := c.face.glyph;
    var width := CardWidth(c) - 14.0;
    var d := Draw(page, x + 7.0, y - 7.0, Content, card.metric);
    SlotHoldsInk(g, d, width, 2.1);
    StackHeightNonNegative(g, card.labels, width, 1.0, 1.0);
    assert 15.0 + Height(card.metric) + StackHeight(card.labels, 1.0) <= card.height;
    var top := y - 7.0 - (Height(card.metric) + 2.0);
    CardParts(c, d, width, card.labels, top, y, y - row);
  }

  lemma CardParts(c: Context, d: Draw, width: real, labels: seq<Block>, top: real, y: real, end: real)
    requires c.tops != [] && 0.1 <= width && BlockOk(c.face.glyph, d.block, width, 2.1) && d.role.Content?
    requires BlocksOk(c.face.glyph, labels, width, 1.0) && forall b :: b in labels ==> b.size == 7.5
    requires d.page < |c.tops| && y <= c.tops[d.page] && d.top == y - 7.0
    requires c.x <= d.x && d.x + width <= c.x + c.width
    requires top == d.top - (Height(d.block) + 2.0)
    requires CONTENT_BOTTOM <= end && end <= top - StackHeight(labels, 1.0) - 1.0
    requires 0.0 <= StackHeight(labels, 1.0) && 0.0 <= Height(d.block)
    ensures var draws := [d] + Stack(labels, d.page, d.x, top, 1.0);
      && Descends(c, Pos(d.page, y), draws, Pos(d.page, end))
      && forall l :: l in draws ==>
        l.page == d.page && l.x == d.x && l.role.Content? && EndsBy(c.face.glyph, l, d.x + width + SLACK)
  {
    hide AllBetween, AllApart, BlockOk;
    var p := d.page;
    Idle(c, Pos(p, y));
    DescendsLower(c, Pos(p, y), [], Pos(p, y), 7.0);
    DrawDescends(c, d, width, 2.1, Height(d.block) + 2.1);
    DescendsThen(c, Pos(p, y), [], Pos(p, y - 7.0), [d], Pos(p, top - 0.1));
    assert [] + [d] == [d];
    StackDescends(c, labels, p, d.x, top, 1.0, width);
    var stack := Stack(labels, p, d.x, top, 1.0);
    DescendsLower(c, Pos(p, top), stack, Pos(p, top - StackHeight(labels, 1.0)),
                  top - StackHeight(labels, 1.0) - end);
    DescendsFrom(c, Pos(p, top), stack, Pos(p, end), top - 0.1);
    DescendsThen(c, Pos(p, y), [d], Pos(p, top - 0.1), stack, Pos(p, end));
    SlotHoldsInk(c.face.glyph, d, width, 2.1);
  }

  /** Two descents from the same line that stay side by side are one descent. */
  lemma SideBySide(c: Context, from: Pos, left: seq<Draw>, right: seq<Draw>, to: Pos, middle: real)
    requires Descends(c, from, left, to) && Descends(c, from, right, to)
    requires forall d :: d in left ==> EndsBy(c.face.glyph, d, middle)
    requires forall d :: d in right ==> middle <= d.x
    ensures Descends(c, from, left + right, to)
  {
    var draws := left + right;
    forall i, j | 0 <= i < j < |draws| && draws[i].role.Content? && draws[j].role.Content?
      ensures Apart(c.face.glyph, draws[i], draws[j])
    {
      if i < |left| && |left| <= j {
        assert draws[i] in left && draws[j] in right;
      } else if j < |left| {
        assert draws[i] == left[i] && draws[j] == left[j];
      } else {
        assert draws[i] == right[i - |left|] && draws[j] == right[j - |left|];
      }
    }
  }

  ghost predicate CardEntries(entries: seq<Entry>) {
    forall e :: e in entries ==> |e.header| == 1 && |e.body| == 1
  }

  lemma CardHeight(c: Context, e: Entry)
    requires e.header != []
    ensures 42.0 <= MakeCard(c, e).height
  {}

  lemma RowDescends(c: Context, entries: seq<Entry>, at: Pos)
    requires ContextOk(c) && entries != [] && CardEntries(entries)
    requires at.page < |c.tops| && at.y <= c.tops[at.page]
    requires CONTENT_BOTTOM <= at.y - RowHeight(c, entries)
    ensures Descends(c, at, DrawRow(c, entries, at), Pos(at.page, at.y - RowHeight(c, entries)))
    ensures 42.0 <= RowHeight(c, entries)
  {
    hide AllBetween, AllApart, FaceOk, MakeCard, DrawCard;
    var row := RowHeight(c, entries);
    CardHeight(c, entries[0]);
    CardDescends(c, entries[0], at.page, c.x, at.y, row);
    var left := DrawCard(MakeCard(c, entries[0]), at.page, c.x, at.y);
    if |entries| == 1 {
      assert left + [] == left;
    } else {
      var x := c.x + (CardWidth(c) + CARD_GAP);
      CardDescends(c, entries[1], at.page, x, at.y, row);
      var right := DrawCard(MakeCard(c, entries[1]), at.page, x, at.y);
      SideBySide(c, at, left, right, Pos(at.page, at.y - row), x);
    }
  }

  lemma CardAlike(a: Context, b: Context, e: Entry)
    requires a.face == b.face && a.width == b.width && e.header != []
    ensures MakeCard(a, e) == MakeCard(b, e)
  {
    hide WrapBlock, MetricSteps, StackHeight, Height;
    MetricStepsAlike(a, b, a.face.words(e.header[0]), 0);
    assert LabelBlocks(a, CardLabels(e)) == LabelBlocks(b, CardLabels(e));
  }

  /** Metric cards depend on the column, but neither on the density nor on the pages. */
  lemma RowsAlike(a: Context, b: Context, entries: seq<Entry>)
    requires a.face == b.face && a.x == b.x && a.width == b.width
    requires entries != [] && (forall e :: e in entries ==> e.header != [])
    ensures RowHeight(a, entries) == RowHeight(b, entries) >= 42.0
    ensures forall at :: DrawRow(a, entries, at) == DrawRow(b, entries, at)
  {
    hide MakeCard, DrawCard;
    CardAlike(a, b, entries[0]);
    CardHeight(b, entries[0]);
    if |entries| > 1 {
      CardAlike(a, b, entries[1]);
    }
  }

  lemma {:induction false} MetricStepsAlike(a: Context, b: Context, words: seq<Word>, steps: nat)
    requires a.face == b.face && a.width == b.width && steps <= 26
    ensures MetricSteps(a, words, steps) == MetricSteps(b, words, steps)
    decreases 26 - steps
  {
    hide FontWidth;
    if steps < 26 {
      MetricStepsAlike(a, b, words, steps + 1);
    }
  }

  lemma {:induction false} FlowCardsDescends(c: Context, entries: seq<Entry>, pos: Pos)
    requires ContextOk(c) && CardEntries(entries)
    requires pos.page < |c.tops| && pos.y <= c.tops[pos.page]
    requires FlowCards(c, entries, pos).Done?
    ensures var o := FlowCards(c, entries, pos); Descends(c, pos, o.draws, o.pos)
    decreases |entries|
  {
    hide AllBetween, AllApart, FaceOk, DrawRow, RowHeight;
    if entries == [] {
      Idle(c, pos);
    } else {
      var n := if |entries| == 1 then 1 else 2;
      var height := RowHeight(c, entries);
      AdvanceDescends(c, pos, height);
      var at := Advance(c.tops, pos, height).value;
      var row := DrawRow(c, entries, at);
      RowDescends(c, entries, at);
      DescendsLower(c, at, row, Pos(at.page, at.y - height), CARD_GAP);
      var next := Pos(at.page, at.y - (height + CARD_GAP));
      DescendsThen(c, pos, [], at, row, next);
      assert [] + row == row;
      FlowCardsDescends(c, entries[n..], next);
      var o := FlowCards(c, entries[n..], next);
      DescendsThen(c, pos, row, next, o.draws, o.pos);
    }
  }

  // ------------------------------------------------------- sections, column

  lemma FlowSectionDescends(c: Context, s: Section, pos: Pos)
    requires ContextOk(c) && WellFormedSection(s)
    requires pos.page < |c.tops| && pos.y <= c.tops[pos.page]
    requires FlowSection(c, s, pos).Done?
    ensures var o := FlowSection(c, s, pos); Descends(c, pos, o.draws, o.pos)
  {
    hide AllBetween, AllApart, FaceOk, FlowCards, FlowEntries, FirstReserve;
    var heading := HeadingBlock(c, s);
    PlainHeightNonNegative(c, s.id, s.title);
    var full := Height(heading) + 6.0 + FirstReserve(c, s);
    AdvanceDescends(c, pos, full);
    var at := Advance(c.tops, pos, full).value;
    var d := Draw(at.page, c.x, at.y, Heading, heading);
    HeadingDescends(c, d, Height(heading) + 3.0 + 7.0);
    var mid := Pos(at.page, at.y - (Height(heading) + 3.0) - 7.0);
    DescendsThen(c, pos, [], at, [d], mid);
    assert [] + [d] == [d];
    var o := SectionBody(c, s, mid);
    if s.kind == Metrics && c.sidebar {
      FlowCardsDescends(c, s.entries, mid);
    } else {
      FlowEntriesDescends(c, s.kind, s.entries, mid);
    }
    DescendsThen(c, pos, [d], mid, o.draws, o.pos);
    DescendsLower(c, pos, [d] + o.draws, o.pos, c.density.sectionGap);
  }

  lemma {:induction false} FlowSectionsDescends(c: Context, sections: seq<Section>, pos: Pos)
    requires ContextOk(c) && forall s :: s in sections ==> WellFormedSection(s)
    requires pos.page < |c.tops| && pos.y <= c.tops[pos.page]
    requires FlowSections(c, sections, pos).Done?
    ensures var o := FlowSections(c, sections, pos); Descends(c, pos, o.draws, o.pos)
  {
    hide AllBetween, AllApart, ContextOk, FlowSection;
    if sections == [] {
      Idle(c, pos);
    } else {
      FlowSectionDescends(c, sections[0], pos);
      var first := FlowSection(c, sections[0], pos);
      FlowSectionsDescends(c, sections[1..], first.pos);
      var rest := FlowSections(c, sections[1..], first.pos);
      DescendsThen(c, pos, first.draws, first.pos, rest.draws, rest.pos);
    }
  }

  /** "Profile" is one word of seven glyphs, so it sets in one line of the main column. */
  lemma ProfileHeadingHeight(c: Context)
    requires ContextOk(c) && 354.0 <= c.width
    ensures Height(ProfileHeading(c)) == 13.4
  {
    var g := c.face.glyph;
    var w := Word("Profile", false);
    assert c.face.words(Node("layout", "Profile", ["layout"], [])) == [w];
    ShortWord(g, "Profile", Display);
    assert FontWidth(g, "Profile", Display, 12.2) <= 12.2 * 28.0;
    OnePiece(g, Wrapping([], [], 0.0), "Profile", Display, 12.2, c.width);
    assert [w][..0] == [];
    assert "" + "Profile" == "Profile";
    assert PlaceWords(g, [w], 12.2, c.width, Display, Display)
        == PlaceWord(g, PlaceWords(g, [], 12.2, c.width, Display, Display), w, 12.2, c.width, Display, Display);
    assert |Wrapped(g, [w], 12.2, c.width, Display, Display)| == 1;
  }

  lemma {:induction false} ShortWord(g: Glyphs, text: string, font: Font)
    requires GlyphsOk(g)
    ensures 0.0 <= UnitWidth(g, text, font) <= 4.0 * |text| as real
  {
    if text != "" {
      ShortWord(g, text[..|text| - 1], font);
    }
  }

  lemma FlowProfileDescends(c: Context, profile: Option<Node>, pos: Pos)
    requires ContextOk(c) && (profile.Some? ==> 354.0 <= c.width)
    requires pos.page < |c.tops| && pos.y <= c.tops[pos.page]
    requires FlowProfile(c, profile, pos).Done?
    ensures var o := FlowProfile(c, profile, pos); Descends(c, pos, o.draws, o.pos)
  {
    hide AllBetween, AllApart, Wrapped, BlockOk, Height, FaceOk;
    match profile
    case None => Idle(c, pos);
    case Some(node) =>
      var heading := ProfileHeading(c);
      var body := ProfileBlock(c, node);
      ProfileHeadingHeight(c);
      var full := 13.4 + 8.0 + Height(body) + 9.0;
      AdvanceDescends(c, pos, full);
      var at := Advance(c.tops, pos, full).value;
      var h := Draw(at.page, c.x, at.y, Heading, heading);
      var y := at.y - (Height(heading) + 3.0) - 7.0;
      var d := Draw(at.page, c.x, y, Content, body);
      HeadingDescends(c, h, 23.4);
      DescendsThen(c, pos, [], at, [h], Pos(at.page, y));
      assert [] + [h] == [h];
      WrapBlockOk(c.face, node, c.width, c.density.bodySize, c.density.bodyLeading, Regular, Bold, 1.0);
      DrawDescends(c, d, c.width, 1.0, Height(body) + 9.0);
      DescendsThen(c, pos, [h], Pos(at.page, y), [d], Pos(at.page, y - (Height(body) + 9.0)));
      assert [h] + [d] == [h, d];
  }

  /** A whole column descends from the top of page one. */
  lemma FlowColumnDescends(c: Context, profile: Option<Node>, sections: seq<Section>)
    requires ContextOk(c) && (profile.Some? ==> 354.0 <= c.width)
    requires forall s :: s in sections ==> WellFormedSection(s)
    requires FlowColumn(c, profile, sections).Done?
    ensures var o := FlowColumn(c, profile, sections); Descends(c, Pos(0, c.tops[0]), o.draws, o.pos)
  {
    hide AllBetween, AllApart;
    var start := Pos(0, c.tops[0]);
    FlowProfileDescends(c, profile, start);
    var first := FlowProfile(c, profile, start);
    FlowSectionsDescends(c, sections, first.pos);
    var rest := FlowSections(c, sections, first.pos);
    DescendsThen(c, start, first.draws, first.pos, rest.draws, rest.pos);
  }
}
