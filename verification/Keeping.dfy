/** Which parts of a column share a page (resume-renderer-v2/app.py, 807-875, 902-993). */
module Keeping {
  import opened Basics
  import opened Text
  import opened Resume
  import opened Column
  import opened Geometry
  import opened Content

  /** The draws of one entry: its blocks once and in order, its header and first bullet on
      one page, and all of it on one page if its total height fits a page. */
  ghost predicate WellKept(c: Context, kind: Kind, e: Entry, blocks: seq<Block>, group: seq<Draw>)
    requires c.tops != []
  {
    && |group| == |e.header| + |e.body|
    && (forall d :: d in group ==> d.role.Content?)
    && Parts(group) == ContentParts(blocks)
    && (forall i :: 0 <= i < |group| && i <= |e.header| ==> group[i].page == group[0].page)
    && (FitsOnePage(c, kind, e) ==> forall d :: d in group ==> d.page == group[0].page)
  }

  lemma {:induction false} BodiesStay(c: Context, blocks: seq<Block>, width: real, pos: Pos)
    requires ContextOk(c) && BlocksOk(c.face.glyph, blocks, width, c.density.bulletGap)
    requires pos.y - StackHeight(blocks, c.density.bulletGap) >= CONTENT_BOTTOM
    ensures var o := FlowBodies(c, blocks, pos);
      o.Done? && o.pos.page == pos.page && forall d :: d in o.draws ==> d.page == pos.page
  {
    hide BlockOk, FaceOk;
    if blocks != [] {
      var step := Height(blocks[0]) + c.density.bulletGap;
      StackHeightNonNegative(c.face.glyph, blocks[1..], width, c.density.bulletGap, c.density.bulletGap);
      BodiesStay(c, blocks[1..], width, Pos(pos.page, pos.y - step));
    }
  }

  lemma FirstBodyStays(c: Context, blocks: seq<Block>, pos: Pos)
    requires blocks != [] && FlowBodies(c, blocks, pos).Done?
    requires pos.y - (Height(blocks[0]) + c.density.bulletGap) >= CONTENT_BOTTOM
    ensures var o := FlowBodies(c, blocks, pos); o.draws != [] && o.draws[0].page == pos.page
  {}

  /** With the required height free, an entry is drawn from its cursor as promised. */
  lemma DrawEntryKept(c: Context, kind: Kind, e: Entry, pos: Pos)
    requires ContextOk(c) && WellFormedEntry(e) && DrawEntry(c, kind, e, pos).Done?
    requires pos.y - Required(c, kind, e) >= CONTENT_BOTTOM
    ensures WellKept(c, kind, e, PlainBlocks(c, kind, e), DrawEntry(c, kind, e, pos).draws)
    ensures DrawEntry(c, kind, e, pos).draws[0].page == pos.page
  {
    hide HeaderBlock, BodyBlock, Capacity, FaceOk, BlockOk, Height, StackHeight, FlowBodies, Stack, Parts,
      ContentParts, DensityOk;
    var headers := HeaderBlocks(c, kind, e);
    var bodies := BodyBlocks(c, e);
    DrawEntryDraws(c, kind, e, pos);
    StackDraws(headers, pos.page, c.x, pos.y, 1.0);
    var mid := Pos(pos.page, pos.y - StackHeight(headers, 1.0) - 1.0);
    var stack := Stack(headers, pos.page, c.x, pos.y, 1.0);
    var o := DrawEntry(c, kind, e, pos);
    var rest := FlowBodies(c, bodies, mid);
    assert o.draws == stack + rest.draws;
    assert forall i :: 0 <= i < |stack| ==> stack[i] in stack;
    BodyBlocksOk(c, e);
    if FitsOnePage(c, kind, e) {
      BodiesStay(c, bodies, BodyWidth(c), mid);
    } else if e.body != [] {
      FirstBodyFits(c, kind, e, mid);
    }
  }

  lemma FirstBodyFits(c: Context, kind: Kind, e: Entry, mid: Pos)
    requires ContextOk(c) && e.body != [] && FlowBodies(c, BodyBlocks(c, e), mid).Done?
    requires mid.y - (Height(BodyBlock(c, e.body[0])) + c.density.bulletGap) >= CONTENT_BOTTOM
    ensures var o := FlowBodies(c, BodyBlocks(c, e), mid); o.draws != [] && o.draws[0].page == mid.page
  {
    hide BodyBlock, ContextOk;
    FirstBodyStays(c, BodyBlocks(c, e), mid);
  }

  /** The entry loop draws each entry well kept, after at most one continuation heading
      on the same page. */
  lemma PlaceEntryKept(c: Context, kind: Kind, e: Entry, pos: Pos) returns (k: nat)
    requires ContextOk(c) && WellFormedEntry(e) && PlaceEntry(c, kind, e, pos).Done?
    ensures var draws := PlaceEntry(c, kind, e, pos).draws;
      && k < |draws| && WellKept(c, kind, e, PlainBlocks(c, kind, e), draws[k..])
      && (pos.y - Required(c, kind, e) >= CONTENT_BOTTOM ==> k == 0 && draws[0].page == pos.page)
      && (pos.y - Required(c, kind, e) < CONTENT_BOTTOM ==>
            k == 1 && draws[0].role.Continuation? && draws[0].page == draws[1].page == pos.page + 1)
  {
    hide DrawEntry, Required, WellKept, PlainBlocks, FaceOk;
    var required := Required(c, kind, e);
    if pos.y - required < CONTENT_BOTTOM {
      k := 1;
      var heading := ContinuationBlock(c, kind);
      PlainHeightNonNegative(c, "section-continuation",
        if kind == Experience then "Earlier experience" else "Continued");
      var at := Advance(c.tops, pos, required + (Height(heading) + 10.0)).value;
      var mid := Pos(at.page, at.y - Height(heading) - 10.0);
      DrawEntryKept(c, kind, e, mid);
      DrawEntryDraws(c, kind, e, mid);
      assert PlaceEntry(c, kind, e, pos).draws[1..] == DrawEntry(c, kind, e, mid).draws;
    } else {
      k := 0;
      DrawEntryKept(c, kind, e, pos);
      DrawEntryDraws(c, kind, e, pos);
      assert PlaceEntry(c, kind, e, pos).draws[0..] == DrawEntry(c, kind, e, pos).draws;
    }
  }

  // -------------------------------------------------- every entry of a column

  /** Where in `draws` the entry's own draws are. */
  ghost predicate KeptAt(c: Context, kind: Kind, e: Entry, draws: seq<Draw>, from: nat, to: nat)
    requires c.tops != []
  {
    from <= to <= |draws| && WellKept(c, kind, e, EntryBlocks(c, kind, e), draws[from..to])
  }

  lemma SliceShifts(before: seq<Draw>, draws: seq<Draw>, after: seq<Draw>, from: nat, to: nat)
    requires from <= to <= |draws|
    ensures (before + draws + after)[|before| + from..|before| + to] == draws[from..to]
  {}

  lemma KeptShifts(c: Context, kind: Kind, e: Entry, before: seq<Draw>, draws: seq<Draw>, after: seq<Draw>, from: nat,
                   to: nat)
    requires c.tops != [] && KeptAt(c, kind, e, draws, from, to)
    ensures KeptAt(c, kind, e, before + draws + after, |before| + from, |before| + to)
  {
    hide WellKept, EntryBlocks;
    SliceShifts(before, draws, after, from, to);
  }

  lemma KeptToTheEnd(c: Context, kind: Kind, e: Entry, draws: seq<Draw>, k: nat)
    requires c.tops != [] && !(kind == Metrics && c.sidebar) && k <= |draws|
    requires WellKept(c, kind, e, PlainBlocks(c, kind, e), draws[k..])
    ensures KeptAt(c, kind, e, draws, k, |draws|)
  {
    hide WellKept, PlainBlocks;
    assert draws[k..] == draws[k..|draws|];
  }

  lemma {:induction false} FlowEntriesKept(c: Context, kind: Kind, entries: seq<Entry>, pos: Pos, j: nat)
    returns (from: nat, to: nat)
    requires ContextOk(c) && (forall e :: e in entries ==> WellFormedEntry(e))
    requires !(kind == Metrics && c.sidebar) && FlowEntries(c, kind, entries, pos).Done? && j < |entries|
    ensures KeptAt(c, kind, entries[j], FlowEntries(c, kind, entries, pos).draws, from, to)
  {
    hide PlaceEntry, KeptAt, WellKept, PlainBlocks, FaceOk, Required, WellFormedEntry, DensityOk;
    var first := PlaceEntry(c, kind, entries[0], pos);
    var next := Pos(first.pos.page, first.pos.y - c.density.entryGap);
    var rest := FlowEntries(c, kind, entries[1..], next);
    if j == 0 {
      var k := PlaceEntryKept(c, kind, entries[0], pos);
      from, to := k, |first.draws|;
      KeptToTheEnd(c, kind, entries[0], first.draws, k);
      KeptShifts(c, kind, entries[0], [], first.draws, rest.draws, from, to);
      assert [] + first.draws + rest.draws == first.draws + rest.draws;
    } else {
      from, to := FlowEntriesKept(c, kind, entries[1..], next, j - 1);
      KeptShifts(c, kind, entries[j], first.draws, rest.draws, [], from, to);
      assert first.draws + rest.draws + [] == first.draws + rest.draws;
      from, to := |first.draws| + from, |first.draws| + to;
    }
  }

  lemma CardKept(c: Context, e: Entry, page: nat, x: real, y: real)
    requires c.tops != [] && c.sidebar && |e.header| == 1 && |e.body| == 1
    ensures WellKept(c, Metrics, e, EntryBlocks(c, Metrics, e), DrawCard(MakeCard(c, e), page, x, y))
  {
    hide FitsOnePage, EntryBlocks, CardBlocks, MakeCard, DrawCard, Parts, ContentParts;
    DrawCardDraws(c, e, page, x, y);
  }

  /** The cards of a row, each kept whole. */
  lemma RowKept(c: Context, entries: seq<Entry>, at: Pos, rest: seq<Draw>, j: nat)
    returns (from: nat, to: nat)
    requires c.tops != [] && c.sidebar && CardEntries(entries) && j < |entries| && j < 2
    ensures KeptAt(c, Metrics, entries[j], DrawRow(c, entries, at) + rest, from, to)
  {
    hide MakeCard, DrawCard, WellKept;
    var row := DrawRow(c, entries, at);
    var left := DrawCard(MakeCard(c, entries[0]), at.page, c.x, at.y);
    if j == 0 {
      CardKept(c, entries[0], at.page, c.x, at.y);
      from, to := 0, |left|;
      assert (row + rest)[0..|left|] == left;
    } else {
      var x := c.x + (CardWidth(c) + CARD_GAP);
      var right := DrawCard(MakeCard(c, entries[1]), at.page, x, at.y);
      CardKept(c, entries[1], at.page, x, at.y);
      from, to := |left|, |left| + |right|;
      assert (row + rest)[|left|..|left| + |right|] == right;
    }
  }

  lemma {:induction false} FlowCardsKept(c: Context, entries: seq<Entry>, pos: Pos, j: nat)
    returns (from: nat, to: nat)
    requires c.tops != [] && c.sidebar && CardEntries(entries) && FlowCards(c, entries, pos).Done? && j < |entries|
    ensures KeptAt(c, Metrics, entries[j], FlowCards(c, entries, pos).draws, from, to)
    decreases |entries|
  {
    hide MakeCard, DrawRow, RowHeight, WellKept, Advance;
    var n := if |entries| == 1 then 1 else 2;
    var at := Advance(c.tops, pos, RowHeight(c, entries)).value;
    var next := Pos(at.page, at.y - (RowHeight(c, entries) + CARD_GAP));
    var row := DrawRow(c, entries, at);
    var rest := FlowCards(c, entries[n..], next);
    if j < n {
      from, to := RowKept(c, entries, at, rest.draws, j);
    } else {
      from, to := FlowCardsKept(c, entries[n..], next, j - n);
      KeptShifts(c, Metrics, entries[j], row, rest.draws, [], from, to);
      assert row + rest.draws + [] == row + rest.draws;
      from, to := |row| + from, |row| + to;
    }
  }

  lemma FlowSectionKept(c: Context, s: Section, pos: Pos, j: nat) returns (from: nat, to: nat)
    requires ContextOk(c) && WellFormedSection(s) && FlowSection(c, s, pos).Done? && j < |s.entries|
    ensures KeptAt(c, s.kind, s.entries[j], FlowSection(c, s, pos).draws, from, to)
  {
    hide FlowCards, FlowEntries, FirstReserve, KeptAt, FaceOk, Wrapped;
    var heading := HeadingBlock(c, s);
    var at := Advance(c.tops, pos, Height(heading) + 6.0 + FirstReserve(c, s)).value;
    var mid := Pos(at.page, at.y - (Height(heading) + 3.0) - 7.0);
    var body := SectionBody(c, s, mid);
    if s.kind == Metrics && c.sidebar {
      from, to := FlowCardsKept(c, s.entries, mid, j);
    } else {
      from, to := FlowEntriesKept(c, s.kind, s.entries, mid, j);
    }
    var d := Draw(at.page, c.x, at.y, Heading, heading);
    KeptShifts(c, s.kind, s.entries[j], [d], body.draws, [], from, to);
    assert [d] + body.draws + [] == [d] + body.draws;
    from, to := 1 + from, 1 + to;
  }

  lemma {:induction false} FlowSectionsKept(c: Context, sections: seq<Section>, pos: Pos, i: nat, j: nat)
    returns (from: nat, to: nat)
    requires ContextOk(c) && (forall s :: s in sections ==> WellFormedSection(s))
    requires FlowSections(c, sections, pos).Done? && i < |sections| && j < |sections[i].entries|
    ensures KeptAt(c, sections[i].kind, sections[i].entries[j], FlowSections(c, sections, pos).draws, from, to)
  {
    hide FlowSection, KeptAt, FaceOk;
    var first := FlowSection(c, sections[0], pos);
    var rest := FlowSections(c, sections[1..], first.pos);
    var s, e := sections[i], sections[i].entries[j];
    if i == 0 {
      from, to := FlowSectionKept(c, sections[0], pos, j);
      KeptShifts(c, s.kind, e, [], first.draws, rest.draws, from, to);
      assert [] + first.draws + rest.draws == first.draws + rest.draws;
    } else {
      from, to := FlowSectionsKept(c, sections[1..], first.pos, i - 1, j);
      KeptShifts(c, s.kind, e, first.draws, rest.draws, [], from, to);
      assert first.draws + rest.draws + [] == first.draws + rest.draws;
      from, to := |first.draws| + from, |first.draws| + to;
    }
  }

  /** Every entry of a column that does not overflow has its draws together: header and
      first bullet on one page, and the whole entry on one page if it fits a page. */
  lemma EveryEntryKept(c: Context, profile: Option<Node>, sections: seq<Section>, i: nat, j: nat)
    returns (from: nat, to: nat)
    requires ContextOk(c) && (forall s :: s in sections ==> WellFormedSection(s))
    requires FlowColumn(c, profile, sections).Done? && i < |sections| && j < |sections[i].entries|
    ensures KeptAt(c, sections[i].kind, sections[i].entries[j], FlowColumn(c, profile, sections).draws, from, to)
  {
    hide FlowProfile, FlowSections, KeptAt, FaceOk;
    var first := FlowProfile(c, profile, Pos(0, c.tops[0]));
    var rest := FlowSections(c, sections, first.pos);
    from, to := FlowSectionsKept(c, sections, first.pos, i, j);
    KeptShifts(c, sections[i].kind, sections[i].entries[j], first.draws, rest.draws, [], from, to);
    assert first.draws + rest.draws + [] == first.draws + rest.draws;
    from, to := |first.draws| + from, |first.draws| + to;
  }

  // ------------------------------------------- a heading and its first entry

  lemma FirstReserveIsRequired(c: Context, s: Section)
    requires c.tops != [] && s.entries != [] && s.kind != Metrics
    ensures FirstReserve(c, s) == Required(c, s.kind, s.entries[0])
  {}

  /** Where a section's heading goes, if there is room for what it reserves. */
  function HeadingAt(c: Context, s: Section, pos: Pos): Option<Pos>
    requires c.tops != [] && s.entries != []
  {
    Advance(c.tops, pos, Height(HeadingBlock(c, s)) + 6.0 + FirstReserve(c, s))
  }

  /** What is left under a heading at `at` and its ten points. */
  function LeftUnder(c: Context, s: Section, at: Pos): real {
    at.y - (Height(HeadingBlock(c, s)) + 10.0) - CONTENT_BOTTOM
  }

  /** A heading reserves six points under its lines but uses ten.  So its first entry is on
      the heading's page exactly when the four points more are free as well; otherwise the
      heading stays behind and the entry starts the next page under a continuation heading. */
  lemma HeadingAndFirstEntry(c: Context, s: Section, pos: Pos)
    requires ContextOk(c) && WellFormedSection(s) && s.kind != Metrics && FlowSection(c, s, pos).Done?
    ensures HeadingAt(c, s, pos).Some?
    ensures var draws, at := FlowSection(c, s, pos).draws, HeadingAt(c, s, pos).value;
      && |draws| >= 2 && draws[0] == Draw(at.page, c.x, at.y, Heading, HeadingBlock(c, s))
      && (LeftUnder(c, s, at) >= FirstReserve(c, s) ==> draws[1].role.Content? && draws[1].page == at.page)
      && (LeftUnder(c, s, at) < FirstReserve(c, s) ==> draws[1].role.Continuation? && draws[1].page == at.page + 1)
  {
    hide PlaceEntry, Required, FirstReserve, WellKept, FaceOk, Wrapped;
    var heading := HeadingBlock(c, s);
    var at := Advance(c.tops, pos, Height(heading) + 6.0 + FirstReserve(c, s)).value;
    var mid := Pos(at.page, at.y - (Height(heading) + 3.0) - 7.0);
    FirstReserveIsRequired(c, s);
    var k := PlaceEntryKept(c, s.kind, s.entries[0], mid);
    PlaceEntryContent(c, s.kind, s.entries[0], mid, k);
  }

  lemma PlaceEntryContent(c: Context, kind: Kind, e: Entry, pos: Pos, k: nat)
    requires ContextOk(c) && WellFormedEntry(e) && PlaceEntry(c, kind, e, pos).Done?
    requires k < |PlaceEntry(c, kind, e, pos).draws|
      && WellKept(c, kind, e, PlainBlocks(c, kind, e), PlaceEntry(c, kind, e, pos).draws[k..])
    ensures PlaceEntry(c, kind, e, pos).draws[k].role.Content?
  {
    hide PlaceEntry, FitsOnePage, Parts, ContentParts, PlainBlocks;
    var group := PlaceEntry(c, kind, e, pos).draws[k..];
    assert group[0] in group;
  }

  /** A heading of metric cards reserves 49 points for its first row and six under its lines,
      whatever the row needs.  The first row is on the heading's page exactly when the row and
      the ten points used under the heading fit there; otherwise the heading stays behind and
      the cards open the next page, under no heading at all. */
  lemma MetricsHeadingAndFirstRow(c: Context, s: Section, pos: Pos)
    requires ContextOk(c) && WellFormedSection(s) && s.kind == Metrics && c.sidebar && FlowSection(c, s, pos).Done?
    ensures HeadingAt(c, s, pos).Some?
    ensures var draws, at := FlowSection(c, s, pos).draws, HeadingAt(c, s, pos).value;
      && |draws| >= 2 && draws[0] == Draw(at.page, c.x, at.y, Heading, HeadingBlock(c, s)) && draws[1].role.Content?
      && (LeftUnder(c, s, at) >= RowHeight(c, s.entries) ==> draws[1].page == at.page)
      && (LeftUnder(c, s, at) < RowHeight(c, s.entries) ==>
            draws[1].page == at.page + 1 && draws[1].top == c.tops[at.page + 1] - 7.0)
  {
    hide MakeCard, FirstReserve, RowHeight, FaceOk, Wrapped;
    var heading := HeadingBlock(c, s);
    var at := Advance(c.tops, pos, Height(heading) + 6.0 + FirstReserve(c, s)).value;
    var mid := Pos(at.page, at.y - (Height(heading) + 3.0) - 7.0);
    var o := FlowCards(c, s.entries, mid);
    var row := Advance(c.tops, mid, RowHeight(c, s.entries)).value;
    assert o.draws[0] == DrawRow(c, s.entries, row)[0];
  }

  /** The heading of a continued section takes this much of its page. */
  function ContinuationRoom(c: Context, kind: Kind): real { Height(ContinuationBlock(c, kind)) + 10.0 }

  /** An entry that fits a page overflows the layout exactly when it fits neither under the
      cursor nor on the next page with the continuation heading above it.  The engine asks for
      the page with the heading even where the entry alone would have fitted. */
  lemma FittingEntryOverflows(c: Context, kind: Kind, e: Entry, pos: Pos)
    requires ContextOk(c) && WellFormedEntry(e) && FitsOnePage(c, kind, e)
    requires pos.page < |c.tops| && pos.y <= c.tops[pos.page]
    ensures var total := TotalHeight(c, kind, e) + 2.0;
      PlaceEntry(c, kind, e, pos).Overflow?
      <==> && pos.y - total < CONTENT_BOTTOM
           && (pos.page + 1 < |c.tops| ==>
                 c.tops[pos.page + 1] - (total + ContinuationRoom(c, kind)) < CONTENT_BOTTOM)
  {
    hide ContinuationBlock, FaceOk, TotalHeight, DrawEntry, Required;
    FittingEntryRequires(c, kind, e);
    var total := TotalHeight(c, kind, e) + 2.0;
    ContinuationHeight(c, kind);
    if pos.y - total >= CONTENT_BOTTOM {
      FittingEntryDrawn(c, kind, e, pos);
    } else if pos.page + 1 < |c.tops| && c.tops[pos.page + 1] - (total + ContinuationRoom(c, kind)) >= CONTENT_BOTTOM {
      var next := pos.page + 1;
      FittingEntryDrawn(c, kind, e, Pos(next, c.tops[next] - Height(ContinuationBlock(c, kind)) - 10.0));
    }
  }

  lemma FittingEntryRequires(c: Context, kind: Kind, e: Entry)
    requires c.tops != [] && FitsOnePage(c, kind, e)
    ensures Required(c, kind, e) == TotalHeight(c, kind, e) + 2.0
  {}

  lemma ContinuationHeight(c: Context, kind: Kind)
    requires ContextOk(c)
    ensures 0.0 <= Height(ContinuationBlock(c, kind))
  {
    PlainHeightNonNegative(c, "section-continuation", if kind == Experience then "Earlier experience" else "Continued");
  }

  lemma FittingEntryDrawn(c: Context, kind: Kind, e: Entry, pos: Pos)
    requires ContextOk(c) && pos.y - (TotalHeight(c, kind, e) + 2.0) >= CONTENT_BOTTOM
    ensures DrawEntry(c, kind, e, pos).Done?
  {
    hide HeaderBlock, BodyBlock, Height, StackHeight, FlowBodies, Stack;
    BodyBlocksOk(c, e);
    BodiesStay(c, BodyBlocks(c, e), BodyWidth(c),
               Pos(pos.page, pos.y - StackHeight(HeaderBlocks(c, kind, e), 1.0) - 1.0));
  }

  /** So a section whose first entry fits a page by itself, but not together with the section's
      heading and not with the continuation heading, cannot be laid out anywhere. */
  lemma FirstEntryTooTallForItsHeading(c: Context, s: Section, pos: Pos)
    requires ContextOk(c) && WellFormedSection(s) && s.kind != Metrics
    requires pos.page < |c.tops| && pos.y <= c.tops[pos.page]
    requires FitsOnePage(c, s.kind, s.entries[0])
    requires TotalHeight(c, s.kind, s.entries[0]) + 2.0 + Height(HeadingBlock(c, s)) + 10.0 > Capacity(c.tops)
    requires TotalHeight(c, s.kind, s.entries[0]) + 2.0 + ContinuationRoom(c, s.kind) > Capacity(c.tops)
    ensures FlowSection(c, s, pos).Overflow?
  {
    hide ContinuationBlock, FaceOk, TotalHeight, PlaceEntry, FirstReserve, HeadingBlock, Capacity;
    CapacityCovers(c.tops);
    var first := s.entries[0];
    var at := Advance(c.tops, pos, Height(HeadingBlock(c, s)) + 6.0 + FirstReserve(c, s));
    if at.Some? {
      var mid := Pos(at.value.page, at.value.y - (Height(HeadingBlock(c, s)) + 3.0) - 7.0);
      assert 0.0 <= Height(HeadingBlock(c, s)) by { HeadingHeight(c, s); }
      FittingEntryOverflows(c, s.kind, first, mid);
      assert PlaceEntry(c, s.kind, first, mid).Overflow?;
      assert FlowEntries(c, s.kind, s.entries, mid).Overflow?;
    }
  }

  lemma HeadingHeight(c: Context, s: Section)
    requires ContextOk(c)
    ensures 0.0 <= Height(HeadingBlock(c, s))
  {
    PlainHeightNonNegative(c, s.id, s.title);
  }

  lemma {:induction false} CapacityCovers(tops: seq<real>)
    requires tops != []
    ensures forall p :: 0 <= p < |tops| ==> tops[p] - CONTENT_BOTTOM <= Capacity(tops)
  {
    if |tops| > 1 {
      CapacityCovers(tops[..|tops| - 1]);
    }
  }
}
