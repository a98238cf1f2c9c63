/** Resumes of two pages that the layout sets worse than it could: a heading alone at the foot of
    page one, a heading of metric cards left there, and an entry that is refused although a page
    has room for it (resume-renderer-v2/app.py, 807-993). */
module LeftBehind {
  import opened Basics
  import opened Text
  import opened Reading
  import opened Resume
  import opened Column
  import opened Geometry
  import opened Layout
  import opened Content
  import opened Keeping
  import opened Masthead
  import opened Ats
  import opened PlainFont
  import opened SampleColumn

  const ADA: Candidate := Candidate(Node("name", "Ada", ["claim"], []), Node("headline", "Engineer", ["claim"], []), [])

  function Resumed(sections: seq<Section>): Ast { Ast(ADA, None, sections, 2) }

  /** None of the one-page candidates fits, so the renderer goes on to two pages. */
  ghost predicate NeedsTwoPages(ast: Ast) {
    WellFormed(ast) && forall d :: d in DENSITIES ==> LayoutOf(PLAIN_FACE, ast, d, 1).LayoutOverflow?
  }

  lemma PageTops()
    ensures ContentTops(1) == [666.0] && ContentTops(2) == [666.0, 696.0]
  {}

  lemma TwoMainSections(s: Section, rest: seq<Section>)
    requires WORK.placement == s.placement == Main && forall r :: r in rest ==> r.placement == Sidebar
    ensures Placed([WORK, s] + rest, Main) == [WORK, s] && Placed([WORK, s] + rest, Sidebar) == rest
  {
    hide WORK, Placed;
    AllAside(rest);
    PlacedFirst(s, rest, Main);
    PlacedFirst(s, rest, Sidebar);
    PlacedFirst(WORK, [s] + rest, Main);
    PlacedFirst(WORK, [s] + rest, Sidebar);
    assert [WORK] + ([s] + rest) == [WORK, s] + rest;
  }

  lemma PlacedFirst(s: Section, rest: seq<Section>, placement: Placement)
    ensures Placed([s] + rest, placement) == (if s.placement == placement then [s] else []) + Placed(rest, placement)
  {
    assert ([s] + rest)[1..] == rest;
  }

  lemma {:induction false} AllAside(sections: seq<Section>)
    requires forall r :: r in sections ==> r.placement == Sidebar
    ensures Placed(sections, Main) == [] && Placed(sections, Sidebar) == sections
  {
    if sections != [] {
      AllAside(sections[1..]);
    }
  }

  /** A main column whose second section overflows at the foot of a page does not fit one page. */
  lemma MainNeedsTwoPages(s: Section, rest: seq<Section>)
    requires WellFormed(Resumed([WORK, s] + rest)) && WORK.placement == s.placement == Main
    requires WellFormedSection(WORK) && WellFormedSection(s) && forall r :: r in rest ==> r.placement == Sidebar
    requires forall c, y :: Sample(c) && c.tops == [666.0] && !c.sidebar && 354.0 <= c.width <= 528.0 && y <= 144.4 ==>
      FlowSection(c, s, Pos(0, y)).Overflow?
    ensures NeedsTwoPages(Resumed([WORK, s] + rest))
  {
    hide WORK, WellFormed, WellFormedSection, FlowSection;
    var ast := Resumed([WORK, s] + rest);
    PageTops();
    TwoMainSections(s, rest);
    forall d | d in DENSITIES ensures LayoutOf(PLAIN_FACE, ast, d, 1).LayoutOverflow? {
      var c := MainContext(PLAIN_FACE, ast, d, 1);
      assert Sample(c) && 354.0 <= c.width <= 528.0;
      OnePageOverflows(c, s);
      MainOverflows(ast, d, 1);
    }
  }

  lemma MainOverflows(ast: Ast, d: Density, maximumPages: nat)
    requires WellFormed(ast) && 1 <= maximumPages
    requires forall s :: s in Placed(ast.sections, Main) ==> WellFormedSection(s)
    requires FlowColumn(MainContext(PLAIN_FACE, ast, d, maximumPages), ast.summary,
      Placed(ast.sections, Main)).Overflow?
    ensures LayoutOf(PLAIN_FACE, ast, d, maximumPages).LayoutOverflow?
  {
    hide FlowColumn, WellFormedSection;
    PlacedMembers(ast.sections, Main);
    PlacedMembers(ast.sections, Sidebar);
  }

  // ------------------------------------------------- a heading and its first entry

  const MORE: Section := Section("more", "More", Custom, Main, [HeaderEntry('d')] + TallyEntries('e', 'f', 'g', 12))

  lemma MoreOk()
    ensures WellFormedSection(MORE) && Solid(MORE.title) && |MORE.title| == 4 && MORE.kind == Custom
      && MORE.placement == Main
    ensures MORE.entries[0] == HeaderEntry('d') && MORE.entries[1..] == TallyEntries('e', 'f', 'g', 12)
  {
    hide TallyEntries;
    assert WellFormedEntry(HeaderEntry('d'));
  }

  lemma MoreHeaded(c: Context)
    requires Sample(c)
    ensures Height(HeadingBlock(c, MORE)) == 13.4 && FirstReserve(c, MORE) == Leading(c) + 3.0
  {
    hide HeaderEntry, TotalHeight, Capacity, Height, PlainBlock, TallyEntries;
    MoreOk();
    TitleIsOneLine(c, "more", "More");
    HeaderDrawn(c, 'd', Pos(0, 0.0));
    LinesAreSmall(c);
  }

  /** Its entries from a cursor under the heading. */
  lemma MoreEntries(c: Context, pos: Pos)
    requires Sample(c)
    ensures c.tops != []
    ensures FlowEntries(c, Custom, MORE.entries, pos)
         == match Lower(PlaceEntry(c, Custom, HeaderEntry('d'), pos), c.density.entryGap)
            case Overflow => Overflow
            case Done(next, draws) => Prepend(draws, FlowEntries(c, Custom, TallyEntries('e', 'f', 'g', 12), next))
  {
    hide PlaceEntry, HeaderEntry, TallyEntries, MORE;
    MoreOk();
  }

  lemma MoreAtTheFoot(c: Context, y: real)
    requires Sample(c) && c.tops == [666.0] && !c.sidebar && y <= 144.4 && WellFormedSection(MORE)
    ensures FlowSection(c, MORE, Pos(0, y)).Overflow?
  {
    hide FlowEntries, PlaceEntry, TallyEntries, HeaderEntry, MORE, HeadingBlock, FirstReserve, Sample, Step, Leading,
      WellFormedSection, Height, FlowSection;
    MoreHeaded(c);
    MoreOk();
    TwelveReserve(c);
    HeadedFlow(c, MORE, Pos(0, y));
    var mid := Pos(0, y - 23.4);
    MoreEntries(c, mid);
    if FlowEntries(c, Custom, MORE.entries, mid).Done? {
      HeaderPlaced(c, 'd', mid);
      LeadingIsHigh(c);
      DownIsTimes(Step(c), 12);
      TalliesOnLastPage(c, 'e', 'f', 'g', 12, Pos(0, mid.y - (Leading(c) + 2.0) - c.density.entryGap));
    }
  }

  lemma LeadingIsHigh(c: Context)
    requires Sample(c) && !c.sidebar
    ensures 10.2 <= Leading(c) && 3.5 <= c.density.entryGap <= 8.0
  {
    LinesAreSmall(c);
  }

  ghost predicate Standard(c: Context) {
    Sample(c) && c.density == DENSITIES[2] && c.tops == [666.0, 696.0] && !c.sidebar
  }

  lemma StandardLines(c: Context)
    requires Standard(c)
    ensures Leading(c) == 10.8 && EntryHeight(c) == 39.4 && Step(c) == 45.4 && c.density.entryGap == 5.0
      && c.density.sectionGap == 6.5
  {}

  lemma WorkFlows(c: Context)
    requires Standard(c) && WellFormedSection(WORK)
    ensures c.tops != []
    ensures var o := FlowSection(c, WORK, Pos(0, 666.0)); o.Done? && o.pos == Pos(0, 91.3) && |o.draws| == 37
  {
    hide FlowSection, TallyEntries, Step, WellFormedSection;
    WorkOk();
    StandardLines(c);
    TwelveFlow(c, WORK, 'a', 'b', 'c');
  }

  /** 35.3 points are left: enough for what the heading of the second section reserves, 33.2,
      but not for the 37.2 that it and its first entry take. */
  lemma MoreFlows(c: Context)
    requires Standard(c) && ContextOk(c) && WellFormedSection(MORE)
    ensures var o := FlowSection(c, MORE, Pos(0, 91.3));
      && o.Done? && |o.draws| >= 2 && o.draws[0] == Draw(0, c.x, 91.3, Heading, HeadingBlock(c, MORE))
      && o.draws[1].role.Continuation? && o.draws[1].page == 1
  {
    hide TallyEntries, HeaderEntry, MORE, HeadingBlock, FirstReserve, Sample, Step, Leading, WellFormedSection,
      ContextOk, PlaceEntry, FlowEntries, Height, FlowSection;
    MoreHeaded(c);
    MoreOk();
    StandardLines(c);
    var mid := Pos(0, 67.9);
    HeadedFlow(c, MORE, Pos(0, 91.3));
    MoreEntries(c, mid);
    HeaderContinued(c, mid);
    DownIsTimes(Step(c), 12);
    TalliesPlaced(c, 'e', 'f', 'g', 12, Pos(1, 654.8));
    assert FlowEntries(c, Custom, MORE.entries, mid).Done?;
    HeadingAndFirstEntry(c, MORE, Pos(0, 91.3));
  }

  lemma HeaderContinued(c: Context, pos: Pos)
    requires Standard(c) && pos == Pos(0, 67.9)
    ensures c.tops != []
    ensures var o := PlaceEntry(c, Custom, HeaderEntry('d'), pos); o.Done? && o.pos == Pos(1, 659.8)
  {
    StandardLines(c);
    var heading := ContinuationBlock(c, Custom);
    var mid := Pos(1, 696.0 - Height(heading) - 10.0);
    HeaderDrawn(c, 'd', mid);
    assert Height(heading) == 13.4 by { ContinuationIsOneLine(c); }
    FittingEntryRequires(c, Custom, HeaderEntry('d'));
    hide ContinuationBlock, Height, HeaderEntry, DrawEntry, Required, TotalHeight, FitsOnePage, Sample, Leading;
    assert Advance(c.tops, pos, 13.8 + 23.4) == Some(Pos(1, 696.0));
  }

  /** A well-formed resume that fits no single page at any density, and that the first two-page
      candidate sets with the heading of its second section alone at the foot of page one: what
      follows is the continuation heading at the top of page two. */
  lemma HeadingIsLeftBehind()
    ensures NeedsTwoPages(Resumed([WORK, MORE]))
    ensures LayoutOf(PLAIN_FACE, Resumed([WORK, MORE]), DENSITIES[2], 2).Laid?
    ensures var draws := LayoutOf(PLAIN_FACE, Resumed([WORK, MORE]), DENSITIES[2], 2).main;
      && |draws| > 38 && draws[37].role.Heading? && draws[37].block.id == "more" && draws[37].page == 0
      && draws[38].role.Continuation? && draws[38].page == 1
  {
    hide FlowSection, FaceOk, ContextOk, WORK, MORE, WellFormedSection, Sample;
    WorkOk();
    MoreOk();
    WorkPlacement();
    MoreNeedsTwoPages();
    var c := TwoPageMain(MORE, []);
    assert [WORK, MORE] + [] == [WORK, MORE];
    WorkFlows(c);
    MoreFlows(c);
    TwoSectionsFlow(c, WORK, MORE, 91.3);
    MoreHasItsId(c);
  }

  /** The main column of the first two-page candidate. */
  lemma TwoPageMain(s: Section, rest: seq<Section>) returns (c: Context)
    requires WellFormed(Resumed([WORK, s] + rest)) && WORK.placement == s.placement == Main
    requires forall r :: r in rest ==> r.placement == Sidebar
    ensures c == MainContext(PLAIN_FACE, Resumed([WORK, s] + rest), DENSITIES[2], 2) && Standard(c) && ContextOk(c)
    ensures c.tops != [] && forall r :: r in [WORK, s] ==> WellFormedSection(r)
    ensures LayoutOf(PLAIN_FACE, Resumed([WORK, s] + rest), DENSITIES[2], 2).Laid? ==>
      FlowColumn(c, None, [WORK, s]).Done?
      && LayoutOf(PLAIN_FACE, Resumed([WORK, s] + rest), DENSITIES[2], 2).main == FlowColumn(c, None, [WORK, s]).draws
    ensures FlowColumn(c, None, [WORK, s]).Done? && rest == [] ==>
      LayoutOf(PLAIN_FACE, Resumed([WORK, s] + rest), DENSITIES[2], 2).Laid?
  {
    hide FlowColumn, FaceOk, ContextOk, WORK, WellFormedSection, Sample;
    var ast := Resumed([WORK, s] + rest);
    TwoMainSections(s, rest);
    PlainFaceOk();
    PageTops();
    ContextsOk(PLAIN_FACE, ast, DENSITIES[2], 2);
    PlacedMembers(ast.sections, Main);
    PlacedMembers(ast.sections, Sidebar);
    c := MainContext(PLAIN_FACE, ast, DENSITIES[2], 2);
    MainIsSample(ast, DENSITIES[2], 2);
  }

  lemma MainIsSample(ast: Ast, d: Density, maximumPages: nat)
    requires d in DENSITIES && 1 <= maximumPages <= 2
    ensures var c := MainContext(PLAIN_FACE, ast, d, maximumPages);
      Sample(c) && !c.sidebar && c.density == d && c.tops == ContentTops(maximumPages) && 354.0 <= c.width <= 528.0
  {
    PageTops();
  }

  lemma WorkPlacement()
    ensures WORK.placement == Main
  {}

  lemma MoreNeedsTwoPages()
    requires WellFormedSection(WORK) && WellFormedSection(MORE)
    ensures NeedsTwoPages(Resumed([WORK, MORE]))
  {
    hide WORK, MORE, WellFormedSection, FlowSection, Sample;
    WorkPlacement();
    MoreOk();
    assert [WORK, MORE] + [] == [WORK, MORE];
    assert [WORK, MORE][0] == WORK;
    forall c, y | Sample(c) && c.tops == [666.0] && !c.sidebar && 354.0 <= c.width <= 528.0 && y <= 144.4
      ensures FlowSection(c, MORE, Pos(0, y)).Overflow?
    {
      MoreAtTheFoot(c, y);
    }
    MainNeedsTwoPages(MORE, []);
  }

  lemma MoreHasItsId(c: Context)
    ensures HeadingBlock(c, MORE).id == "more"
  {
    hide Wrapped;
  }

  // ------------------------------------------- an entry that a page has room for

  function TallBullet(n: nat): Node
    requires n < 9
  {
    Node("node-" + Tally('u', 51 + n), Phrase(Tally('u', 51 + n), 6), ["claim"], [])
  }

  /** Nine bullets of six lines each. */
  const TALL_ENTRY: Entry := Entry("entry-t", [TallyNode('t', 0)], seq(9, n requires 0 <= n < 9 => TallBullet(n)))

  const TALL: Section := Section("tall", "Tall", Custom, Main, [TALL_ENTRY])

  lemma TallOk()
    ensures WellFormedSection(TALL) && Solid(TALL.title) && |TALL.title| == 4 && TALL.kind == Custom
      && TALL.placement == Main
    ensures TALL.entries == [TALL_ENTRY] && WellFormedEntry(TALL_ENTRY)
  {}

  lemma LongWidth(size: real, n: nat)
    requires 8.5 <= size <= 9.2 && 52 <= n <= 60
    ensures size * (0.6 * n as real) <= 344.0
    ensures size * (0.6 * n as real) + size * (0.6 * (n + 1) as real) > 518.0 + SLACK
  {
    var one, more := 0.6 * n as real, 0.6 * (n + 1) as real;
    assert 31.2 <= one <= 36.0 && 31.8 <= more;
    SizeBounds(size, one);
    SizeBounds(size, more);
    assert size * one >= 265.2 && size * more >= 270.3;
  }

  lemma SizeBounds(size: real, units: real)
    requires 8.5 <= size <= 9.2 && 0.0 <= units
    ensures 8.5 * units <= size * units <= 9.2 * units
  {
    ProductNonNegative(9.2 - size, units);
    ProductNonNegative(size - 8.5, units);
    assert (9.2 - size) * units == 9.2 * units - size * units;
    assert (size - 8.5) * units == size * units - 8.5 * units;
  }

  lemma TallBulletHeight(c: Context, n: nat)
    requires Sample(c) && !c.sidebar && 354.0 <= c.width <= 528.0 && n < 9
    ensures Height(BodyBlock(c, TallBullet(n))) == 6.0 * Leading(c)
  {
    hide Wrapped, Solid, Tally, Phrase;
    LinesAreSmall(c);
    assert 8.5 <= c.density.bodySize <= 9.2;
    LongWidth(c.density.bodySize, 52 + n);
    PhraseLines(TallBullet(n), Tally('u', 51 + n), 6, c.density.bodySize, c.width - 10.0, Regular, Bold);
  }

  lemma TallHeights(c: Context)
    requires Sample(c) && !c.sidebar && 354.0 <= c.width <= 528.0
    ensures TotalHeight(c, Custom, TALL_ENTRY) == Leading(c) + 1.0 + 9.0 * (6.0 * Leading(c) + c.density.bulletGap)
    ensures MinimumHeight(c, Custom, TALL_ENTRY) == Leading(c) + 1.0 + (6.0 * Leading(c) + c.density.bulletGap) + 2.0
  {
    hide HeaderBlock, BodyBlock, Height, Sample, StackHeight, Tally, TallBullet, Leading;
    HeaderIsOneLine(c, 't', 0);
    var header := HeaderBlock(c, Custom, TallyNode('t', 0), 0);
    var bodies := BodyBlocks(c, TALL_ENTRY);
    assert HeaderBlocks(c, Custom, TALL_ENTRY) == [header];
    StackOfTwo(header, header, 1.0);
    forall i | 0 <= i < 9 ensures Height(bodies[i]) == 6.0 * Leading(c) {
      TallBulletHeight(c, i);
      assert bodies[i] == BodyBlock(c, TallBullet(i));
    }
    EvenStack(bodies, 6.0 * Leading(c), c.density.bulletGap);
    DownIsTimes(6.0 * Leading(c) + c.density.bulletGap, 9);
    assert bodies[0] == BodyBlock(c, TALL_ENTRY.body[0]);
  }

  lemma TallHeaded(c: Context)
    requires Sample(c) && !c.sidebar && 354.0 <= c.width <= 528.0
    ensures c.tops != [] && Height(HeadingBlock(c, TALL)) == 13.4 && FirstReserve(c, TALL) >= 76.9
  {
    hide TotalHeight, MinimumHeight, Capacity, Height, PlainBlock, TALL_ENTRY, Leading;
    TallOk();
    TitleIsOneLine(c, "tall", "Tall");
    TallHeights(c);
    LinesAreSmall(c);
  }

  lemma TallNeedsTwoPages()
    requires WellFormedSection(WORK) && WellFormedSection(TALL)
    ensures NeedsTwoPages(Resumed([WORK, TALL]))
  {
    hide WORK, TALL, WellFormedSection, FlowSection, Sample, Height, HeadingBlock, FirstReserve;
    WorkPlacement();
    TallOk();
    assert [WORK, TALL] + [] == [WORK, TALL];
    assert [WORK, TALL][0] == WORK;
    forall c, y | Sample(c) && c.tops == [666.0] && !c.sidebar && 354.0 <= c.width <= 528.0 && y <= 144.4
      ensures FlowSection(c, TALL, Pos(0, y)).Overflow?
    {
      TallHeaded(c);
      HeadedFlow(c, TALL, Pos(0, y));
    }
    MainNeedsTwoPages(TALL, []);
  }

  /** A well-formed resume that fits no single page, with an entry that fits a page: the first
      two-page candidate overflows because of it, since under a heading it does not fit one. */
  lemma FittingEntryIsRefused()
    ensures NeedsTwoPages(Resumed([WORK, TALL]))
    ensures var c := MainContext(PLAIN_FACE, Resumed([WORK, TALL]), DENSITIES[2], 2);
      && c.tops != [] && FitsOnePage(c, Custom, TALL_ENTRY) && TALL_ENTRY in TALL.entries
      && TotalHeight(c, Custom, TALL_ENTRY) + 2.0 + Height(HeadingBlock(c, TALL)) + 10.0 > Capacity(c.tops)
      && TotalHeight(c, Custom, TALL_ENTRY) + 2.0 + ContinuationRoom(c, Custom) > Capacity(c.tops)
    ensures LayoutOf(PLAIN_FACE, Resumed([WORK, TALL]), DENSITIES[2], 2).LayoutOverflow?
  {
    hide FlowSection, WORK, TALL, WellFormedSection, Sample, TotalHeight, HeadingBlock, ContinuationRoom, Height,
      TALL_ENTRY, Capacity;
    WorkOk();
    TallOk();
    WorkPlacement();
    TallNeedsTwoPages();
    var c := TwoPageMain(TALL, []);
    assert [WORK, TALL] + [] == [WORK, TALL];
    MainIsSample(Resumed([WORK, TALL]), DENSITIES[2], 2);
    WorkFlows(c);
    TallHeights(c);
    TallHeaded(c);
    StandardLines(c);
    ContinuationIsOneLine(c);
    LinesAreSmall(c);
    FirstEntryTooTallForItsHeading(c, TALL, Pos(0, 91.3));
    TwoSectionsFlow(c, WORK, TALL, 91.3);
  }

  // ------------------------------------------------- a heading of metric cards

  const LIST: Section := Section("list", "List", Custom, Sidebar, TallyEntries('h', 'i', 'j', 12))

  /** A card with a label of four lines. */
  function CardEntry(a: char, b: char): Entry
    requires a != ' ' && b != ' '
  {
    Entry("entry-" + Tally(a, 1), [TallyNode(a, 1)],
          [Node("node-" + Tally(b, 11), Phrase(Tally(b, 11), 4), ["claim"], [])])
  }

  const CARDS: Section := Section("cards", "Cards", Metrics, Sidebar, [CardEntry('4', 'k'), CardEntry('5', 'l')])

  lemma AsideOk()
    ensures WellFormedSection(LIST) && WellFormedSection(CARDS) && LIST.placement == CARDS.placement == Sidebar
    ensures LIST.kind == Custom && Solid(LIST.title) && |LIST.title| == 4
      && LIST.entries == TallyEntries('h', 'i', 'j', 12)
    ensures CARDS.kind == Metrics && Solid("Cards") && CARDS.entries == [CardEntry('4', 'k'), CardEntry('5', 'l')]
  {
    hide TallyEntries;
  }

  ghost predicate Aside(c: Context) {
    Sample(c) && c.density == DENSITIES[2] && c.tops == [666.0, 696.0] && c.sidebar && c.width == 151.0
  }

  lemma CardIsHigh(c: Context, a: char, b: char)
    requires Aside(c) && a != ' ' && b != ' '
    ensures MakeCard(c, CardEntry(a, b)).height == 67.0
  {
    hide Wrapped, Solid, Tally, Phrase, FontWidth;
    var e := CardEntry(a, b);
    assert CardLabels(e) == e.body;
    SpelledOne(Tally(a, 1));
    WidthIs(Tally(a, 1), Bold, 14.0);
    assert MetricSteps(c, c.face.words(e.header[0]), 0) == 0;
    OneShortWord(e.header[0], Tally(a, 1), 58.5, 14.0, Bold, Bold);
    PhraseLines(e.body[0], Tally(b, 11), 4, 7.5, 58.5, Regular, Bold);
    var card := MakeCard(c, e);
    assert Height(card.metric) == 15.0;
    assert |card.labels| == 1 && Height(card.labels[0]) == 36.0;
    assert card.labels == [card.labels[0]];
    StackOfTwo(card.labels[0], card.labels[0], 1.0);
  }

  lemma CardsHaveHeaders()
    ensures forall e :: e in CARDS.entries ==> e.header != []
  {}

  lemma CardsFlow(c: Context)
    requires Aside(c) && ContextOk(c) && WellFormedSection(CARDS)
    ensures var o := FlowSection(c, CARDS, Pos(0, 145.3));
      && o.Done? && |o.draws| >= 2 && o.draws[0] == Draw(0, c.x, 145.3, Heading, HeadingBlock(c, CARDS))
      && o.draws[1].role.Content? && o.draws[1].page == 1 && RowHeight(c, CARDS.entries) == 67.0
  {
    hide MakeCard, CARDS, WellFormedSection, Height, HeadingBlock, ContextOk, CardEntry, DrawRow, Capacity;
    AsideOk();
    CardIsHigh(c, '4', 'k');
    CardIsHigh(c, '5', 'l');
    CardsHeaded(c);
    CardsHaveHeaders();
    var mid := Pos(0, 121.9);
    assert CARDS.entries[2..] == [];
    assert Advance(c.tops, mid, 67.0) == Some(Pos(1, 696.0));
    assert FlowCards(c, CARDS.entries[2..], Pos(1, 696.0 - 73.0)).Done?;
    assert FlowCards(c, CARDS.entries, mid).Done?;
    assert Advance(c.tops, Pos(0, 145.3), 13.4 + 6.0 + 49.0) == Some(Pos(0, 145.3));
    assert FlowSection(c, CARDS, Pos(0, 145.3)).Done?;
    MetricsHeadingAndFirstRow(c, CARDS, Pos(0, 145.3));
  }

  lemma CardsHeaded(c: Context)
    requires Aside(c) && WellFormedSection(CARDS)
    ensures Height(HeadingBlock(c, CARDS)) == 13.4 && FirstReserve(c, CARDS) == 49.0
  {
    hide Wrapped, WellFormedSection, CardEntry, TotalHeight, MinimumHeight;
    AsideOk();
    TitleIsOneLine(c, "cards", "Cards");
    LinesAreSmall(c);
  }

  lemma CardsNeedTwoPages()
    requires WellFormedSection(WORK) && WellFormedSection(MORE) && WellFormedSection(LIST) && WellFormedSection(CARDS)
    ensures NeedsTwoPages(Resumed([WORK, MORE] + [LIST, CARDS]))
  {
    hide WORK, MORE, LIST, CARDS, WellFormedSection, FlowSection, Sample;
    WorkPlacement();
    MoreOk();
    AsideOk();
    assert ([WORK, MORE] + [LIST, CARDS])[0] == WORK;
    forall c, y | Sample(c) && c.tops == [666.0] && !c.sidebar && 354.0 <= c.width <= 528.0 && y <= 144.4
      ensures FlowSection(c, MORE, Pos(0, y)).Overflow?
    {
      MoreAtTheFoot(c, y);
    }
    MainNeedsTwoPages(MORE, [LIST, CARDS]);
  }

  lemma SideFlows(c: Context)
    requires Aside(c) && ContextOk(c) && WellFormedSection(LIST) && WellFormedSection(CARDS)
    ensures c.tops != [] && forall r :: r in [LIST, CARDS] ==> WellFormedSection(r)
    ensures var o := FlowColumn(c, None, [LIST, CARDS]);
      && o.Done? && |o.draws| > 38 && o.draws[37] == Draw(0, c.x, 145.3, Heading, HeadingBlock(c, CARDS))
      && o.draws[38].role.Content? && o.draws[38].page == 1
  {
    hide FlowSection, LIST, CARDS, WellFormedSection, ContextOk, HeadingBlock, TallyEntries, Aside, Sample, Step,
      FlowColumn;
    AsideOk();
    AsideStep(c);
    assert [LIST, CARDS][0] == LIST && [LIST, CARDS][1] == CARDS;
    TwelveFlow(c, LIST, 'h', 'i', 'j');
    CardsFlow(c);
    TwoSectionsFlow(c, LIST, CARDS, 145.3);
  }

  lemma AsideStep(c: Context)
    requires Aside(c)
    ensures Sample(c) && Step(c) == 40.9 && c.density.sectionGap == 6.5 && c.tops == [666.0, 696.0]
  {}

  lemma BothColumns(s: Section, rest: seq<Section>)
    requires WellFormed(Resumed([WORK, s] + rest)) && WORK.placement == s.placement == Main
    requires rest != [] && forall r :: r in rest ==> r.placement == Sidebar && WellFormedSection(r)
    requires forall r :: r in [WORK, s] ==> WellFormedSection(r)
    requires ContentTops(2) != []
    requires FlowColumn(MainContext(PLAIN_FACE, Resumed([WORK, s] + rest), DENSITIES[2], 2), None, [WORK, s]).Done?
    requires FlowColumn(SideContext(PLAIN_FACE, DENSITIES[2], 2), None, rest).Done?
    ensures var laid := LayoutOf(PLAIN_FACE, Resumed([WORK, s] + rest), DENSITIES[2], 2);
      laid.Laid? && laid.side == FlowColumn(SideContext(PLAIN_FACE, DENSITIES[2], 2), None, rest).draws
  {
    hide FlowColumn, WORK, WellFormedSection;
    TwoMainSections(s, rest);
    PlacedMembers(([WORK, s] + rest), Main);
    PlacedMembers(([WORK, s] + rest), Sidebar);
  }

  lemma AsideContext()
    ensures var c := SideContext(PLAIN_FACE, DENSITIES[2], 2); Aside(c) && ContextOk(c)
  {
    PageTops();
    PlainFaceOk();
    hide FaceOk;
    ContextsOk(PLAIN_FACE, Resumed([]), DENSITIES[2], 2);
  }

  lemma CardsHaveTheirId(c: Context)
    ensures HeadingBlock(c, CARDS).id == "cards"
  {
    hide Wrapped;
  }

  /** A well-formed resume that fits no single page, and that the first two-page candidate sets
      with the heading of its metric cards at the foot of page one: the cards need 67 points, 49
      were reserved, and they open page two under no heading. */
  lemma CardsHeadingIsLeftBehind()
    ensures NeedsTwoPages(Resumed([WORK, MORE] + [LIST, CARDS]))
    ensures LayoutOf(PLAIN_FACE, Resumed([WORK, MORE] + [LIST, CARDS]), DENSITIES[2], 2).Laid?
    ensures var draws := LayoutOf(PLAIN_FACE, Resumed([WORK, MORE] + [LIST, CARDS]), DENSITIES[2], 2).side;
      && |draws| > 38 && draws[37].role.Heading? && draws[37].block.id == "cards" && draws[37].page == 0
      && draws[38].role.Content? && draws[38].page == 1
  {
    hide FlowSection, WORK, MORE, LIST, CARDS, WellFormedSection, Sample, ContextOk, FlowColumn, Standard, Aside,
      LayoutOf, HeadingBlock;
    WorkOk();
    MoreOk();
    AsideOk();
    WorkPlacement();
    CardsNeedTwoPages();
    var c := TwoPageMain(MORE, [LIST, CARDS]);
    WorkFlows(c);
    MoreFlows(c);
    TwoSectionsFlow(c, WORK, MORE, 91.3);
    AsideContext();
    SideFlows(SideContext(PLAIN_FACE, DENSITIES[2], 2));
    BothColumns(MORE, [LIST, CARDS]);
    CardsHaveTheirId(SideContext(PLAIN_FACE, DENSITIES[2], 2));
  }
}
