/** Columns of sample entries, each line a single short word, and where they end
    (resume-renderer-v2/app.py, 760-941). */
module SampleColumn {
  import opened Basics
  import opened Text
  import opened Reading
  import opened Resume
  import opened Column
  import opened Geometry
  import opened Layout
  import opened Content
  import opened Keeping
  import opened PlainFont
  import Masthead

  // ------------------------------------------------------------ sample entries

  function Tally(c: char, n: nat): (text: string)
    requires c != ' '
    ensures |text| == n + 1 && Solid(text)
  {
    [c] + seq(n, _ => 'x')
  }

  function TallyNode(c: char, n: nat): Node
    requires c != ' '
  {
    Node("node-" + Tally(c, n), Tally(c, n), ["claim"], [])
  }

  /** A header and two bullets of a line each. */
  function TallyEntry(a: char, b: char, d: char, n: nat): Entry
    requires a != ' ' && b != ' ' && d != ' '
  {
    Entry("entry-" + Tally(a, n), [TallyNode(a, n)], [TallyNode(b, n), TallyNode(d, n)])
  }

  /** A header of one line. */
  function HeaderEntry(c: char): Entry
    requires c != ' '
  {
    Entry("entry-" + Tally(c, 0), [TallyNode(c, 0)], [])
  }

  function TallyEntries(a: char, b: char, d: char, n: nat): (entries: seq<Entry>)
    requires a != ' ' && b != ' ' && d != ' ' && n <= 12
    ensures |entries| == n && forall e :: e in entries ==> WellFormedEntry(e)
  {
    if n == 0 then [] else [TallyEntry(a, b, d, n)] + TallyEntries(a, b, d, n - 1)
  }

  // ------------------------------------------------------------ their heights

  /** A column in the plain font at one of the densities, on one page or two. */
  ghost predicate Sample(c: Context) {
    && c.face == PLAIN_FACE && c.density in DENSITIES
    && (c.tops == [666.0] || c.tops == [666.0, 696.0])
    && (if c.sidebar then 151.0 <= c.width else 161.0 <= c.width)
  }

  /** The leading of all sample text of a column. */
  function Leading(c: Context): real { if c.sidebar then c.density.supportLeading else c.density.bodyLeading }

  function EntryHeight(c: Context): real { Leading(c) + 1.0 + 2.0 * (Leading(c) + c.density.bulletGap) }

  /** From one sample entry to the next. */
  function Step(c: Context): real { EntryHeight(c) + 1.0 + c.density.entryGap }

  lemma LinesAreSmall(c: Context)
    requires Sample(c)
    ensures 9.0 <= Leading(c) <= 12.2 && 0.0 < c.density.bodySize <= 9.2 && 0.0 < c.density.supportSize <= 8.0
    ensures 2.5 <= c.density.bulletGap <= 4.0 && 3.5 <= c.density.entryGap && 5.0 <= c.density.sectionGap
    ensures c.density.sectionSize == 12.2 && c.density.sectionLeading == 13.4
    ensures !c.sidebar ==> 10.2 <= Leading(c)
    ensures 610.0 <= Capacity(c.tops) && (c.tops == [666.0, 696.0] ==> Capacity(c.tops) == 640.0)
  {
    assert [666.0, 696.0][..1] == [666.0];
  }

  lemma HeaderIsOneLine(c: Context, ch: char, n: nat)
    requires Sample(c) && n <= 12 && ch != ' '
    ensures Height(HeaderBlock(c, Custom, TallyNode(ch, n), 0)) == Leading(c)
  {
    hide Wrapped, Solid, Tally;
    LinesAreSmall(c);
    var b := HeaderBlock(c, Custom, TallyNode(ch, n), 0);
    ShortWidth(b.size, n + 1);
    OneShortWord(TallyNode(ch, n), Tally(ch, n), c.width, b.size, Bold, Bold);
  }

  lemma BodyIsOneLine(c: Context, ch: char, n: nat)
    requires Sample(c) && n <= 12 && ch != ' '
    ensures Height(BodyBlock(c, TallyNode(ch, n))) == Leading(c)
  {
    hide Wrapped, Solid, Tally;
    LinesAreSmall(c);
    var b := BodyBlock(c, TallyNode(ch, n));
    ShortWidth(b.size, n + 1);
    OneShortWord(TallyNode(ch, n), Tally(ch, n), b.width, b.size, Regular, Bold);
  }

  lemma TitleIsOneLine(c: Context, id: string, title: string)
    requires Sample(c) && Solid(title) && |title| <= 20
    ensures Height(PlainBlock(c, id, title)) == 13.4
  {
    hide Wrapped, Solid;
    LinesAreSmall(c);
    ShortWidth(12.2, |title|);
    OneShortWord(Node("layout", title, ["layout"], []), title, c.width, 12.2, Display, Display);
  }

  lemma ContinuationIsOneLine(c: Context)
    requires Sample(c)
    ensures ContinuationRoom(c, Custom) == 23.4
  {
    assert Solid("Continued");
    TitleIsOneLine(c, "section-continuation", "Continued");
  }

  lemma StackOfTwo(a: Block, b: Block, gap: real)
    ensures StackHeight([], gap) == 0.0 && StackHeight([b], gap) == Height(b) + gap
    ensures StackHeight([a, b], gap) == Height(a) + gap + (Height(b) + gap)
  {
    hide Height;
    assert [b][1..] == [] && [a, b][1..] == [b];
  }

  lemma TallyHeights(c: Context, a: char, b: char, d: char, n: nat)
    requires Sample(c) && n <= 12 && a != ' ' && b != ' ' && d != ' '
    ensures var e := TallyEntry(a, b, d, n);
      && |HeaderBlocks(c, Custom, e)| == 1 && StackHeight(HeaderBlocks(c, Custom, e), 1.0) == Leading(c) + 1.0
      && |BodyBlocks(c, e)| == 2 && Height(BodyBlocks(c, e)[0]) == Height(BodyBlocks(c, e)[1]) == Leading(c)
      && TotalHeight(c, Custom, e) == EntryHeight(c)
  {
    HeaderIsOneLine(c, a, n);
    BodyIsOneLine(c, b, n);
    BodyIsOneLine(c, d, n);
    hide HeaderBlock, BodyBlock, Height, Sample, StackHeight, Tally, Leading;
    var e := TallyEntry(a, b, d, n);
    var header := HeaderBlock(c, Custom, TallyNode(a, n), 0);
    var first, second := BodyBlock(c, TallyNode(b, n)), BodyBlock(c, TallyNode(d, n));
    assert HeaderBlocks(c, Custom, e) == [header] && BodyBlocks(c, e) == [first, second];
    StackOfTwo(header, header, 1.0);
    StackOfTwo(first, second, c.density.bulletGap);
  }

  lemma HeaderHeights(c: Context, ch: char)
    requires Sample(c) && ch != ' '
    ensures |HeaderBlocks(c, Custom, HeaderEntry(ch))| == 1 && BodyBlocks(c, HeaderEntry(ch)) == []
    ensures StackHeight(HeaderBlocks(c, Custom, HeaderEntry(ch)), 1.0) == TotalHeight(c, Custom, HeaderEntry(ch))
      == Leading(c) + 1.0
  {
    HeaderIsOneLine(c, ch, 0);
    hide HeaderBlock, Height, Sample, StackHeight, Tally, Leading;
    var e := HeaderEntry(ch);
    var header := HeaderBlock(c, Custom, TallyNode(ch, 0), 0);
    assert HeaderBlocks(c, Custom, e) == [header] && BodyBlocks(c, e) == [];
    StackOfTwo(header, header, 1.0);
    StackOfTwo(header, header, c.density.bulletGap);
  }

  // ------------------------------------------------------- where entries end

  /** Two bullets of a line each, where there is room for them. */
  lemma TwoBodiesFlow(c: Context, bodies: seq<Block>, pos: Pos)
    requires |bodies| == 2 && Height(bodies[0]) == Height(bodies[1]) == Leading(c)
    requires 0.0 <= Leading(c) && 0.0 <= c.density.bulletGap
    requires pos.y - 2.0 * (Leading(c) + c.density.bulletGap) >= CONTENT_BOTTOM
    ensures var o := FlowBodies(c, bodies, pos);
      o.Done? && o.pos == Pos(pos.page, pos.y - 2.0 * (Leading(c) + c.density.bulletGap)) && |o.draws| == 2
  {
    hide Height, Leading;
    var step := Leading(c) + c.density.bulletGap;
    assert bodies[1..][0] == bodies[1] && bodies[1..][1..] == [];
    var next := Pos(pos.page, pos.y - step);
    assert FlowBodies(c, [], Pos(pos.page, next.y - step)) == Done(Pos(pos.page, next.y - step), []);
    assert FlowBodies(c, bodies[1..], next).Done?;
  }

  /** An entry that fits a page is drawn where the cursor is when it has room there; on the last
      page there is no other place for it. */
  lemma PlacedWhereFree(c: Context, e: Entry, pos: Pos)
    requires c.tops != [] && FitsOnePage(c, Custom, e) && 0.0 <= ContinuationRoom(c, Custom)
    ensures var free := pos.y - (TotalHeight(c, Custom, e) + 2.0) >= CONTENT_BOTTOM;
      && (free ==> PlaceEntry(c, Custom, e, pos) == DrawEntry(c, Custom, e, pos))
      && (!free && pos.page + 1 >= |c.tops| ==> PlaceEntry(c, Custom, e, pos).Overflow?)
  {
    hide TotalHeight, DrawEntry, Required, FitsOnePage, ContinuationBlock, Height;
    FittingEntryRequires(c, Custom, e);
  }

  lemma TallyDrawn(c: Context, a: char, b: char, d: char, n: nat, pos: Pos)
    requires Sample(c) && n <= 12 && a != ' ' && b != ' ' && d != ' '
    requires pos.y - (EntryHeight(c) + 2.0) >= CONTENT_BOTTOM
    ensures var o := DrawEntry(c, Custom, TallyEntry(a, b, d, n), pos);
      o.Done? && o.pos == Pos(pos.page, pos.y - EntryHeight(c) - 1.0) && |o.draws| == 3
  {
    hide HeaderBlocks, BodyBlocks, Height, TotalHeight, Sample, Leading, FlowBodies, TallyEntry, StackHeight, Stack,
      DrawEntry;
    var e := TallyEntry(a, b, d, n);
    TallyHeights(c, a, b, d, n);
    LinesAreSmall(c);
    var headers, bodies := HeaderBlocks(c, Custom, e), BodyBlocks(c, e);
    var mid := Pos(pos.page, pos.y - (Leading(c) + 1.0) - 1.0);
    DrawnInParts(c, e, pos);
    TwoBodiesFlow(c, bodies, mid);
    StackDraws(headers, pos.page, c.x, pos.y, 1.0);
  }

  lemma DrawnInParts(c: Context, e: Entry, pos: Pos)
    ensures var headers := HeaderBlocks(c, Custom, e);
      DrawEntry(c, Custom, e, pos)
      == Prepend(Stack(headers, pos.page, c.x, pos.y, 1.0),
                 FlowBodies(c, BodyBlocks(c, e), Pos(pos.page, pos.y - StackHeight(headers, 1.0) - 1.0)))
  {
    hide HeaderBlocks, BodyBlocks, FlowBodies, Stack, StackHeight;
  }

  lemma TallyFits(c: Context, a: char, b: char, d: char, n: nat)
    requires Sample(c) && n <= 12 && a != ' ' && b != ' ' && d != ' '
    ensures c.tops != [] && FitsOnePage(c, Custom, TallyEntry(a, b, d, n)) && ContinuationRoom(c, Custom) == 23.4
    ensures TotalHeight(c, Custom, TallyEntry(a, b, d, n)) == EntryHeight(c)
  {
    TallyHeights(c, a, b, d, n);
    LinesAreSmall(c);
    ContinuationIsOneLine(c);
    hide TotalHeight, TallyEntry, HeaderBlocks, BodyBlocks, Capacity, ContinuationRoom, Height;
  }

  /** An entry is drawn where the cursor is exactly when its height and two points are free; on
      the last page there is no other place for it. */
  lemma TallyPlaced(c: Context, a: char, b: char, d: char, n: nat, pos: Pos)
    requires Sample(c) && n <= 12 && a != ' ' && b != ' ' && d != ' '
    ensures var free, o := pos.y - (EntryHeight(c) + 2.0) >= CONTENT_BOTTOM,
        PlaceEntry(c, Custom, TallyEntry(a, b, d, n), pos);
      && (free ==> o.Done? && o.pos == Pos(pos.page, pos.y - EntryHeight(c) - 1.0) && |o.draws| == 3)
      && (!free && pos.page + 1 >= |c.tops| ==> o.Overflow?)
  {
    hide PlaceEntry, DrawEntry, TotalHeight, TallyEntry, FitsOnePage, ContinuationRoom, Sample, EntryHeight;
    TallyFits(c, a, b, d, n);
    PlacedWhereFree(c, TallyEntry(a, b, d, n), pos);
    if pos.y - (EntryHeight(c) + 2.0) >= CONTENT_BOTTOM {
      TallyDrawn(c, a, b, d, n, pos);
    }
  }

  function Down(step: real, n: nat): real { if n == 0 then 0.0 else step + Down(step, n - 1) }

  lemma {:induction false} DownIsTimes(step: real, n: nat)
    ensures Down(step, n) == n as real * step
  {
    if n > 0 {
      DownIsTimes(step, n - 1);
      assert n as real * step == ((n - 1) as real + 1.0) * step == (n - 1) as real * step + step;
    }
  }

  lemma {:induction false} DownIsPositive(step: real, n: nat)
    requires 0.0 <= step
    ensures 0.0 <= Down(step, n)
  {
    if n > 0 {
      DownIsPositive(step, n - 1);
    }
  }

  lemma StepIs(c: Context)
    requires Sample(c)
    ensures Step(c) == EntryHeight(c) + 1.0 + c.density.entryGap && 0.0 < EntryHeight(c) && 0.0 <= Step(c)
      && c.tops != []
  {
    LinesAreSmall(c);
  }

  lemma {:induction false} TalliesPlaced(c: Context, a: char, b: char, d: char, n: nat, pos: Pos)
    requires Sample(c) && n <= 12 && a != ' ' && b != ' ' && d != ' '
    requires pos.y - Down(Step(c), n) + c.density.entryGap - 1.0 >= CONTENT_BOTTOM
    ensures var o := FlowEntries(c, Custom, TallyEntries(a, b, d, n), pos);
      o.Done? && o.pos == Pos(pos.page, pos.y - Down(Step(c), n)) && |o.draws| == 3 * n
  {
    hide PlaceEntry, Sample, EntryHeight, Step, TallyEntry;
    StepIs(c);
    if n > 0 {
      DownIsPositive(Step(c), n - 1);
      TallyPlaced(c, a, b, d, n, pos);
      assert TallyEntries(a, b, d, n)[0] == TallyEntry(a, b, d, n);
      assert TallyEntries(a, b, d, n)[1..] == TallyEntries(a, b, d, n - 1);
      TalliesPlaced(c, a, b, d, n - 1, Pos(pos.page, pos.y - Step(c)));
    }
  }

  /** On the last page the entries end there, all of them, or overflow. */
  lemma {:induction false} TalliesOnLastPage(c: Context, a: char, b: char, d: char, n: nat, pos: Pos)
    requires Sample(c) && n <= 12 && a != ' ' && b != ' ' && d != ' ' && pos.page + 1 >= |c.tops|
    requires c.tops != [] && FlowEntries(c, Custom, TallyEntries(a, b, d, n), pos).Done?
    ensures FlowEntries(c, Custom, TallyEntries(a, b, d, n), pos).pos == Pos(pos.page, pos.y - Down(Step(c), n))
    ensures n > 0 ==> pos.y - Down(Step(c), n) + c.density.entryGap - 1.0 >= CONTENT_BOTTOM
  {
    hide PlaceEntry, Sample, EntryHeight, Step, TallyEntry;
    StepIs(c);
    if n > 0 {
      TallyPlaced(c, a, b, d, n, pos);
      assert TallyEntries(a, b, d, n)[0] == TallyEntry(a, b, d, n);
      assert TallyEntries(a, b, d, n)[1..] == TallyEntries(a, b, d, n - 1);
      TalliesOnLastPage(c, a, b, d, n - 1, Pos(pos.page, pos.y - Step(c)));
    }
  }

  lemma HeaderDrawn(c: Context, ch: char, pos: Pos)
    requires Sample(c) && ch != ' '
    ensures DrawEntry(c, Custom, HeaderEntry(ch), pos).Done?
    ensures DrawEntry(c, Custom, HeaderEntry(ch), pos).pos == Pos(pos.page, pos.y - (Leading(c) + 2.0))
    ensures TotalHeight(c, Custom, HeaderEntry(ch)) == Leading(c) + 1.0
    ensures c.tops != [] && FitsOnePage(c, Custom, HeaderEntry(ch)) && ContinuationRoom(c, Custom) == 23.4
  {
    HeaderHeights(c, ch);
    LinesAreSmall(c);
    ContinuationIsOneLine(c);
    hide HeaderBlocks, BodyBlocks, TotalHeight, Capacity, HeaderEntry, StackHeight, Stack, ContinuationRoom, Leading,
      Height;
  }

  lemma HeaderPlaced(c: Context, ch: char, pos: Pos)
    requires Sample(c) && ch != ' ' && (pos.y - (Leading(c) + 3.0) >= CONTENT_BOTTOM || pos.page + 1 >= |c.tops|)
    ensures c.tops != []
    ensures var o := PlaceEntry(c, Custom, HeaderEntry(ch), pos);
      && (pos.y - (Leading(c) + 3.0) >= CONTENT_BOTTOM <==> o.Done?)
      && (o.Done? ==> o.pos == Pos(pos.page, pos.y - (Leading(c) + 2.0)))
  {
    hide PlaceEntry, DrawEntry, TotalHeight, HeaderEntry, FitsOnePage, ContinuationRoom, Sample, Leading;
    HeaderDrawn(c, ch, pos);
    PlacedWhereFree(c, HeaderEntry(ch), pos);
  }

  // ------------------------------------------------------------ the first section

  const WORK: Section := Section("work", "Work", Custom, Main, TallyEntries('a', 'b', 'c', 12))

  /** A section of twelve sample entries is reserved and headed like this. */
  lemma TwelveHeaded(c: Context, s: Section, a: char, b: char, d: char)
    requires Sample(c) && a != ' ' && b != ' ' && d != ' ' && Solid(s.title) && |s.title| <= 20
    requires s.kind == Custom && s.entries == TallyEntries(a, b, d, 12)
    ensures Height(HeadingBlock(c, s)) == 13.4 && FirstReserve(c, s) == EntryHeight(c) + 2.0
  {
    TitleIsOneLine(c, s.id, s.title);
    TallyHeights(c, a, b, d, 12);
    LinesAreSmall(c);
    assert s.entries[0] == TallyEntry(a, b, d, 12);
    hide HeaderBlocks, BodyBlocks, TotalHeight, Sample, Leading, Capacity, PlainBlock, Height, TallyEntry, TallyEntries;
  }

  /** A section under a heading of one line, from wherever its heading goes. */
  lemma HeadedFlow(c: Context, s: Section, pos: Pos)
    requires c.tops != [] && WellFormedSection(s) && s.kind == Custom && Height(HeadingBlock(c, s)) == 13.4
    ensures var at := HeadingAt(c, s, pos);
      FlowSection(c, s, pos)
      == if at.None? then Overflow
         else Lower(Prepend([Draw(at.value.page, c.x, at.value.y, Heading, HeadingBlock(c, s))],
                            FlowEntries(c, Custom, s.entries, Pos(at.value.page, at.value.y - 23.4))),
                    c.density.sectionGap)
  {
    hide FlowEntries, Height, HeadingBlock, FirstReserve, WellFormedSection;
  }

  /** The first section from the top of page one. */
  lemma FromTheTop(c: Context, s: Section)
    requires c.tops != [] && c.tops[0] == 666.0 && WellFormedSection(s) && s.kind == Custom
    requires Height(HeadingBlock(c, s)) == 13.4 && FirstReserve(c, s) <= 100.0
    ensures FlowSection(c, s, Pos(0, 666.0))
         == Lower(Prepend([Draw(0, c.x, 666.0, Heading, HeadingBlock(c, s))],
           FlowEntries(c, Custom, s.entries, Pos(0, 642.6))),
                  c.density.sectionGap)
  {
    hide FlowEntries, Height, HeadingBlock, FirstReserve, WellFormedSection, FlowSection;
    HeadedFlow(c, s, Pos(0, 666.0));
  }

  /** Where twelve sample entries under a heading end, when they fit page one. */
  lemma TwelveFlow(c: Context, s: Section, a: char, b: char, d: char)
    requires Sample(c) && a != ' ' && b != ' ' && d != ' ' && Solid(s.title) && |s.title| <= 20
    requires WellFormedSection(s) && s.kind == Custom && s.entries == TallyEntries(a, b, d, 12)
    requires 642.6 - 12.0 * Step(c) - 1.0 >= CONTENT_BOTTOM
    ensures c.tops != []
    ensures var o := FlowSection(c, s, Pos(0, 666.0));
      o.Done? && o.pos == Pos(0, 642.6 - 12.0 * Step(c) - c.density.sectionGap) && |o.draws| == 37
  {
    TwelveHeaded(c, s, a, b, d);
    TwelveReserve(c);
    hide FlowSection, FlowEntries, TallyEntries, HeadingBlock, FirstReserve, Sample, Step, WellFormedSection, Height;
    FromTheTop(c, s);
    DownIsTimes(Step(c), 12);
    TalliesPlaced(c, a, b, d, 12, Pos(0, 642.6));
  }

  lemma TwelveReserve(c: Context)
    requires Sample(c)
    ensures c.tops != [] && c.tops[0] == 666.0 && EntryHeight(c) + 2.0 <= 100.0 && 0.0 <= c.density.entryGap
    ensures !c.sidebar ==> 41.1 <= Step(c) && 5.0 <= c.density.sectionGap
  {
    LinesAreSmall(c);
  }

  lemma WorkOk()
    ensures WellFormedSection(WORK) && WORK.kind == Custom && Solid(WORK.title) && |WORK.title| == 4
    ensures WORK.entries == TallyEntries('a', 'b', 'c', 12)
  {
    hide TallyEntries, WellFormedEntry;
  }

  /** On one page the first section overflows, or leaves no more than 88.4 points. */
  lemma WorkOnOnePage(c: Context)
    requires Sample(c) && c.tops == [666.0] && !c.sidebar && WellFormedSection(WORK)
    requires FlowSection(c, WORK, Pos(0, 666.0)).Done?
    ensures FlowSection(c, WORK, Pos(0, 666.0)).pos.page == 0
    ensures FlowSection(c, WORK, Pos(0, 666.0)).pos.y <= 144.4
  {
    WorkOk();
    TwelveHeaded(c, WORK, 'a', 'b', 'c');
    TwelveReserve(c);
    hide FlowSection, FlowEntries, TallyEntries, HeadingBlock, FirstReserve, Sample, Step, WellFormedSection, Height;
    FromTheTop(c, WORK);
    DownIsTimes(Step(c), 12);
    TalliesOnLastPage(c, 'a', 'b', 'c', 12, Pos(0, 642.6));
  }

  /** So a section behind it that overflows at the foot of a page overflows one page. */
  lemma OnePageOverflows(c: Context, s: Section)
    requires Sample(c) && c.tops == [666.0] && !c.sidebar && WellFormedSection(s) && WellFormedSection(WORK)
    requires forall y :: y <= 144.4 ==> FlowSection(c, s, Pos(0, y)).Overflow?
    ensures FlowColumn(c, None, [WORK, s]).Overflow?
  {
    hide FlowSection, WORK, Sample, WellFormedSection;
    var work := FlowSection(c, WORK, Pos(0, 666.0));
    assert [WORK, s][1..] == [s] && [WORK, s][0] == WORK && [s][0] == s;
    if work.Done? {
      WorkOnOnePage(c);
      assert FlowSection(c, s, Pos(0, work.pos.y)).Overflow?;
      assert FlowSections(c, [s], work.pos).Overflow?;
    }
  }

  // --------------------------------------------------- texts of several lines

  function Copies<T>(x: T, n: nat): (xs: seq<T>)
    ensures |xs| == n && forall i :: 0 <= i < n ==> xs[i] == x
  {
    seq(n, _ => x)
  }

  /** A word, over and over. */
  function Phrase(word: string, n: nat): string { Masthead.Join(" ", Copies(word, n)) }

  lemma {:induction false} PhraseWords(word: string, n: nat)
    requires Solid(word)
    ensures Tokens(Phrase(word, n)) == Copies(word, n) && Spelled(Phrase(word, n)) == Copies(Word(word, false), n)
  {
    hide Tokens, Solid;
    if n == 0 {
      NoTokens();
    } else {
      PhraseWords(word, n - 1);
      TokensOfWord(word);
      assert Copies(word, n)[1..] == Copies(word, n - 1);
      if n > 1 {
        TokensOfBoth(word, Phrase(word, n - 1));
        assert Phrase(word, n) == word + " " + Phrase(word, n - 1);
      }
      assert [word] + Copies(word, n - 1) == Copies(word, n);
    }
  }

  /** Words of which a line holds one but not two take a line each. */
  lemma {:induction false} WordsStack(g: Glyphs, word: string, n: nat, size: real, width: real, regular: Font,
      bold: Font)
    requires n >= 1 && FontWidth(g, word, regular, size) <= width
    requires FontWidth(g, word, regular, size) + FontWidth(g, " " + word, regular, size) > width + SLACK
    ensures var w := PlaceWords(g, Copies(Word(word, false), n), size, width, regular, bold);
      |w.lines| == n - 1 && w.line != [] && w.used == FontWidth(g, word, regular, size)
  {
    hide FontWidth, SplitPieces;
    var words, last := Copies(Word(word, false), n), Word(word, false);
    assert words[..n - 1] == Copies(last, n - 1) && words[n - 1] == last;
    var before := PlaceWords(g, words[..n - 1], size, width, regular, bold);
    assert "" + word == word;
    OnePiece(g, before, word, regular, size, width);
    assert PlaceWord(g, before, last, size, width, regular, bold)
      == PlacePiece(g, before, word, regular, size, width, 0, 1);
    if n > 1 {
      WordsStack(g, word, n - 1, size, width, regular, bold);
    } else {
      assert before == Wrapping([], [], 0.0);
    }
  }

  lemma PhraseLines(node: Node, word: string, n: nat, size: real, width: real, regular: Font, bold: Font)
    requires node.text == Phrase(word, n)
    requires Solid(word) && n >= 1 && size * (0.6 * |word| as real) <= width
    requires size * (0.6 * |word| as real) + size * (0.6 * (|word| + 1) as real) > width + SLACK
    ensures |Wrapped(SixTenths, PLAIN_FACE.words(node), size, width, regular, bold)| == n
  {
    hide PlaceWords, Phrase, Solid, FontWidth;
    PhraseWords(word, n);
    WidthIs(word, regular, size);
    WidthIs(" " + word, regular, size);
    WordsStack(SixTenths, word, n, size, width, regular, bold);
  }

  lemma {:induction false} EvenStack(blocks: seq<Block>, height: real, gap: real)
    requires forall i :: 0 <= i < |blocks| ==> Height(blocks[i]) == height
    ensures StackHeight(blocks, gap) == Down(height + gap, |blocks|)
  {
    hide Height;
    if blocks != [] {
      EvenStack(blocks[1..], height, gap);
    }
  }

  /** Two sections of a column, one after the other. */
  lemma TwoSectionsFlow(c: Context, first: Section, s: Section, y: real)
    requires c.tops != [] && c.tops[0] == 666.0 && forall r :: r in [first, s] ==> WellFormedSection(r)
    requires first in [first, s] && s in [first, s]
    requires FlowSection(c, first, Pos(0, 666.0)).Done? && FlowSection(c, first, Pos(0, 666.0)).pos == Pos(0, y)
    ensures var a, b := FlowSection(c, first, Pos(0, 666.0)), FlowSection(c, s, Pos(0, y));
      && (b.Overflow? ==> FlowColumn(c, None, [first, s]).Overflow?)
      && (b.Done? ==>
        FlowColumn(c, None, [first, s]).Done? && FlowColumn(c, None, [first, s]).draws == a.draws + b.draws)
  {
    hide FlowSection, WellFormedSection;
    var a, b := FlowSection(c, first, Pos(0, 666.0)), FlowSection(c, s, Pos(0, y));
    assert [first, s][1..] == [s] && [s][1..] == [] && [first, s][0] == first;
    assert FlowSections(c, [s], Pos(0, y)).Overflow? <==> b.Overflow? || FlowSections(c, [], b.pos).Overflow?;
    if b.Done? {
      assert FlowSections(c, [], b.pos) == Done(b.pos, []);
      assert FlowSections(c, [s], Pos(0, y)) == Prepend(b.draws, FlowSections(c, [], b.pos));
      assert [] + (a.draws + (b.draws + [])) == a.draws + b.draws;
    }
  }
}
