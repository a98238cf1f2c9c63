/** Nothing is lost, repeated, reordered or split that should not be
    (resume-renderer-v2/app.py, 760-993, 1141-1152). */
module Content {
  import opened Basics
  import opened Text
  import opened Reading
  import opened Resume
  import opened Column
  import opened Geometry
  import opened Layout

  // ------------------------------------------------------------ the script

  /** A block in the role it is drawn in. */
  datatype Part = Part(role: Role, block: Block)

  /** What was drawn, without the continuation headings. */
  function Parts(draws: seq<Draw>): seq<Part> {
    if draws == [] then []
    else (if draws[0].role.Continuation? then [] else [Part(draws[0].role, draws[0].block)]) + Parts(draws[1..])
  }

  function ContentParts(blocks: seq<Block>): (parts: seq<Part>) {
    seq(|blocks|, i requires 0 <= i < |blocks| => Part(Role.Content, blocks[i]))
  }

  /** The blocks of an entry outside the metric grid. */
  function PlainBlocks(c: Context, kind: Kind, e: Entry): seq<Block> { HeaderBlocks(c, kind, e) + BodyBlocks(c, e) }

  function CardBlocks(c: Context, e: Entry): seq<Block>
    requires e.header != []
  {
    [MakeCard(c, e).metric] + MakeCard(c, e).labels
  }

  /** The blocks of an entry: a metric card in the sidebar, otherwise its header and its body. */
  function EntryBlocks(c: Context, kind: Kind, e: Entry): seq<Block> {
    if kind == Metrics && c.sidebar && e.header != [] then CardBlocks(c, e) else PlainBlocks(c, kind, e)
  }

  function EntriesParts(c: Context, kind: Kind, entries: seq<Entry>): seq<Part> {
    if entries == [] then []
    else ContentParts(EntryBlocks(c, kind, entries[0])) + EntriesParts(c, kind, entries[1..])
  }

  function SectionParts(c: Context, s: Section): seq<Part> {
    [Part(Heading, HeadingBlock(c, s))] + EntriesParts(c, s.kind, s.entries)
  }

  function SectionsParts(c: Context, sections: seq<Section>): seq<Part> {
    if sections == [] then [] else SectionParts(c, sections[0]) + SectionsParts(c, sections[1..])
  }

  function ProfileParts(c: Context, profile: Option<Node>): seq<Part> {
    match profile
    case None => []
    case Some(node) => [Part(Heading, ProfileHeading(c)), Part(Role.Content, ProfileBlock(c, node))]
  }

  /** What a column has to draw: every title and node, wrapped to the column, in document order. */
  function ColumnParts(c: Context, profile: Option<Node>, sections: seq<Section>): seq<Part> {
    ProfileParts(c, profile) + SectionsParts(c, sections)
  }

  // --------------------------------------------------- the words of the script

  /** A piece of the resume: its role, its id and its words. */
  datatype Item = Item(role: Role, id: string, texts: seq<string>)

  /** The pieces as a reader finds them on the lines drawn. */
  function Items(parts: seq<Part>): (items: seq<Item>) {
    seq(|parts|, i requires 0 <= i < |parts| =>
      Item(parts[i].role, parts[i].block.id, LinesTexts(parts[i].block.lines)))
  }

  /** The pieces as the resume has them. */
  function Named(parts: seq<Part>): (items: seq<Item>) {
    seq(|parts|, i requires 0 <= i < |parts| => Item(parts[i].role, parts[i].block.id, Texts(parts[i].block.words)))
  }

  function NodeItems(face: Face, nodes: seq<Node>): (items: seq<Item>) {
    seq(|nodes|, i requires 0 <= i < |nodes| => Item(Role.Content, nodes[i].id, Texts(face.words(nodes[i]))))
  }

  function EntryItems(face: Face, e: Entry): seq<Item> {
    NodeItems(face, e.header) + NodeItems(face, e.body)
  }

  function EntriesItems(face: Face, entries: seq<Entry>): seq<Item> {
    if entries == [] then [] else EntryItems(face, entries[0]) + EntriesItems(face, entries[1..])
  }

  function TitleTexts(face: Face, title: string): seq<string> {
    Texts(face.words(Node("layout", title, ["layout"], [])))
  }

  function SectionItems(face: Face, s: Section): seq<Item> {
    [Item(Heading, s.id, TitleTexts(face, s.title))] + EntriesItems(face, s.entries)
  }

  function SectionsItems(face: Face, sections: seq<Section>): seq<Item> {
    if sections == [] then [] else SectionItems(face, sections[0]) + SectionsItems(face, sections[1..])
  }

  function ProfileItems(face: Face, profile: Option<Node>): seq<Item> {
    match profile
    case None => []
    case Some(node) =>
      [Item(Heading, "profile-heading", TitleTexts(face, "Profile")),
       Item(Role.Content, node.id, Texts(face.words(node)))]
  }

  lemma NamedAppend(a: seq<Part>, b: seq<Part>)
    ensures Named(a + b) == Named(a) + Named(b)
  {}

  /** An entry's blocks name its nodes, header first, each once. */
  lemma EntryNamed(c: Context, kind: Kind, e: Entry)
    requires kind == Metrics && c.sidebar ==> |e.header| == 1 && |e.body| == 1
    ensures Named(ContentParts(EntryBlocks(c, kind, e))) == EntryItems(c.face, e)
  {
    hide Wrapped, MetricSteps, StackHeight, Texts, Height;
    if kind == Metrics && c.sidebar {
      assert CardLabels(e) == e.body;
      var card := MakeCard(c, e);
      assert CardBlocks(c, e) == [card.metric] + card.labels && |card.labels| == 1;
    } else {
      var headers, bodies := HeaderBlocks(c, kind, e), BodyBlocks(c, e);
      ContentPartsAppend(headers, bodies);
      NamedAppend(ContentParts(headers), ContentParts(bodies));
      assert Named(ContentParts(headers)) == NodeItems(c.face, e.header);
      assert Named(ContentParts(bodies)) == NodeItems(c.face, e.body);
    }
  }

  lemma {:induction false} EntriesNamed(c: Context, kind: Kind, entries: seq<Entry>)
    requires kind == Metrics && c.sidebar ==> CardEntries(entries)
    ensures Named(EntriesParts(c, kind, entries)) == EntriesItems(c.face, entries)
  {
    hide EntryBlocks, EntryItems, ContentParts;
    if entries != [] {
      EntryNamed(c, kind, entries[0]);
      EntriesNamed(c, kind, entries[1..]);
      NamedAppend(ContentParts(EntryBlocks(c, kind, entries[0])), EntriesParts(c, kind, entries[1..]));
    }
  }

  lemma {:induction false} SectionsNamed(c: Context, sections: seq<Section>)
    requires forall s :: s in sections ==> WellFormedSection(s)
    ensures Named(SectionsParts(c, sections)) == SectionsItems(c.face, sections)
  {
    hide EntriesParts, EntriesItems, Wrapped, Texts;
    if sections != [] {
      var s := sections[0];
      assert s in sections;
      EntriesNamed(c, s.kind, s.entries);
      SectionsNamed(c, sections[1..]);
      var heading := Part(Heading, HeadingBlock(c, s));
      NamedAppend([heading], EntriesParts(c, s.kind, s.entries));
      NamedAppend(SectionParts(c, s), SectionsParts(c, sections[1..]));
      assert Named([heading]) == [Item(Heading, s.id, TitleTexts(c.face, s.title))];
    }
  }

  /** The script of a column names the profile, every section title, header and body node
      once and in order, with all its words. */
  lemma ColumnNamed(c: Context, profile: Option<Node>, sections: seq<Section>)
    requires forall s :: s in sections ==> WellFormedSection(s)
    ensures Named(ColumnParts(c, profile, sections)) == ProfileItems(c.face, profile) + SectionsItems(c.face, sections)
  {
    hide SectionsParts, SectionsItems, Wrapped, Texts, WellFormedSection;
    SectionsNamed(c, sections);
    NamedAppend(ProfileParts(c, profile), SectionsParts(c, sections));
  }

  // ------------------------------------------------ from words to lines and back

  /** The lines of a block are those of its words, wrapped in a column that holds any glyph. */
  ghost predicate Composed(g: Glyphs, b: Block) {
    && b.lines == Wrapped(g, b.words, b.size, b.width, b.regular, b.bold)
    && Words?(b.words) && 0.0 <= b.width && GlyphsFit(g, b.size, b.width)
  }

  ghost predicate AllComposed(g: Glyphs, parts: seq<Part>) {
    forall i :: 0 <= i < |parts| ==> Composed(g, parts[i].block)
  }

  /** No word of the block is wider than the column it was wrapped to. */
  predicate Uncut(g: Glyphs, b: Block) {
    NoLongWord(g, b.words, b.size, b.width, b.regular, b.bold)
  }

  predicate AllUncut(g: Glyphs, parts: seq<Part>) {
    forall i :: 0 <= i < |parts| ==> Uncut(g, parts[i].block)
  }

  lemma WrapBlockComposed(face: Face, node: Node, width: real, size: real, leading: real, regular: Font, bold: Font)
    requires FaceOk(face) && 56.0 <= width && 0.0 <= size <= 14.0
    ensures Composed(face.glyph, WrapBlock(face, node, width, size, leading, regular, bold))
  {
    hide Wrapped, Words?;
    GlyphsFitWidth(face.glyph, size, width);
    assert Words?(face.words(node));
  }

  lemma PlainComposed(c: Context, kind: Kind, e: Entry)
    requires ContextOk(c)
    ensures AllComposed(c.face.glyph, ContentParts(PlainBlocks(c, kind, e)))
  {
    hide Composed, FaceOk;
    var headers := HeaderBlocks(c, kind, e);
    forall i | 0 <= i < |e.header| ensures Composed(c.face.glyph, headers[i]) {
      var b := headers[i];
      WrapBlockComposed(c.face, e.header[i], c.width, b.size, b.leading, b.regular, b.bold);
    }
    var bodies := BodyBlocks(c, e);
    forall i | 0 <= i < |e.body| ensures Composed(c.face.glyph, bodies[i]) {
      var b := bodies[i];
      WrapBlockComposed(c.face, e.body[i], b.width, b.size, b.leading, b.regular, b.bold);
    }
  }

  lemma CardComposed(c: Context, e: Entry)
    requires ContextOk(c) && e.header != []
    ensures AllComposed(c.face.glyph, ContentParts(CardBlocks(c, e)))
  {
    hide Composed, FaceOk, Wrapped, StackHeight, MetricSteps, CardLabels, Height, DensityOk;
    var card := MakeCard(c, e);
    var width := CardWidth(c) - 14.0;
    WrapBlockComposed(c.face, e.header[0], width, card.metric.size, card.metric.leading, Bold, Bold);
    forall i | 0 <= i < |card.labels| ensures Composed(c.face.glyph, card.labels[i]) {
      WrapBlockComposed(c.face, CardLabels(e)[i], width, 7.5, 9.0, Regular, Bold);
    }
  }

  lemma {:induction false} EntriesComposed(c: Context, kind: Kind, entries: seq<Entry>)
    requires ContextOk(c)
    ensures AllComposed(c.face.glyph, EntriesParts(c, kind, entries))
  {
    hide Composed, ContextOk, CardBlocks, PlainBlocks;
    if entries != [] {
      PlainComposed(c, kind, entries[0]);
      if entries[0].header != [] {
        CardComposed(c, entries[0]);
      }
      EntriesComposed(c, kind, entries[1..]);
    }
  }

  lemma PlainBlockComposed(c: Context, id: string, text: string)
    requires ContextOk(c)
    ensures Composed(c.face.glyph, PlainBlock(c, id, text))
  {
    hide Wrapped;
    WrapBlockComposed(c.face, Node("layout", text, ["layout"], []), c.width,
                      c.density.sectionSize, c.density.sectionLeading, Display, Display);
  }

  lemma {:induction false} SectionsComposed(c: Context, sections: seq<Section>)
    requires ContextOk(c)
    ensures AllComposed(c.face.glyph, SectionsParts(c, sections))
  {
    hide Composed, ContextOk, EntriesParts, PlainBlock;
    if sections != [] {
      PlainBlockComposed(c, sections[0].id, sections[0].title);
      EntriesComposed(c, sections[0].kind, sections[0].entries);
      SectionsComposed(c, sections[1..]);
    }
  }

  lemma ColumnComposed(c: Context, profile: Option<Node>, sections: seq<Section>)
    requires ContextOk(c)
    ensures AllComposed(c.face.glyph, ColumnParts(c, profile, sections))
  {
    hide Wrapped, SectionsParts, FaceOk;
    SectionsComposed(c, sections);
    WrapBlockComposed(c.face, Node("layout", "Profile", ["layout"], []), c.width, 12.2, 13.4, Display, Display);
    if profile.Some? {
      WrapBlockComposed(c.face, profile.value, c.width, c.density.bodySize, c.density.bodyLeading, Regular, Bold);
    }
  }

  /** The words read off a block's lines are the pieces of its words. */
  function BlockPieces(g: Glyphs, b: Block): seq<string> { Pieces(g, b.words, b.size, b.width, b.regular, b.bold) }

  ghost predicate ReadAsPieces(g: Glyphs, parts: seq<Part>) {
    forall i :: 0 <= i < |parts| ==> LinesTexts(parts[i].block.lines) == BlockPieces(g, parts[i].block)
  }

  lemma BlockReads(g: Glyphs, b: Block)
    requires Composed(g, b)
    ensures LinesTexts(b.lines) == BlockPieces(g, b)
    ensures Uncut(g, b) ==> LinesTexts(b.lines) == Texts(b.words)
    ensures !Uncut(g, b) ==> |LinesTexts(b.lines)| > |b.words|
  {
    hide Wrapped, NoLongWord, Pieces;
    WrappedReads(g, b.words, b.size, b.width, b.regular, b.bold);
    PiecesExactly(g, b.words, b.size, b.width, b.regular, b.bold);
  }

  /** A reader finds the pieces of the resume in its own words if and only if no word was cut. */
  lemma ReadExactly(g: Glyphs, parts: seq<Part>)
    requires AllComposed(g, parts)
    ensures ReadAsPieces(g, parts)
    ensures Items(parts) == Named(parts) <==> AllUncut(g, parts)
  {
    hide Composed, Uncut, BlockPieces, LinesTexts;
    forall i | 0 <= i < |parts|
      ensures LinesTexts(parts[i].block.lines) == BlockPieces(g, parts[i].block)
      ensures Items(parts)[i] == Named(parts)[i] <==> Uncut(g, parts[i].block)
    {
      BlockReads(g, parts[i].block);
    }
  }

  // ------------------------------------------------------------ lists of parts

  lemma {:induction false} PartsAppend(a: seq<Draw>, b: seq<Draw>)
    ensures Parts(a + b) == Parts(a) + Parts(b)
  {
    if a == [] {
      assert a + b == b;
    } else {
      assert (a + b)[1..] == a[1..] + b;
      PartsAppend(a[1..], b);
    }
  }

  lemma ContentPartsAppend(a: seq<Block>, b: seq<Block>)
    ensures ContentParts(a + b) == ContentParts(a) + ContentParts(b)
  {}

  // ---------------------------------------- each flow draws its script in order

  /** The last thing drawn is content, on the page the cursor is left on; if nothing
      is drawn the cursor has not turned a page. */
  predicate EndsOnContent(from: Pos, draws: seq<Draw>, to: Pos) {
    if draws == [] then to.page == from.page
    else draws[|draws| - 1].role.Content? && draws[|draws| - 1].page == to.page
  }

  lemma {:induction false} StackDraws(blocks: seq<Block>, page: nat, x: real, y: real, gap: real)
    ensures var draws := Stack(blocks, page, x, y, gap);
      && |draws| == |blocks|
      && (forall d :: d in draws ==> d.role.Content? && d.page == page)
      && Parts(draws) == ContentParts(blocks)
  {
    if blocks != [] {
      StackDraws(blocks[1..], page, x, y - (Height(blocks[0]) + gap), gap);
      assert ContentParts(blocks) == ContentParts(blocks[..1]) + ContentParts(blocks[1..]);
    }
  }

  lemma {:induction false} FlowBodiesDraws(c: Context, blocks: seq<Block>, pos: Pos)
    requires FlowBodies(c, blocks, pos).Done?
    ensures var o := FlowBodies(c, blocks, pos);
      && |o.draws| == |blocks|
      && (forall d :: d in o.draws ==> d.role.Content?)
      && Parts(o.draws) == ContentParts(blocks)
      && EndsOnContent(pos, o.draws, o.pos)
  {
    if blocks != [] {
      var step := Height(blocks[0]) + c.density.bulletGap;
      var at := Advance(c.tops, pos, step).value;
      var next := Pos(at.page, at.y - step);
      FlowBodiesDraws(c, blocks[1..], next);
      assert ContentParts(blocks) == ContentParts(blocks[..1]) + ContentParts(blocks[1..]);
      var d := Draw(at.page, BodyX(c), at.y, Role.Content, blocks[0]);
      PartsAppend([d], FlowBodies(c, blocks[1..], next).draws);
    }
  }

  lemma DrawEntryDraws(c: Context, kind: Kind, e: Entry, pos: Pos)
    requires WellFormedEntry(e) && DrawEntry(c, kind, e, pos).Done?
    ensures var o := DrawEntry(c, kind, e, pos);
      && |o.draws| == |e.header| + |e.body|
      && (forall d :: d in o.draws ==> d.role.Content?)
      && Parts(o.draws) == ContentParts(PlainBlocks(c, kind, e))
      && o.draws != [] && EndsOnContent(pos, o.draws, o.pos)
  {
    hide HeaderBlock, BodyBlock, StackHeight, Parts, ContentParts, FlowBodies;
    var headers := HeaderBlocks(c, kind, e);
    StackDraws(headers, pos.page, c.x, pos.y, 1.0);
    var mid := Pos(pos.page, pos.y - StackHeight(headers, 1.0) - 1.0);
    FlowBodiesDraws(c, BodyBlocks(c, e), mid);
    var stack := Stack(headers, pos.page, c.x, pos.y, 1.0);
    var bodies := FlowBodies(c, BodyBlocks(c, e), mid);
    PartsAppend(stack, bodies.draws);
    ContentPartsAppend(headers, BodyBlocks(c, e));
    assert stack[|stack| - 1] in stack;
  }

  lemma PlaceEntryDraws(c: Context, kind: Kind, e: Entry, pos: Pos)
    requires c.tops != [] && WellFormedEntry(e) && PlaceEntry(c, kind, e, pos).Done?
    ensures var o := PlaceEntry(c, kind, e, pos);
      Parts(o.draws) == ContentParts(PlainBlocks(c, kind, e)) && o.draws != [] && EndsOnContent(pos, o.draws, o.pos)
  {
    hide DrawEntry, WrapBlock, TotalHeight, MinimumHeight, Capacity, PlainBlocks;
    var required := Required(c, kind, e);
    if pos.y - required < CONTENT_BOTTOM {
      var heading := ContinuationBlock(c, kind);
      var at := Advance(c.tops, pos, required + (Height(heading) + 10.0)).value;
      var mid := Pos(at.page, at.y - Height(heading) - 10.0);
      DrawEntryDraws(c, kind, e, mid);
      PartsAppend([Draw(at.page, c.x, at.y, Continuation, heading)], DrawEntry(c, kind, e, mid).draws);
    } else {
      DrawEntryDraws(c, kind, e, pos);
    }
  }

  lemma {:induction false} FlowEntriesDraws(c: Context, kind: Kind, entries: seq<Entry>, pos: Pos)
    requires c.tops != [] && (forall e :: e in entries ==> WellFormedEntry(e))
    requires !(kind == Metrics && c.sidebar) && FlowEntries(c, kind, entries, pos).Done?
    ensures var o := FlowEntries(c, kind, entries, pos);
      && Parts(o.draws) == EntriesParts(c, kind, entries)
      && (entries != [] ==> o.draws != []) && EndsOnContent(pos, o.draws, o.pos)
  {
    hide PlaceEntry, HeaderBlocks, BodyBlocks;
    if entries != [] {
      PlaceEntryDraws(c, kind, entries[0], pos);
      var first := PlaceEntry(c, kind, entries[0], pos);
      var next := Pos(first.pos.page, first.pos.y - c.density.entryGap);
      FlowEntriesDraws(c, kind, entries[1..], next);
      PartsAppend(first.draws, FlowEntries(c, kind, entries[1..], next).draws);
    }
  }

  lemma CardNamed(c: Context, e: Entry)
    requires |e.header| == 1 && |e.body| == 1
    ensures Named(ContentParts(CardBlocks(c, e))) == EntryItems(c.face, e)
  {
    EntryNamed(c.(sidebar := true), Metrics, e);
    assert MakeCard(c.(sidebar := true), e) == MakeCard(c, e) by { CardAlike(c.(sidebar := true), c, e); }
  }

  /** The grid's cut to two label nodes drops nothing of a well-formed metric card. */
  lemma DrawCardDraws(c: Context, e: Entry, page: nat, x: real, y: real)
    requires |e.header| == 1 && |e.body| == 1
    ensures var draws := DrawCard(MakeCard(c, e), page, x, y);
      && Parts(draws) == ContentParts(CardBlocks(c, e))
      && (c.sidebar ==> EntryBlocks(c, Metrics, e) == CardBlocks(c, e))
      && |draws| == 2 && forall d :: d in draws ==> d.role.Content? && d.page == page
    ensures Named(ContentParts(CardBlocks(c, e))) == EntryItems(c.face, e)
  {
    hide Wrapped, MetricSteps, StackHeight;
    var card := MakeCard(c, e);
    assert CardLabels(e) == e.body;
    var top := y - 7.0 - (Height(card.metric) + 2.0);
    StackDraws(card.labels, page, x + 7.0, top, 1.0);
    var d := Draw(page, x + 7.0, y - 7.0, Role.Content, card.metric);
    PartsAppend([d], Stack(card.labels, page, x + 7.0, top, 1.0));
    assert Parts([d]) == ContentParts([card.metric]);
    ContentPartsAppend([card.metric], card.labels);
    CardNamed(c, e);
  }

  lemma NoParts(c: Context, kind: Kind, pos: Pos)
    ensures Parts([]) == EntriesParts(c, kind, []) == [] && EndsOnContent(pos, [], pos)
  {}

  lemma CardsEnd(from: Pos, row: seq<Draw>, next: Pos, rest: seq<Draw>, to: Pos)
    requires row != [] && row[|row| - 1].role.Content? && row[|row| - 1].page == next.page
    requires EndsOnContent(next, rest, to)
    ensures EndsOnContent(from, row + rest, to)
  {}

  lemma {:induction false} FlowCardsDraws(c: Context, entries: seq<Entry>, pos: Pos)
    requires CardEntries(entries) && c.sidebar && FlowCards(c, entries, pos).Done?
    ensures var o := FlowCards(c, entries, pos);
      && Parts(o.draws) == EntriesParts(c, Metrics, entries)
      && (entries != [] ==> o.draws != []) && EndsOnContent(pos, o.draws, o.pos)
    decreases |entries|
  {
    hide MakeCard, DrawCard, RowHeight, EntryBlocks, CardBlocks, Parts, ContentParts, EndsOnContent;
    if entries == [] {
      NoParts(c, Metrics, pos);
    } else {
      var n := if |entries| == 1 then 1 else 2;
      var at := Advance(c.tops, pos, RowHeight(c, entries)).value;
      var next := Pos(at.page, at.y - (RowHeight(c, entries) + CARD_GAP));
      var left := DrawCard(MakeCard(c, entries[0]), at.page, c.x, at.y);
      DrawCardDraws(c, entries[0], at.page, c.x, at.y);
      FlowCardsDraws(c, entries[n..], next);
      var rest := FlowCards(c, entries[n..], next);
      if |entries| == 1 {
        assert left + [] == left;
      } else {
        var x := c.x + (CardWidth(c) + CARD_GAP);
        DrawCardDraws(c, entries[1], at.page, x, at.y);
        PartsAppend(left, DrawCard(MakeCard(c, entries[1]), at.page, x, at.y));
        assert entries[1..][1..] == entries[2..];
      }
      PartsAppend(DrawRow(c, entries, at), rest.draws);
      var row := DrawRow(c, entries, at);
      CardsEnd(pos, row, next, rest.draws, rest.pos);
    }
  }

  lemma FlowSectionDraws(c: Context, s: Section, pos: Pos)
    requires c.tops != [] && WellFormedSection(s) && FlowSection(c, s, pos).Done?
    ensures var o := FlowSection(c, s, pos);
      Parts(o.draws) == SectionParts(c, s) && o.draws != [] && EndsOnContent(pos, o.draws, o.pos)
  {
    hide FlowCards, FlowEntries, FirstReserve, EntriesParts, Wrapped;
    var heading := HeadingBlock(c, s);
    var at := Advance(c.tops, pos, Height(heading) + 6.0 + FirstReserve(c, s)).value;
    var mid := Pos(at.page, at.y - (Height(heading) + 3.0) - 7.0);
    var body := SectionBody(c, s, mid);
    if s.kind == Metrics && c.sidebar {
      FlowCardsDraws(c, s.entries, mid);
    } else {
      FlowEntriesDraws(c, s.kind, s.entries, mid);
    }
    var d := Draw(at.page, c.x, at.y, Heading, heading);
    PartsAppend([d], body.draws);
    assert Parts([d]) == [Part(Heading, heading)];
  }

  lemma {:induction false} FlowSectionsDraws(c: Context, sections: seq<Section>, pos: Pos)
    requires c.tops != [] && (forall s :: s in sections ==> WellFormedSection(s))
    requires FlowSections(c, sections, pos).Done?
    ensures var o := FlowSections(c, sections, pos);
      Parts(o.draws) == SectionsParts(c, sections) && EndsOnContent(pos, o.draws, o.pos)
  {
    hide FlowSection, SectionParts, WellFormedSection;
    if sections != [] {
      FlowSectionDraws(c, sections[0], pos);
      var first := FlowSection(c, sections[0], pos);
      FlowSectionsDraws(c, sections[1..], first.pos);
      PartsAppend(first.draws, FlowSections(c, sections[1..], first.pos).draws);
    }
  }

  lemma FlowProfileDraws(c: Context, profile: Option<Node>, pos: Pos)
    requires FlowProfile(c, profile, pos).Done?
    ensures var o := FlowProfile(c, profile, pos);
      Parts(o.draws) == ProfileParts(c, profile) && EndsOnContent(pos, o.draws, o.pos)
  {
    match profile
    case None =>
    case Some(node) =>
      var o := FlowProfile(c, profile, pos);
      PartsAppend([o.draws[0]], [o.draws[1]]);
      assert o.draws == [o.draws[0]] + [o.draws[1]];
  }

  /** A column that does not overflow draws exactly what it has to, once and in order, and
      finishes on content. */
  lemma FlowColumnDraws(c: Context, profile: Option<Node>, sections: seq<Section>)
    requires c.tops != [] && (forall s :: s in sections ==> WellFormedSection(s))
    requires FlowColumn(c, profile, sections).Done?
    ensures var o := FlowColumn(c, profile, sections);
      && Parts(o.draws) == ColumnParts(c, profile, sections)
      && EndsOnContent(Pos(0, c.tops[0]), o.draws, o.pos)
  {
    hide FlowSections, FlowProfile, ProfileParts, SectionsParts, WellFormedSection;
    var start := Pos(0, c.tops[0]);
    FlowProfileDraws(c, profile, start);
    var first := FlowProfile(c, profile, start);
    FlowSectionsDraws(c, sections, first.pos);
    PartsAppend(first.draws, FlowSections(c, sections, first.pos).draws);
  }

  // ------------------------------------------------------------- kept pages

  /** layout() keeps the pages up to the last one with real content. */
  function UsedPages(laid: LayoutResult, maximumPages: nat): (used: nat)
    requires laid.Laid? && 1 <= maximumPages
    ensures 1 <= used <= maximumPages
  {
    if maximumPages == 1
       || exists i :: 0 <= i < |laid.main + laid.side|
            && (laid.main + laid.side)[i].role.Content? && (laid.main + laid.side)[i].page == maximumPages - 1
    then maximumPages else UsedPages(laid, maximumPages - 1)
  }

  lemma {:induction false} UsedPagesCovers(laid: LayoutResult, maximumPages: nat, k: nat)
    requires laid.Laid? && 1 <= maximumPages
    requires k < |laid.main + laid.side|
    requires (laid.main + laid.side)[k].role.Content? && (laid.main + laid.side)[k].page < maximumPages
    ensures (laid.main + laid.side)[k].page < UsedPages(laid, maximumPages)
  {
    if maximumPages > 1 && (laid.main + laid.side)[k].page != maximumPages - 1 {
      UsedPagesCovers(laid, maximumPages - 1, k);
    }
  }

  /** Every draw of a column, heading and continuation included, has content of the
      same column on its own page or a later one. */
  lemma HeadingsPrecedeContent(c: Context, profile: Option<Node>, sections: seq<Section>, i: nat) returns (k: nat)
    requires ContextOk(c) && (profile.Some? ==> 354.0 <= c.width)
    requires forall s :: s in sections ==> WellFormedSection(s)
    requires FlowColumn(c, profile, sections).Done? && i < |FlowColumn(c, profile, sections).draws|
    ensures var draws := FlowColumn(c, profile, sections).draws;
      k < |draws| && draws[k].role.Content? && draws[i].page <= draws[k].page < |c.tops|
      && (i < k || draws[i].role.Content?)
  {
    hide FlowColumn, AllApart, ContentBetween, ContextOk, WellFormedSection, Parts, ColumnParts;
    FlowColumnDescends(c, profile, sections);
    FlowColumnOk(c);
    FlowColumnDraws(c, profile, sections);
    k := |FlowColumn(c, profile, sections).draws| - 1;
  }

  lemma FlowColumnOk(c: Context)
    requires ContextOk(c)
    ensures c.tops != []
  {}

  /** If layout does not overflow, the two columns draw exactly their scripts: the profile,
      every section title, header and body node once and in order.  A reader of the lines
      finds each in its own words, in pieces where a word had to be cut, and so finds the
      resume's words if and only if none was.  Everything drawn is on a page that is kept. */
  lemma NothingLost(face: Face, ast: Ast, density: Density, maximumPages: nat)
    requires FaceOk(face) && WellFormed(ast) && density in DENSITIES && 1 <= maximumPages
    requires LayoutOf(face, ast, density, maximumPages).Laid?
    ensures var laid := LayoutOf(face, ast, density, maximumPages);
      && Parts(laid.main) == MainParts(face, ast, density, maximumPages)
      && Parts(laid.side) == SideParts(face, ast, density, maximumPages)
      && ReadAsPieces(face.glyph, Parts(laid.main)) && ReadAsPieces(face.glyph, Parts(laid.side))
      && (Items(Parts(laid.main)) == ProfileItems(face, ast.summary) + SectionsItems(face, Placed(ast.sections, Main))
          <==> AllUncut(face.glyph, MainParts(face, ast, density, maximumPages)))
      && (Items(Parts(laid.side)) == SectionsItems(face, Placed(ast.sections, Sidebar))
          <==> AllUncut(face.glyph, SideParts(face, ast, density, maximumPages)))
      && forall d :: d in laid.main || d in laid.side ==> d.page < UsedPages(laid, maximumPages)
  {
    hide LayoutOf, FaceOk, WellFormed, UsedPages, Items, Parts, AllUncut, ReadAsPieces, MainParts, SideParts;
    ColumnsDrawn(face, ast, density, maximumPages);
    ScriptNamed(face, ast, density, maximumPages);
    DrawnOnKeptPages(face, ast, density, maximumPages);
  }

  function MainParts(face: Face, ast: Ast, density: Density, maximumPages: nat): seq<Part>
    requires 1 <= maximumPages
  {
    ColumnParts(MainContext(face, ast, density, maximumPages), ast.summary, Placed(ast.sections, Main))
  }

  function SideParts(face: Face, ast: Ast, density: Density, maximumPages: nat): seq<Part>
    requires 1 <= maximumPages
  {
    ColumnParts(SideContext(face, density, maximumPages), None, Placed(ast.sections, Sidebar))
  }

  lemma ColumnsDrawn(face: Face, ast: Ast, density: Density, maximumPages: nat)
    requires FaceOk(face) && WellFormed(ast) && density in DENSITIES && 1 <= maximumPages
    requires LayoutOf(face, ast, density, maximumPages).Laid?
    ensures var laid := LayoutOf(face, ast, density, maximumPages);
      && Parts(laid.main) == MainParts(face, ast, density, maximumPages)
      && Parts(laid.side) == SideParts(face, ast, density, maximumPages)
  {
    hide FlowColumn, FaceOk, WellFormedSection, Parts, ColumnParts, DensityOk;
    ContextsOk(face, ast, density, maximumPages);
    PlacedMembers(ast.sections, Main);
    PlacedMembers(ast.sections, Sidebar);
    var side := Placed(ast.sections, Sidebar);
    FlowColumnDraws(MainContext(face, ast, density, maximumPages), ast.summary, Placed(ast.sections, Main));
    if side == [] {
      NothingToDraw(SideContext(face, density, maximumPages));
    } else {
      FlowColumnDraws(SideContext(face, density, maximumPages), None, side);
    }
  }

  lemma NothingToDraw(c: Context)
    ensures Parts([]) == ColumnParts(c, None, []) == []
  {}

  /** Both scripts in the resume's words, and when a reader finds them so. */
  lemma ScriptNamed(face: Face, ast: Ast, density: Density, maximumPages: nat)
    requires FaceOk(face) && WellFormed(ast) && density in DENSITIES && 1 <= maximumPages
    ensures var main, side := MainParts(face, ast, density, maximumPages), SideParts(face, ast, density, maximumPages);
      && AllComposed(face.glyph, main) && AllComposed(face.glyph, side)
      && ReadAsPieces(face.glyph, main) && ReadAsPieces(face.glyph, side)
      && Named(main) == ProfileItems(face, ast.summary) + SectionsItems(face, Placed(ast.sections, Main))
      && Named(side) == SectionsItems(face, Placed(ast.sections, Sidebar))
      && (Items(main) == Named(main) <==> AllUncut(face.glyph, main))
      && (Items(side) == Named(side) <==> AllUncut(face.glyph, side))
  {
    hide FaceOk, WellFormedSection, ColumnParts, AllComposed, ReadAsPieces, AllUncut, Items, Named, DensityOk,
      ProfileItems, SectionsItems;
    ContextsOk(face, ast, density, maximumPages);
    PlacedMembers(ast.sections, Main);
    PlacedMembers(ast.sections, Sidebar);
    var mc, sc := MainContext(face, ast, density, maximumPages), SideContext(face, density, maximumPages);
    ColumnComposed(mc, ast.summary, Placed(ast.sections, Main));
    ColumnNamed(mc, ast.summary, Placed(ast.sections, Main));
    ReadExactly(face.glyph, MainParts(face, ast, density, maximumPages));
    var side := Placed(ast.sections, Sidebar);
    ColumnComposed(sc, None, side);
    ColumnNamed(sc, None, side);
    ReadExactly(face.glyph, SideParts(face, ast, density, maximumPages));
    NoProfileItems(face, side);
  }

  lemma NoProfileItems(face: Face, sections: seq<Section>)
    ensures ProfileItems(face, None) + SectionsItems(face, sections) == SectionsItems(face, sections)
  {}

  lemma DrawnOnKeptPages(face: Face, ast: Ast, density: Density, maximumPages: nat)
    requires FaceOk(face) && WellFormed(ast) && density in DENSITIES && 1 <= maximumPages
    requires LayoutOf(face, ast, density, maximumPages).Laid?
    ensures var laid := LayoutOf(face, ast, density, maximumPages);
      forall d :: d in laid.main || d in laid.side ==> d.page < UsedPages(laid, maximumPages)
  {
    hide FlowColumn, FaceOk, WellFormedSection, UsedPages, DensityOk;
    ContextsOk(face, ast, density, maximumPages);
    PlacedMembers(ast.sections, Main);
    PlacedMembers(ast.sections, Sidebar);
    var side := Placed(ast.sections, Sidebar);
    var laid := LayoutOf(face, ast, density, maximumPages);
    var mc := MainContext(face, ast, density, maximumPages);
    var main := Placed(ast.sections, Main);
    forall d | d in laid.main ensures d.page < UsedPages(laid, maximumPages) {
      var i :| 0 <= i < |laid.main| && laid.main[i] == d;
      var k := HeadingsPrecedeContent(mc, ast.summary, main, i);
      assert (laid.main + laid.side)[k] == laid.main[k];
      UsedPagesCovers(laid, maximumPages, k);
    }
    if side != [] {
      var sc := SideContext(face, density, maximumPages);
      forall d | d in laid.side ensures d.page < UsedPages(laid, maximumPages) {
        var i :| 0 <= i < |laid.side| && laid.side[i] == d;
        var k := HeadingsPrecedeContent(sc, None, side, i);
        assert (laid.main + laid.side)[|laid.main| + k] == laid.side[k];
        UsedPagesCovers(laid, maximumPages, |laid.main| + k);
      }
    }
  }
}
