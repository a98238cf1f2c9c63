/** What one column of the resume layout draws and where its cursor ends
    (resume-renderer-v2/app.py, 760-993), as functions of the resume. */
module Column {
  import opened Basics
  import opened Text
  import opened Resume

  /** The font table, and what styled_words makes of a node. */
  datatype Face = Face(glyph: Glyphs, words: Node -> seq<Word>)

  /** A column of a candidate layout; `tops` holds one content top per page. */
  datatype Context = Context(face: Face, density: Density, tops: seq<real>, x: real, width: real, sidebar: bool)

  /** A node wrapped to its column: its lines, and the width and faces they were wrapped with. */
  datatype Block = Block(id: string, words: seq<Word>, lines: seq<Line>, size: real, leading: real,
                         width: real, regular: Font, bold: Font)

  datatype Pos = Pos(page: nat, y: real)

  datatype Role = Heading | Content | Continuation

  /** One call of add_lines; only Content draws are real content. */
  datatype Draw = Draw(page: nat, x: real, top: real, role: Role, block: Block)

  /** Overflow stands for LayoutOverflow. */
  datatype Outcome = Overflow | Done(pos: Pos, draws: seq<Draw>)

  function Prepend(draws: seq<Draw>, o: Outcome): Outcome {
    match o
    case Overflow => Overflow
    case Done(pos, more) => Done(pos, draws + more)
  }

  function Lower(o: Outcome, gap: real): Outcome {
    match o
    case Overflow => Overflow
    case Done(pos, draws) => Done(Pos(pos.page, pos.y - gap), draws)
  }

  function Max(a: real, b: real): real { if a >= b then a else b }

  // ------------------------------------------------------------- measuring

  function LinesHeight(n: int, leading: real): real { n as real * leading }

  function Height(b: Block): real { LinesHeight(|b.lines|, b.leading) }

  function WrapBlock(face: Face, node: Node, width: real, size: real, leading: real, regular: Font, bold: Font): Block {
    Block(node.id, face.words(node), Wrapped(face.glyph, face.words(node), size, width, regular, bold), size, leading,
          width, regular, bold)
  }

  /** wrap_plain of a text of the template or a section title. */
  function PlainBlock(c: Context, id: string, text: string): Block {
    WrapBlock(c.face, Node("layout", text, ["layout"], []), c.width,
              c.density.sectionSize, c.density.sectionLeading, Display, Display).(id := id)
  }

  function HeaderBlock(c: Context, kind: Kind, node: Node, index: nat): Block {
    if kind == Experience && !c.sidebar then
      if index == 0 then WrapBlock(c.face, node, c.width, 9.6, 11.2, Bold, Bold)
      else WrapBlock(c.face, node, c.width, 7.8, 9.5, Medium, Bold)
    else
      WrapBlock(c.face, node, c.width,
        if c.sidebar then c.density.supportSize
        else if index == 0 then c.density.bodySize else c.density.supportSize,
        if c.sidebar || index > 0 then c.density.supportLeading else c.density.bodyLeading,
        if index == 0 then Bold else Regular, Bold)
  }

  function HeaderBlocks(c: Context, kind: Kind, e: Entry): (blocks: seq<Block>) {
    seq(|e.header|, i requires 0 <= i < |e.header| => HeaderBlock(c, kind, e.header[i], i))
  }

  function BodyBlock(c: Context, node: Node): Block {
    if c.sidebar then WrapBlock(c.face, node, c.width, c.density.supportSize, c.density.supportLeading, Regular, Bold)
    else WrapBlock(c.face, node, c.width - 10.0, c.density.bodySize, c.density.bodyLeading, Regular, Bold)
  }

  function BodyBlocks(c: Context, e: Entry): (blocks: seq<Block>) {
    seq(|e.body|, i requires 0 <= i < |e.body| => BodyBlock(c, e.body[i]))
  }

  function StackHeight(blocks: seq<Block>, gap: real): real {
    if blocks == [] then 0.0 else Height(blocks[0]) + gap + StackHeight(blocks[1..], gap)
  }

  function MinimumHeight(c: Context, kind: Kind, e: Entry): real {
    StackHeight(HeaderBlocks(c, kind, e), 1.0)
    + (if e.body != [] then Height(BodyBlock(c, e.body[0])) + c.density.bulletGap else 0.0)
    + 2.0
  }

  function TotalHeight(c: Context, kind: Kind, e: Entry): real {
    StackHeight(HeaderBlocks(c, kind, e), 1.0) + StackHeight(BodyBlocks(c, e), c.density.bulletGap)
  }

  /** The tallest content area of the candidate's pages. */
  function Capacity(tops: seq<real>): real
    requires tops != []
  {
    if |tops| == 1 then tops[0] - CONTENT_BOTTOM
    else Max(Capacity(tops[..|tops| - 1]), tops[|tops| - 1] - CONTENT_BOTTOM)
  }

  /** An entry that fits a page, two points of air included, is kept whole. */
  predicate FitsOnePage(c: Context, kind: Kind, e: Entry)
    requires c.tops != []
  {
    TotalHeight(c, kind, e) + 2.0 <= Capacity(c.tops)
  }

  function Required(c: Context, kind: Kind, e: Entry): real
    requires c.tops != []
  {
    if FitsOnePage(c, kind, e) then TotalHeight(c, kind, e) + 2.0 else MinimumHeight(c, kind, e)
  }

  function FirstReserve(c: Context, s: Section): real
    requires c.tops != [] && s.entries != []
  {
    var preferred := if s.kind == Metrics then 49.0 else TotalHeight(c, s.kind, s.entries[0]) + 2.0;
    if preferred <= Capacity(c.tops) then preferred else MinimumHeight(c, s.kind, s.entries[0])
  }

  // --------------------------------------------------------------- placing

  function Advance(tops: seq<real>, pos: Pos, required: real): Option<Pos> {
    if pos.y - required >= CONTENT_BOTTOM then Some(pos)
    else if pos.page + 1 >= |tops| || tops[pos.page + 1] - required < CONTENT_BOTTOM then None
    else Some(Pos(pos.page + 1, tops[pos.page + 1]))
  }

  function Stack(blocks: seq<Block>, page: nat, x: real, y: real, gap: real): seq<Draw> {
    if blocks == [] then []
    else [Draw(page, x, y, Content, blocks[0])] + Stack(blocks[1..], page, x, y - (Height(blocks[0]) + gap), gap)
  }

  function BodyX(c: Context): real { if c.sidebar then c.x else c.x + 10.0 }

  function FlowBodies(c: Context, blocks: seq<Block>, pos: Pos): Outcome {
    if blocks == [] then Done(pos, [])
    else
      var step := Height(blocks[0]) + c.density.bulletGap;
      match Advance(c.tops, pos, step)
      case None => Overflow
      case Some(at) =>
        Prepend([Draw(at.page, BodyX(c), at.y, Content, blocks[0])],
                FlowBodies(c, blocks[1..], Pos(at.page, at.y - step)))
  }

  function DrawEntry(c: Context, kind: Kind, e: Entry, pos: Pos): Outcome {
    var headers := HeaderBlocks(c, kind, e);
    Prepend(Stack(headers, pos.page, c.x, pos.y, 1.0),
            FlowBodies(c, BodyBlocks(c, e), Pos(pos.page, pos.y - StackHeight(headers, 1.0) - 1.0)))
  }

  function ContinuationBlock(c: Context, kind: Kind): Block {
    PlainBlock(c, "section-continuation", if kind == Experience then "Earlier experience" else "Continued")
  }

  /** One turn of the entry loop: go on here, or start the next page under a continuation heading. */
  function PlaceEntry(c: Context, kind: Kind, e: Entry, pos: Pos): Outcome
    requires c.tops != []
  {
    var required := Required(c, kind, e);
    if pos.y - required < CONTENT_BOTTOM then
      var heading := ContinuationBlock(c, kind);
      match Advance(c.tops, pos, required + (Height(heading) + 10.0))
      case None => Overflow
      case Some(at) =>
        Prepend([Draw(at.page, c.x, at.y, Continuation, heading)],
                DrawEntry(c, kind, e, Pos(at.page, at.y - Height(heading) - 10.0)))
    else DrawEntry(c, kind, e, pos)
  }

  function FlowEntries(c: Context, kind: Kind, entries: seq<Entry>, pos: Pos): Outcome
    requires c.tops != []
  {
    if entries == [] then Done(pos, [])
    else
      match Lower(PlaceEntry(c, kind, entries[0], pos), c.density.entryGap)
      case Overflow => Overflow
      case Done(next, draws) => Prepend(draws, FlowEntries(c, kind, entries[1..], next))
  }

  // ---------------------------------------------------------- metric cards

  datatype Card = Card(metric: Block, labels: seq<Block>, height: real)

  const CARD_GAP: real := 6.0

  function CardWidth(c: Context): real { (c.width - CARD_GAP) / 2.0 }

  /** The size of the metric after `steps` reductions of a quarter point. */
  function MetricSizeAt(steps: nat): real { 14.0 - 0.25 * steps as real }

  function MetricSteps(c: Context, words: seq<Word>, steps: nat): (n: nat)
    requires steps <= 26
    ensures steps <= n <= 26
    decreases 26 - steps
  {
    if MetricSizeAt(steps) > 7.5
       && exists i :: 0 <= i < |words|
            && FontWidth(c.face.glyph, words[i].text, Bold, MetricSizeAt(steps)) > CardWidth(c) - 14.0
    then MetricSteps(c, words, steps + 1) else steps
  }

  function CardLabels(e: Entry): seq<Node>
    requires e.header != []
  {
    var nodes := e.header[1..] + e.body;
    nodes[..if |nodes| <= 2 then |nodes| else 2]
  }

  function LabelBlocks(c: Context, nodes: seq<Node>): (blocks: seq<Block>) {
    seq(|nodes|, i requires 0 <= i < |nodes| =>
      WrapBlock(c.face, nodes[i], CardWidth(c) - 14.0, 7.5, 9.0, Regular, Bold))
  }

  function MakeCard(c: Context, e: Entry): Card
    requires e.header != []
  {
    var node := e.header[0];
    var size := MetricSizeAt(MetricSteps(c, c.face.words(node), 0));
    var metric := WrapBlock(c.face, node, CardWidth(c) - 14.0, size, size + 1.0, Bold, Bold);
    var labels := LabelBlocks(c, CardLabels(e));
    Card(metric, labels, Max(42.0, 8.0 + Height(metric) + StackHeight(labels, 1.0) + 7.0))
  }

  function DrawCard(card: Card, page: nat, x: real, y: real): seq<Draw> {
    [Draw(page, x + 7.0, y - 7.0, Content, card.metric)]
    + Stack(card.labels, page, x + 7.0, y - 7.0 - (Height(card.metric) + 2.0), 1.0)
  }

  /** The two cards of a row side by side, or a last card on its own. */
  function RowHeight(c: Context, entries: seq<Entry>): real
    requires entries != [] && forall e :: e in entries ==> e.header != []
  {
    if |entries| == 1 then MakeCard(c, entries[0]).height
    else Max(MakeCard(c, entries[0]).height, MakeCard(c, entries[1]).height)
  }

  function DrawRow(c: Context, entries: seq<Entry>, at: Pos): seq<Draw>
    requires entries != [] && forall e :: e in entries ==> e.header != []
  {
    DrawCard(MakeCard(c, entries[0]), at.page, c.x, at.y)
    + (if |entries| == 1 then []
       else DrawCard(MakeCard(c, entries[1]), at.page, c.x + (CardWidth(c) + CARD_GAP), at.y))
  }

  function FlowCards(c: Context, entries: seq<Entry>, pos: Pos): Outcome
    requires forall e :: e in entries ==> e.header != []
  {
    if entries == [] then Done(pos, [])
    else
      var n := if |entries| == 1 then 1 else 2;
      match Advance(c.tops, pos, RowHeight(c, entries))
      case None => Overflow
      case Some(at) =>
        Prepend(DrawRow(c, entries, at),
                FlowCards(c, entries[n..], Pos(at.page, at.y - (RowHeight(c, entries) + CARD_GAP))))
  }

  // ------------------------------------------------------ sections, column

  function HeadingBlock(c: Context, s: Section): Block {
    PlainBlock(c, s.id, s.title)
  }

  function SectionBody(c: Context, s: Section, pos: Pos): Outcome
    requires c.tops != [] && WellFormedSection(s)
  {
    if s.kind == Metrics && c.sidebar then FlowCards(c, s.entries, pos)
    else FlowEntries(c, s.kind, s.entries, pos)
  }

  function FlowSection(c: Context, s: Section, pos: Pos): Outcome
    requires c.tops != [] && WellFormedSection(s)
  {
    var heading := HeadingBlock(c, s);
    match Advance(c.tops, pos, Height(heading) + 6.0 + FirstReserve(c, s))
    case None => Overflow
    case Some(at) =>
      Lower(Prepend([Draw(at.page, c.x, at.y, Heading, heading)],
                    SectionBody(c, s, Pos(at.page, at.y - (Height(heading) + 3.0) - 7.0))),
            c.density.sectionGap)
  }

  function FlowSections(c: Context, sections: seq<Section>, pos: Pos): Outcome
    requires c.tops != [] && forall s :: s in sections ==> WellFormedSection(s)
  {
    if sections == [] then Done(pos, [])
    else
      match FlowSection(c, sections[0], pos)
      case Overflow => Overflow
      case Done(next, draws) => Prepend(draws, FlowSections(c, sections[1..], next))
  }

  function ProfileHeading(c: Context): Block {
    WrapBlock(c.face, Node("layout", "Profile", ["layout"], []), c.width, 12.2, 13.4, Display, Display)
      .(id := "profile-heading")
  }

  function ProfileBlock(c: Context, node: Node): Block {
    WrapBlock(c.face, node, c.width, c.density.bodySize, c.density.bodyLeading, Regular, Bold)
  }

  function FlowProfile(c: Context, profile: Option<Node>, pos: Pos): Outcome {
    match profile
    case None => Done(pos, [])
    case Some(node) =>
      var heading := ProfileHeading(c);
      var body := ProfileBlock(c, node);
      match Advance(c.tops, pos, 13.4 + 8.0 + Height(body) + 9.0)
      case None => Overflow
      case Some(at) =>
        var y := at.y - (Height(heading) + 3.0) - 7.0;
        Done(Pos(at.page, y - (Height(body) + 9.0)),
             [Draw(at.page, c.x, at.y, Heading, heading), Draw(at.page, c.x, y, Content, body)])
  }

  /** _layout_column: the profile, then the sections, from the top of page one. */
  function FlowColumn(c: Context, profile: Option<Node>, sections: seq<Section>): Outcome
    requires c.tops != [] && forall s :: s in sections ==> WellFormedSection(s)
  {
    match FlowProfile(c, profile, Pos(0, c.tops[0]))
    case Overflow => Overflow
    case Done(next, draws) => Prepend(draws, FlowSections(c, sections, next))
  }
}
