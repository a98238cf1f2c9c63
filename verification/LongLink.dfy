/** A resume whose text and page disagree: an address wider than the sidebar
    (resume-renderer-v2/app.py, 526-540, 1141-1152, 1255-1259). */
module LongLink {
  import opened Basics
  import opened Text
  import opened Reading
  import opened Resume
  import opened Column
  import opened Geometry
  import opened Layout
  import opened Content
  import opened Masthead
  import opened Ats
  import opened PlainFont

  // ------------------------------------------------------- how many lines

  function Opened(w: Wrapping): nat { |w.lines| + if w.line != [] then 1 else 0 }

  lemma {:induction false} SplitFromCount(g: Glyphs, rest: string, current: string, font: Font, size: real, width: real)
    ensures |SplitFrom(g, rest, current, font, size, width)| <= |rest| + 1
    decreases |rest|
  {
    hide FontWidth;
    if rest != "" {
      SplitFromCount(g, rest[1..], [rest[0]], font, size, width);
      SplitFromCount(g, rest[1..], current + [rest[0]], font, size, width);
    }
  }

  lemma {:induction false} PlacePiecesCount(g: Glyphs, w: Wrapping, pieces: seq<string>, font: Font, size: real,
                                           width: real, index: nat)
    requires index <= |pieces|
    ensures Opened(PlacePieces(g, w, pieces, font, size, width, index)) <= Opened(w) + |pieces| - index
    decreases |pieces| - index
  {
    hide FontWidth;
    if index < |pieces| {
      PlacePiecesCount(g, PlacePiece(g, w, pieces[index], font, size, width, index, |pieces|),
                       pieces, font, size, width, index + 1);
    }
  }

  /** One word takes at most one line more than it has characters. */
  lemma OneWordLines(g: Glyphs, word: Word, size: real, width: real, regular: Font, bold: Font)
    ensures |Wrapped(g, [word], size, width, regular, bold)| <= |word.text| + 1
  {
    hide FontWidth;
    var font := FontOf(word, regular, bold);
    SplitFromCount(g, word.text, "", font, size, width);
    var empty := Wrapping([], [], 0.0);
    assert [word][..0] == [] && PlaceWords(g, [], size, width, regular, bold) == empty;
    PlacePiecesCount(g, empty, SplitPieces(g, word.text, font, size, width), font, size, width, 0);
  }

  /** A section with a single heading-only entry fits the first page if its lines do. */
  lemma OneEntryFits(c: Context, s: Section)
    requires c.tops == [666.0] && s.kind != Metrics && WellFormedSection(s)
    requires |s.entries| == 1 && |s.entries[0].header| == 1 && s.entries[0].body == []
    requires 0.0 <= Height(HeadingBlock(c, s)) <= 81.0
    requires 0.0 <= Height(HeaderBlock(c, s.kind, s.entries[0].header[0], 0)) <= 501.0
    ensures FlowColumn(c, None, [s]).Done?
  {
    hide HeadingBlock, HeaderBlock, Height;
    var e := s.entries[0];
    assert HeaderBlocks(c, s.kind, e) == [HeaderBlock(c, s.kind, e.header[0], 0)];
    assert StackHeight(HeaderBlocks(c, s.kind, e)[1..], 1.0) == 0.0;
    assert BodyBlocks(c, e) == [];
    var mid := Pos(0, 666.0 - (Height(HeadingBlock(c, s)) + 3.0) - 7.0);
    assert DrawEntry(c, s.kind, e, mid).Done?;
    assert PlaceEntry(c, s.kind, e, mid).Done?;
    var next := Lower(PlaceEntry(c, s.kind, e, mid), c.density.entryGap);
    assert s.entries[1..] == [] && FlowEntries(c, s.kind, [], next.pos).Done?;
    var o := FlowSection(c, s, Pos(0, 666.0));
    assert o.Done?;
    assert [s][1..] == [] && FlowSections(c, [], o.pos).Done?;
  }

  // ----------------------------------------------------------- the resume

  const LINK := "https://www.linkedin.com/in/ada-lovelace"

  function OneLine(id: string, title: string, placement: Placement, text: string): Section {
    Section(id, title, Details, placement,
            [Entry(id + "-entry", [Node(id + "-text", text, ["claim"], [])], [])])
  }

  const LINKED: Ast :=
    Ast(Candidate(Node("name", "Ada", ["claim"], []), Node("headline", "Engineer", ["claim"], []), []), None,
        [OneLine("work", "Work", Main, "Engines"), OneLine("links", "Links", Sidebar, LINK)], 1)

  lemma LineHeight(b: Block, n: nat, most: real)
    requires |b.lines| <= n && 0.0 <= b.leading <= most
    ensures 0.0 <= Height(b) <= n as real * most
  {
    var lines := |b.lines| as real;
    ProductNonNegative(lines, b.leading);
    ProductNonNegative(lines, most - b.leading);
    ProductNonNegative(n as real - lines, most);
    assert lines * (most - b.leading) == lines * most - lines * b.leading;
    assert (n as real - lines) * most == n as real * most - lines * most;
  }

  lemma OneLineFits(c: Context, id: string, title: string, placement: Placement, text: string)
    requires c.face == PLAIN_FACE && c.tops == [666.0] && c.density == DENSITIES[0]
    requires Solid(title) && |title| <= 5 && Solid(text) && |text| <= 40
    ensures FlowColumn(c, None, [OneLine(id, title, placement, text)]).Done?
  {
    hide Wrapped, FlowColumn, Solid;
    var s := OneLine(id, title, placement, text);
    var node := s.entries[0].header[0];
    SpelledOne(title);
    SpelledOne(text);
    OneWordLines(SixTenths, Word(title, false), c.density.sectionSize, c.width, Display, Display);
    LineHeight(HeadingBlock(c, s), 6, 13.4);
    var b := HeaderBlock(c, Details, node, 0);
    OneWordLines(SixTenths, Word(text, false), b.size, c.width, Bold, Bold);
    LineHeight(b, 41, 12.2);
    OneEntryFits(c, s);
  }

  /** The link is 192 points wide at 8 points, the sidebar 151: so the first candidate the
      renderer tries has room for everything, and yet its text and its pages disagree. */
  lemma LongLinkBreaksParity()
    ensures FaceOk(PLAIN_FACE) && Folding(PLAIN_FACE, PLAIN_LETTERS, Capitals)
    ensures WellFormed(LINKED) && HeadRendered(PLAIN_LETTERS, LINKED.candidate)
    ensures LayoutOf(PLAIN_FACE, LINKED, DENSITIES[0], 1).Laid?
    ensures LineBag(Capitals, AtsLines(PLAIN_LETTERS, LINKED))
         != ItemBag(Capitals, Items(Shown(PLAIN_FACE, PLAIN_LETTERS, LINKED,
           LayoutOf(PLAIN_FACE, LINKED, DENSITIES[0], 1))))
          + SectionsMarks(LINKED.sections)
  {
    hide Folding, FaceOk, AtsLines, LineBag, ItemBag, Items, Shown, SectionsMarks, Tokens, AllUncut;
    PlainFaceOk();
    PlainFolding();
    LinkedIsWellFormed();
    LinkedIsLaid();
    LinkIsCut();
    AtsParity(PLAIN_FACE, PLAIN_LETTERS, Capitals, LINKED, DENSITIES[0], 1);
  }

  lemma LinkedSections()
    ensures Placed(LINKED.sections, Main) == [OneLine("work", "Work", Main, "Engines")]
    ensures Placed(LINKED.sections, Sidebar) == [OneLine("links", "Links", Sidebar, LINK)]
  {
    var work, links := OneLine("work", "Work", Main, "Engines"), OneLine("links", "Links", Sidebar, LINK);
    assert LINKED.sections[1..] == [links] && [links][1..] == [];
    assert Placed([links], Main) == [] && Placed([links], Sidebar) == [links] + Placed([], Sidebar) == [links];
  }

  lemma LinkedIsWellFormed()
    ensures WellFormed(LINKED)
  {
    assert LINKED.sections[0].placement == Main;
  }

  lemma LinkedIsLaid()
    requires WellFormed(LINKED)
    ensures LayoutOf(PLAIN_FACE, LINKED, DENSITIES[0], 1).Laid?
  {
    hide FlowColumn, WellFormed, OneLine;
    LinkedSections();
    OneLineFits(MainContext(PLAIN_FACE, LINKED, DENSITIES[0], 1), "work", "Work", Main, "Engines");
    OneLineFits(SideContext(PLAIN_FACE, DENSITIES[0], 1), "links", "Links", Sidebar, LINK);
  }

  lemma LinkIsCut()
    ensures !AllUncut(PLAIN_FACE.glyph, Script(PLAIN_FACE, PLAIN_LETTERS, LINKED, DENSITIES[0], 1))
  {
    hide Wrapped, FontWidth, HeadParts, MainParts;
    var c := SideContext(PLAIN_FACE, DENSITIES[0], 1);
    LinkedSections();
    var s := OneLine("links", "Links", Sidebar, LINK);
    var b := HeaderBlock(c, Details, s.entries[0].header[0], 0);
    LinkPart(c, s);
    var script := Script(PLAIN_FACE, PLAIN_LETTERS, LINKED, DENSITIES[0], 1);
    var i := |script| - 1;
    assert script[i].block == b;
    LinkTooWide(b);
  }

  lemma LinkPart(c: Context, s: Section)
    requires s.kind == Details && |s.entries| == 1 && |s.entries[0].header| == 1 && s.entries[0].body == []
    ensures ColumnParts(c, None, [s])
         == [Part(Heading, HeadingBlock(c, s)), Part(Role.Content, HeaderBlock(c, s.kind, s.entries[0].header[0], 0))]
  {
    hide Wrapped;
    var e := s.entries[0];
    assert [s][1..] == [] && s.entries[1..] == [];
    assert HeaderBlocks(c, s.kind, e) == [HeaderBlock(c, s.kind, e.header[0], 0)] && BodyBlocks(c, e) == [];
    assert EntryBlocks(c, s.kind, e) == [HeaderBlock(c, s.kind, e.header[0], 0)];
    assert EntriesParts(c, s.kind, s.entries[1..]) == [];
    assert EntriesParts(c, s.kind, s.entries) == ContentParts(EntryBlocks(c, s.kind, e));
    assert SectionsParts(c, [s]) == SectionParts(c, s) + SectionsParts(c, []) == SectionParts(c, s);
  }

  lemma LinkTooWide(b: Block)
    requires b.words == Spelled(LINK) && b.size == 8.0 && b.width == 151.0 && b.bold == b.regular
    ensures !Uncut(SixTenths, b)
  {
    assert Solid(LINK) && |LINK| == 40;
    SpelledOne(LINK);
    EvenWidth(LINK, b.regular);
    assert FontWidth(SixTenths, b.words[0].text, FontOf(b.words[0], b.regular, b.bold), b.size) == 192.0;
  }
}
