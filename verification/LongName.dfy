/** A resume in which no word is cut and yet text and page disagree once the name has been
    deleted: a name of two lines (resume-renderer-v2/app.py, 667-682, 1155-1165). */
module LongName {
  import opened Basics
  import opened Text
  import opened Reading
  import opened Resume
  import opened Column
  import opened Geometry
  import opened Layout
  import opened Content
  import opened Masthead
  import opened Ats
  import opened PlainFont
  import opened LongLink
  import opened Erasure
  import opened NameParity

  function SameLetter(a: char, b: char): bool { Capital(a) == Capital(b) }

  const FIRST := "Maximiliana-Alexandra"
  const LAST := "Worthington"

  const NAME: Node := Node("name", FIRST + " " + LAST, ["claim"], [])

  const LONG_NAMED: Ast :=
    Ast(Candidate(NAME, Node("headline", "Engineer", ["claim"], []), []), None,
        [OneLine("work", "Work", Main, "Engines")], 1)

  lemma NameIsTwoWords()
    ensures Solid(FIRST) && |FIRST| == 21 && Solid(LAST) && |LAST| == 11
    ensures Tokens(NAME.text) == [FIRST, LAST]
    ensures PLAIN_FACE.words(NAME) == [Word(FIRST, false), Word(LAST, false)]
    ensures Texts(PLAIN_FACE.words(NAME)) == [FIRST, LAST] && Join(" ", [FIRST, LAST]) == NAME.text
  {
    NamesAreSolid();
    hide Tokens, Solid;
    TokensOfBoth(FIRST, LAST);
    TokensOfWord(FIRST);
    TokensOfWord(LAST);
    assert [FIRST] + [LAST] == [FIRST, LAST];
    SpelledTwo(NAME.text, FIRST, LAST);
    JoinOfMore([FIRST], LAST);
  }

  lemma NamesAreSolid()
    ensures Solid(FIRST) && |FIRST| == 21 && Solid(LAST) && |LAST| == 11
  {}

  lemma SpelledTwo(text: string, a: string, b: string)
    requires Tokens(text) == [a, b]
    ensures Spelled(text) == [Word(a, false), Word(b, false)]
    ensures Texts(Spelled(text)) == [a, b]
  {
    hide Tokens;
  }

  lemma NameWidths(size: real)
    requires 21.0 <= size <= 29.0
    ensures FontWidth(SixTenths, FIRST, Display, size) <= NAME_WIDTH
    ensures FontWidth(SixTenths, LAST, Display, size) <= NAME_WIDTH
    ensures FontWidth(SixTenths, FIRST, Display, size) + FontWidth(SixTenths, " " + LAST, Display, size)
      > NAME_WIDTH + 0.01
  {
    hide FontWidth;
    WidthIs(FIRST, Display, size);
    WidthIs(LAST, Display, size);
    WidthIs(" " + LAST, Display, size);
    assert |FIRST| == 21 && |LAST| == 11 && |" " + LAST| == 12;
  }

  /** At each of its sizes the name is wider than its line, and neither word is. */
  lemma NameTakesTwoLines(steps: nat)
    requires steps <= 8
    ensures |NameLines(PLAIN_FACE, NAME, steps)| == 2
  {
    hide FontWidth, Solid, Tokens;
    NameIsTwoWords();
    var size := NameSizeAt(steps);
    NameWidths(size);
    FirstPiece(SixTenths, FIRST, Display, size, NAME_WIDTH);
    NextWord(SixTenths, [Word(FIRST, false)], Word(LAST, false), size, NAME_WIDTH, Display);
    assert [Word(FIRST, false)] + [Word(LAST, false)] == [Word(FIRST, false), Word(LAST, false)];
    TwoLines(FIRST, LAST, size);
  }

  lemma TwoLines(first: string, last: string, size: real)
    requires FontWidth(SixTenths, first, Display, size) + FontWidth(SixTenths, " " + last, Display, size)
      > NAME_WIDTH + 0.01
    ensures var w := Wrapping([], [Run(first, Display)], FontWidth(SixTenths, first, Display, size));
      |PlacePiece(SixTenths, w, last, Display, size, NAME_WIDTH, 0, 1).lines| == 1
  {
    hide FontWidth;
  }

  lemma ShortBlock(node: Node, text: string, b: Block)
    requires node.text == text && Solid(text) && |text| <= 8 && 0.0 <= b.size <= 12.2 && 151.0 <= b.width
    requires b.words == PLAIN_FACE.words(node)
    ensures Uncut(SixTenths, b) && Join(" ", Texts(b.words)) == text
  {
    hide FontWidth, Solid, Tokens;
    SpelledOne(text);
    WidthIs(text, FontOf(Word(text, false), b.regular, b.bold), b.size);
    assert Texts([Word(text, false)]) == [text];
    ShortWidth(b.size, |text|);
  }

  lemma NameIsUncut()
    ensures Uncut(SixTenths, NameBlock(PLAIN_FACE, NAME))
  {
    hide FontWidth, Solid, Wrapped, NameSteps;
    NameIsTwoWords();
    var b := NameBlock(PLAIN_FACE, NAME);
    WidthIs(FIRST, Display, b.size);
    WidthIs(LAST, Display, b.size);
  }

  lemma CapitalHeadline()
    ensures Capitals("Engineer") == "ENGINEER" && Solid("ENGINEER") && Capitals("Work") == "WORK"
    ensures Solid("Work") && Solid("Engines")
  {}

  lemma LongNamedSections()
    ensures WellFormed(LONG_NAMED)
    ensures Placed(LONG_NAMED.sections, Main) == [OneLine("work", "Work", Main, "Engines")]
    ensures Placed(LONG_NAMED.sections, Sidebar) == []
  {
    var work := OneLine("work", "Work", Main, "Engines");
    assert LONG_NAMED.sections[0] == work && LONG_NAMED.sections[1..] == [];
    assert Placed([work], Main) == [work] + Placed([], Main) == [work];
    assert Placed([work], Sidebar) == [] + Placed([], Sidebar) == [];
  }

  /** What the resume has to have drawn besides the name: three short words. */
  lemma RestOfScript()
    ensures var c := MainContext(PLAIN_FACE, LONG_NAMED, DENSITIES[0], 1);
      var s := OneLine("work", "Work", Main, "Engines");
      Script(PLAIN_FACE, PLAIN_LETTERS, LONG_NAMED, DENSITIES[0], 1)
      == [Part(Role.Content, NameBlock(PLAIN_FACE, NAME)),
          Part(Role.Content, PlainLine(PLAIN_FACE, "headline", "ENGINEER", 10.3, 11.3, Medium)),
          Part(Heading, HeadingBlock(c, s)), Part(Role.Content, HeaderBlock(c, Details, s.entries[0].header[0], 0))]
  {
    hide Wrapped, NameSteps, PlainLine, HeadingBlock, HeaderBlock, NameBlock;
    var c := MainContext(PLAIN_FACE, LONG_NAMED, DENSITIES[0], 1);
    var s := OneLine("work", "Work", Main, "Engines");
    LongNamedSections();
    CapitalHeadline();
    LinkPart(c, s);
    assert HeadlineText(PLAIN_LETTERS, LONG_NAMED.candidate) == "ENGINEER";
    assert ContactText(PLAIN_LETTERS, LONG_NAMED.candidate) == "";
    NothingToDraw(SideContext(PLAIN_FACE, DENSITIES[0], 1));
  }

  lemma RestIsShort()
    ensures var script := Script(PLAIN_FACE, PLAIN_LETTERS, LONG_NAMED, DENSITIES[0], 1);
      && AllUncut(SixTenths, script)
      && forall i :: 0 < i < |script| ==> |Join(" ", Texts(script[i].block.words))| <= 8
  {
    hide Wrapped, NameSteps, Uncut, Texts, Join, Script;
    var c := MainContext(PLAIN_FACE, LONG_NAMED, DENSITIES[0], 1);
    var s := OneLine("work", "Work", Main, "Engines");
    LongNamedSections();
    RestOfScript();
    CapitalHeadline();
    NameIsUncut();
    ShortBlock(Node("layout", "ENGINEER", ["layout"], []), "ENGINEER",
               PlainLine(PLAIN_FACE, "headline", "ENGINEER", 10.3, 11.3, Medium));
    ShortBlock(Node("layout", "Work", ["layout"], []), "Work", HeadingBlock(c, s));
    ShortBlock(s.entries[0].header[0], "Engines", HeaderBlock(c, Details, s.entries[0].header[0], 0));
  }

  lemma TextOfLongNamed()
    ensures AtsLines(PLAIN_LETTERS, LONG_NAMED) == [NAME.text, "Engineer", "", "WORK", "Engines"]
  {
    CapitalHeadline();
    var s := OneLine("work", "Work", Main, "Engines");
    assert LONG_NAMED.sections[1..] == [] && s.entries[1..] == [];
    assert RenderedTexts(PLAIN_LETTERS, s.entries[0].header) == ["Engines"];
    assert BulletLines(PLAIN_LETTERS, s.entries[0].body) == [];
    assert EntriesLines(PLAIN_LETTERS, s.entries) == ["Engines"] + [] + EntriesLines(PLAIN_LETTERS, s.entries[1..])
      == ["Engines"];
    assert SectionsLines(PLAIN_LETTERS, LONG_NAMED.sections)
        == ["", "WORK"] + ["Engines"] + SectionsLines(PLAIN_LETTERS, LONG_NAMED.sections[1..]);
  }

  lemma NameIsElsewhereAbsent()
    ensures NameNowhereElse(SameLetter, PLAIN_FACE, PLAIN_LETTERS, LONG_NAMED, DENSITIES[0], 1)
  {
    hide Occurs, Script, AtsLines, Join, Texts, AllUncut;
    TextOfLongNamed();
    RestIsShort();
    NameIsTwoWords();
    var lines, script := AtsLines(PLAIN_LETTERS, LONG_NAMED),
      Script(PLAIN_FACE, PLAIN_LETTERS, LONG_NAMED, DENSITIES[0], 1);
    forall i | 0 <= i < |lines[1..]| ensures !Occurs(SameLetter, NAME.text, lines[1..][i]) {
      ShortIsAbsent(SameLetter, NAME.text, lines[1..][i]);
    }
    ScriptSplits(PLAIN_FACE, PLAIN_LETTERS, LONG_NAMED, DENSITIES[0], 1);
    forall i | 0 <= i < |script[1..]|
      ensures !Occurs(SameLetter, NAME.text, Join(" ", Texts(script[1..][i].block.words)))
    {
      assert script[1..][i] == script[i + 1];
      ShortIsAbsent(SameLetter, NAME.text, Join(" ", Texts(script[i + 1].block.words)));
    }
  }

  lemma LongNamedIsLaid()
    requires WellFormed(LONG_NAMED)
    ensures LayoutOf(PLAIN_FACE, LONG_NAMED, DENSITIES[0], 1).Laid?
  {
    hide FlowColumn, WellFormed, OneLine;
    LongNamedSections();
    OneLineFits(MainContext(PLAIN_FACE, LONG_NAMED, DENSITIES[0], 1), "work", "Work", Main, "Engines");
  }

  lemma NameBlockTakesTwoLines()
    ensures |NameBlock(PLAIN_FACE, NAME).lines| == 2
  {
    hide NameLines, NameSteps;
    NameBlockAt(PLAIN_FACE, NAME);
    NameTakesTwoLines(NameSteps(PLAIN_FACE, NAME, 0));
  }

  /** The name takes two lines even at 21 points.  No word is cut, so the words of text and page
      agree, but after the deletion of the name the page has two words more than the text. */
  lemma LongNameBreaksParity()
    ensures FaceOk(PLAIN_FACE) && Folding(PLAIN_FACE, PLAIN_LETTERS, Capitals) && WellFormed(LONG_NAMED)
    ensures AllUncut(SixTenths, Script(PLAIN_FACE, PLAIN_LETTERS, LONG_NAMED, DENSITIES[0], 1))
    ensures LayoutOf(PLAIN_FACE, LONG_NAMED, DENSITIES[0], 1).Laid?
    ensures var laid := LayoutOf(PLAIN_FACE, LONG_NAMED, DENSITIES[0], 1);
      Bag(Capitals, TextLeft(SameLetter, PLAIN_LETTERS, LONG_NAMED))
      != Bag(Capitals, PagesLeft(SameLetter, PLAIN_FACE, PLAIN_LETTERS, LONG_NAMED, laid, 1))
        + SectionsMarks(LONG_NAMED.sections)
  {
    hide Folding, FaceOk, Tokens, AllUncut, Bag, TextLeft, PagesLeft, SectionsMarks, Script, LayoutOf, WellFormed,
      NameNowhereElse, NameBlock, RepeatedName, Capitals;
    PlainFaceOk();
    PlainFolding();
    LongNamedSections();
    LongNamedIsLaid();
    RestIsShort();
    NameIsElsewhereAbsent();
    NameIsTwoWords();
    NameBlockTakesTwoLines();
    assert HeadRendered(PLAIN_LETTERS, LONG_NAMED.candidate)
      && NameRendered(PLAIN_FACE, PLAIN_LETTERS, LONG_NAMED.candidate);
    ParityWithoutName(SameLetter, PLAIN_FACE, PLAIN_LETTERS, Capitals, LONG_NAMED, DENSITIES[0], 1);
  }
}
