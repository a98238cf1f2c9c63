/** The plain text handed to applicant tracking systems and the words of the drawn pages
    (resume-renderer-v2/app.py, 1141-1152, 1208-1259). */
module Ats {
  import opened Basics
  import opened Text
  import opened Reading
  import opened Resume
  import opened Column
  import opened Geometry
  import opened Layout
  import opened Content
  import opened Masthead

  // ---------------------------------------------------------------- ats_text

  function BulletLines(l: Lettering, nodes: seq<Node>): (lines: seq<string>) {
    seq(|nodes|, i requires 0 <= i < |nodes| => "- " + l.rendered(nodes[i].text))
  }

  function EntriesLines(l: Lettering, entries: seq<Entry>): seq<string> {
    if entries == [] then []
    else
      [Join(" | ", RenderedTexts(l, entries[0].header))] + BulletLines(l, entries[0].body)
      + EntriesLines(l, entries[1..])
  }

  function SectionsLines(l: Lettering, sections: seq<Section>): seq<string> {
    if sections == [] then []
    else
      ["", l.upper(l.rendered(sections[0].title))] + EntriesLines(l, sections[0].entries)
      + SectionsLines(l, sections[1..])
  }

  function FrontLines(l: Lettering, c: Candidate): seq<string> {
    [l.rendered(c.name.text), l.rendered(c.headline.text)]
    + if c.contact == [] then [] else [Join(" | ", RenderedTexts(l, c.contact))]
  }

  function ProfileLines(l: Lettering, profile: Option<Node>): seq<string> {
    match profile
    case None => []
    case Some(node) => ["", "PROFILE", l.rendered(node.text)]
  }

  /** The lines of ats_text, before it drops surplus empty ones. */
  function AtsLines(l: Lettering, ast: Ast): seq<string> {
    FrontLines(l, ast.candidate) + ProfileLines(l, ast.summary) + SectionsLines(l, ast.sections)
  }

  // ------------------------------------------------------------ bags of words

  function LinesWords(lines: seq<string>): seq<string> {
    if lines == [] then [] else Tokens(lines[0]) + LinesWords(lines[1..])
  }

  /** The words of a list of items in the order drawn. */
  function ItemWords(items: seq<Item>): seq<string> {
    if items == [] then [] else items[0].texts + ItemWords(items[1..])
  }

  function Bag(fold: string -> string, words: seq<string>): multiset<string> {
    if words == [] then multiset{} else multiset{fold(words[0])} + Bag(fold, words[1..])
  }

  function LineBag(fold: string -> string, lines: seq<string>): multiset<string> { Bag(fold, LinesWords(lines)) }

  function ItemBag(fold: string -> string, items: seq<Item>): multiset<string> { Bag(fold, ItemWords(items)) }

  function Marks(mark: string, n: nat): multiset<string> {
    if n == 0 then multiset{} else multiset{mark} + Marks(mark, n - 1)
  }

  function Bars(header: seq<Node>): nat { if header == [] then 0 else |header| - 1 }

  /** The bars and dashes ats_text adds between and before nodes. */
  function EntriesMarks(entries: seq<Entry>): multiset<string> {
    if entries == [] then multiset{}
    else
      Marks("|", Bars(entries[0].header)) + Marks("-", |entries[0].body|)
      + EntriesMarks(entries[1..])
  }

  function SectionsMarks(sections: seq<Section>): multiset<string> {
    if sections == [] then multiset{} else EntriesMarks(sections[0].entries) + SectionsMarks(sections[1..])
  }

  function Uppered(upper: string -> string, texts: seq<string>): (uppered: seq<string>) {
    seq(|texts|, i requires 0 <= i < |texts| => upper(texts[i]))
  }

  /** What the comparison of words needs of rendered_text, str.upper and str.casefold. */
  ghost predicate Folding(face: Face, l: Lettering, fold: string -> string) {
    && (forall n :: Texts(face.words(n)) == Tokens(l.rendered(n.text)))
    && (forall text :: Tokens(l.upper(text)) == Uppered(l.upper, Tokens(text)))
    && (forall word :: fold(l.upper(word)) == fold(word))
    && l.upper("Profile") == "PROFILE" && fold("|") == "|" && fold("-") == "-"
  }

  /** The headline in capitals and the joined contact line are rendered already. */
  ghost predicate HeadRendered(l: Lettering, c: Candidate) {
    && Tokens(l.rendered(HeadlineText(l, c))) == Tokens(HeadlineText(l, c))
    && Tokens(l.rendered(ContactText(l, c))) == Tokens(ContactText(l, c))
  }

  lemma {:induction false} BagAppend(fold: string -> string, a: seq<string>, b: seq<string>)
    ensures Bag(fold, a + b) == Bag(fold, a) + Bag(fold, b)
  {
    if a == [] {
      assert a + b == b;
    } else {
      assert (a + b)[1..] == a[1..] + b;
      BagAppend(fold, a[1..], b);
    }
  }

  lemma {:induction false} BagSize(fold: string -> string, words: seq<string>)
    ensures |Bag(fold, words)| == |words|
  {
    if words != [] {
      BagSize(fold, words[1..]);
    }
  }

  lemma {:induction false} LinesWordsAppend(a: seq<string>, b: seq<string>)
    ensures LinesWords(a + b) == LinesWords(a) + LinesWords(b)
  {
    hide Tokens;
    if a == [] {
      assert a + b == b;
    } else {
      assert (a + b)[1..] == a[1..] + b;
      LinesWordsAppend(a[1..], b);
    }
  }

  lemma {:induction false} ItemWordsAppend(a: seq<Item>, b: seq<Item>)
    ensures ItemWords(a + b) == ItemWords(a) + ItemWords(b)
  {
    if a == [] {
      assert a + b == b;
    } else {
      assert (a + b)[1..] == a[1..] + b;
      ItemWordsAppend(a[1..], b);
    }
  }

  lemma LineBagAppend(fold: string -> string, a: seq<string>, b: seq<string>)
    ensures LineBag(fold, a + b) == LineBag(fold, a) + LineBag(fold, b)
  {
    LinesWordsAppend(a, b);
    BagAppend(fold, LinesWords(a), LinesWords(b));
  }

  lemma ItemBagAppend(fold: string -> string, a: seq<Item>, b: seq<Item>)
    ensures ItemBag(fold, a + b) == ItemBag(fold, a) + ItemBag(fold, b)
  {
    ItemWordsAppend(a, b);
    BagAppend(fold, ItemWords(a), ItemWords(b));
  }

  lemma OneBag(fold: string -> string, line: string, item: Item)
    ensures LineBag(fold, [line]) == Bag(fold, Tokens(line))
    ensures ItemBag(fold, [item]) == Bag(fold, item.texts)
    ensures LineBag(fold, []) == ItemBag(fold, []) == multiset{}
    ensures LineBag(fold, [""]) == multiset{}
  {
    hide Tokens;
    NoTokens();
    assert LinesWords([line]) == Tokens(line) + LinesWords([line][1..]) == Tokens(line);
    assert LinesWords([""]) == Tokens("") + LinesWords([""][1..]) == [];
    assert ItemWords([item]) == item.texts + ItemWords([item][1..]) == item.texts;
  }

  lemma {:induction false} UpperedBag(upper: string -> string, fold: string -> string, texts: seq<string>)
    requires forall word :: fold(upper(word)) == fold(word)
    ensures Bag(fold, Uppered(upper, texts)) == Bag(fold, texts)
  {
    if texts != [] {
      UpperedBag(upper, fold, texts[1..]);
      assert Uppered(upper, texts)[1..] == Uppered(upper, texts[1..]);
    }
  }

  lemma MarkBag(fold: string -> string, mark: string, rest: seq<string>)
    requires fold(mark) == mark
    ensures Bag(fold, [mark] + rest) == multiset{mark} + Bag(fold, rest)
  {
    assert ([mark] + rest)[1..] == rest;
  }

  // ------------------------------------------------- each part of ats_text

  /** The words of texts with a bar between each two. */
  function Barred(texts: seq<string>): seq<string> {
    if texts == [] then []
    else if |texts| == 1 then Tokens(texts[0])
    else Tokens(texts[0]) + (["|"] + Barred(texts[1..]))
  }

  /** One blank or two on either side of the bar make no difference to a reader. */
  lemma {:induction false} JoinReads(sep: string, texts: seq<string>)
    requires sep == " | " || sep == "  |  "
    ensures Tokens(Join(sep, texts)) == Barred(texts)
  {
    hide Tokens;
    if texts == [] {
      NoTokens();
    } else if |texts| > 1 {
      JoinReads(sep, texts[1..]);
      var rest := Join(sep, texts[1..]);
      TokensOfWord("|");
      if sep == " | " {
        TokensOfBoth("|", rest);
        TokensOfBoth(texts[0], "|" + " " + rest);
        assert texts[0] + sep + rest == texts[0] + " " + ("|" + " " + rest);
      } else {
        NoTokens();
        TokensOfBoth("", rest);
        TokensOfBoth("|", "" + " " + rest);
        TokensOfBoth("", "|" + " " + ("" + " " + rest));
        TokensOfBoth(texts[0], "" + " " + ("|" + " " + ("" + " " + rest)));
        assert [] + Barred(texts[1..]) == Barred(texts[1..]);
        assert texts[0] + sep + rest == texts[0] + " " + ("" + " " + ("|" + " " + ("" + " " + rest)));
      }
    }
  }

  lemma Lettered(face: Face, l: Lettering, fold: string -> string, node: Node)
    requires Folding(face, l, fold)
    ensures Texts(face.words(node)) == Tokens(l.rendered(node.text))
    ensures fold("|") == "|" && fold("-") == "-"
  {
    hide Tokens, Texts;
  }

  lemma {:induction false} BarredBag(fold: string -> string, face: Face, l: Lettering, nodes: seq<Node>)
    requires Folding(face, l, fold)
    ensures Bag(fold, Barred(RenderedTexts(l, nodes)))
         == ItemBag(fold, NodeItems(face, nodes)) + Marks("|", Bars(nodes))
  {
    hide Bag, ItemBag, Texts, Tokens, Folding;
    var texts := RenderedTexts(l, nodes);
    if nodes == [] {
      NoNodes(fold, face);
    } else {
      Lettered(face, l, fold, nodes[0]);
      var first := Item(Role.Content, nodes[0].id, Texts(face.words(nodes[0])));
      assert NodeItems(face, nodes) == [first] + NodeItems(face, nodes[1..]);
      ItemBagAppend(fold, [first], NodeItems(face, nodes[1..]));
      OneBag(fold, "", first);
      if |nodes| == 1 {
        NoNodes(fold, face);
        assert NodeItems(face, nodes[1..]) == [];
      } else {
        BarredBag(fold, face, l, nodes[1..]);
        assert texts[1..] == RenderedTexts(l, nodes[1..]);
        var tail := Barred(texts[1..]);
        BagAppend(fold, first.texts, ["|"] + tail);
        MarkBag(fold, "|", tail);
      }
    }
  }

  lemma NoNodes(fold: string -> string, face: Face)
    ensures Bag(fold, []) == ItemBag(fold, NodeItems(face, [])) == multiset{}
  {}

  lemma HeaderBag(fold: string -> string, face: Face, l: Lettering, nodes: seq<Node>)
    requires Folding(face, l, fold)
    ensures LineBag(fold, [Join(" | ", RenderedTexts(l, nodes))])
         == ItemBag(fold, NodeItems(face, nodes)) + Marks("|", Bars(nodes))
  {
    hide Bag, ItemBag, LineBag, Tokens, Folding;
    var line := Join(" | ", RenderedTexts(l, nodes));
    OneBag(fold, line, Item(Heading, "", []));
    JoinReads(" | ", RenderedTexts(l, nodes));
    BarredBag(fold, face, l, nodes);
  }

  lemma BulletReads(fold: string -> string, face: Face, l: Lettering, node: Node)
    requires Folding(face, l, fold)
    ensures LineBag(fold, ["- " + l.rendered(node.text)])
         == multiset{"-"} + ItemBag(fold, [Item(Role.Content, node.id, Texts(face.words(node)))])
  {
    hide Bag, ItemBag, LineBag, Tokens, Texts, Folding;
    Lettered(face, l, fold, node);
    var text := l.rendered(node.text);
    var item := Item(Role.Content, node.id, Texts(face.words(node)));
    OneBag(fold, "- " + text, item);
    TokensOfWord("-");
    TokensOfBoth("-", text);
    assert "- " + text == "-" + " " + text;
    MarkBag(fold, "-", Tokens(text));
  }

  lemma {:induction false} BulletBag(fold: string -> string, face: Face, l: Lettering, nodes: seq<Node>)
    requires Folding(face, l, fold)
    ensures LineBag(fold, BulletLines(l, nodes)) == ItemBag(fold, NodeItems(face, nodes)) + Marks("-", |nodes|)
  {
    hide Bag, ItemBag, LineBag, Texts, Tokens, Folding;
    if nodes == [] {
      NoNodes(fold, face);
      OneBag(fold, "", Item(Heading, "", []));
      assert BulletLines(l, nodes) == [];
    } else {
      var first := Item(Role.Content, nodes[0].id, Texts(face.words(nodes[0])));
      var line := "- " + l.rendered(nodes[0].text);
      assert NodeItems(face, nodes) == [first] + NodeItems(face, nodes[1..]);
      assert BulletLines(l, nodes) == [line] + BulletLines(l, nodes[1..]);
      ItemBagAppend(fold, [first], NodeItems(face, nodes[1..]));
      LineBagAppend(fold, [line], BulletLines(l, nodes[1..]));
      BulletReads(fold, face, l, nodes[0]);
      BulletBag(fold, face, l, nodes[1..]);
    }
  }

  lemma {:induction false} EntriesBag(fold: string -> string, face: Face, l: Lettering, entries: seq<Entry>)
    requires Folding(face, l, fold)
    ensures LineBag(fold, EntriesLines(l, entries))
      == ItemBag(fold, EntriesItems(face, entries)) + EntriesMarks(entries)
  {
    hide ItemBag, LineBag, Marks, NodeItems, BulletLines, Join, Folding;
    if entries == [] {
      OneBag(fold, "", Item(Heading, "", []));
    } else {
      var e := entries[0];
      HeaderBag(fold, face, l, e.header);
      BulletBag(fold, face, l, e.body);
      EntriesBag(fold, face, l, entries[1..]);
      var header, bullets := [Join(" | ", RenderedTexts(l, e.header))], BulletLines(l, e.body);
      LineBagAppend(fold, header + bullets, EntriesLines(l, entries[1..]));
      LineBagAppend(fold, header, bullets);
      ItemBagAppend(fold, NodeItems(face, e.header), NodeItems(face, e.body));
      ItemBagAppend(fold, EntryItems(face, e), EntriesItems(face, entries[1..]));
    }
  }

  /** A title in capitals after an empty line. */
  lemma TitleBag(fold: string -> string, face: Face, l: Lettering, id: string, title: string)
    requires Folding(face, l, fold)
    ensures LineBag(fold, ["", l.upper(l.rendered(title))])
      == ItemBag(fold, [Item(Heading, id, TitleTexts(face, title))])
  {
    hide Bag, ItemBag, LineBag, Tokens, Texts;
    var text := l.rendered(title);
    OneBag(fold, l.upper(text), Item(Heading, id, TitleTexts(face, title)));
    LineBagAppend(fold, [""], [l.upper(text)]);
    assert [""] + [l.upper(text)] == ["", l.upper(text)];
    UpperedBag(l.upper, fold, Tokens(text));
    assert TitleTexts(face, title) == Tokens(text);
  }

  lemma {:induction false} SectionsBag(fold: string -> string, face: Face, l: Lettering, sections: seq<Section>)
    requires Folding(face, l, fold)
    ensures LineBag(fold, SectionsLines(l, sections))
      == ItemBag(fold, SectionsItems(face, sections)) + SectionsMarks(sections)
  {
    hide ItemBag, LineBag, EntriesLines, EntriesItems, EntriesMarks, Folding, TitleTexts;
    if sections == [] {
      OneBag(fold, "", Item(Heading, "", []));
    } else {
      var s := sections[0];
      var title := Item(Heading, s.id, TitleTexts(face, s.title));
      var head := ["", l.upper(l.rendered(s.title))];
      TitleBag(fold, face, l, s.id, s.title);
      EntriesBag(fold, face, l, s.entries);
      SectionsBag(fold, face, l, sections[1..]);
      LineBagAppend(fold, head + EntriesLines(l, s.entries), SectionsLines(l, sections[1..]));
      LineBagAppend(fold, head, EntriesLines(l, s.entries));
      ItemBagAppend(fold, [title], EntriesItems(face, s.entries));
      ItemBagAppend(fold, SectionItems(face, s), SectionsItems(face, sections[1..]));
    }
  }

  lemma NoItems(fold: string -> string, face: Face)
    ensures ItemBag(fold, SectionsItems(face, [])) == multiset{}
    ensures ItemBag(fold, ProfileItems(face, None)) == multiset{}
  {}

  /** Splitting the sections over two columns reorders their words but loses none. */
  lemma {:induction false} PlacedBag(fold: string -> string, face: Face, sections: seq<Section>)
    ensures ItemBag(fold, SectionsItems(face, sections))
         == ItemBag(fold, SectionsItems(face, Placed(sections, Main)))
          + ItemBag(fold, SectionsItems(face, Placed(sections, Sidebar)))
  {
    hide ItemBag, SectionItems;
    if sections == [] {
      NoItems(fold, face);
    } else {
      var s := sections[0];
      PlacedBag(fold, face, sections[1..]);
      ItemBagAppend(fold, SectionItems(face, s), SectionsItems(face, sections[1..]));
      var own := Placed(sections[1..], s.placement);
      assert Placed(sections, s.placement) == [s] + own;
      assert ([s] + own)[1..] == own;
      ItemBagAppend(fold, SectionItems(face, s), SectionsItems(face, own));
      var other := if s.placement == Main then Sidebar else Main;
      assert Placed(sections, other) == Placed(sections[1..], other);
    }
  }

  lemma ProfileBag(fold: string -> string, face: Face, l: Lettering, profile: Option<Node>)
    requires Folding(face, l, fold) && FaceOk(face)
    ensures LineBag(fold, ProfileLines(l, profile)) == ItemBag(fold, ProfileItems(face, profile))
  {
    hide Bag, ItemBag, LineBag, Tokens, Texts, TitleTexts;
    match profile
    case None =>
      NoItems(fold, face);
      OneBag(fold, "", Item(Heading, "", []));
    case Some(node) =>
      var heading := Item(Heading, "profile-heading", TitleTexts(face, "Profile"));
      var body := Item(Role.Content, node.id, Texts(face.words(node)));
      ProfileTitle(fold, face, l);
      OneBag(fold, l.rendered(node.text), body);
      LineBagAppend(fold, ["", "PROFILE"], [l.rendered(node.text)]);
      assert ["", "PROFILE"] + [l.rendered(node.text)] == ProfileLines(l, profile);
      ItemBagAppend(fold, [heading], [body]);
      assert [heading] + [body] == ProfileItems(face, profile);
  }

  lemma ProfileTitle(fold: string -> string, face: Face, l: Lettering)
    requires Folding(face, l, fold) && FaceOk(face)
    ensures LineBag(fold, ["", "PROFILE"])
      == ItemBag(fold, [Item(Heading, "profile-heading", TitleTexts(face, "Profile"))])
  {
    hide Bag, ItemBag, LineBag, Tokens;
    var heading := Item(Heading, "profile-heading", TitleTexts(face, "Profile"));
    assert heading.texts == ["Profile"];
    TokensOfWord("PROFILE");
    OneBag(fold, "PROFILE", heading);
    LineBagAppend(fold, [""], ["PROFILE"]);
    assert [""] + ["PROFILE"] == ["", "PROFILE"];
    UpperedBag(l.upper, fold, ["Profile"]);
    assert Uppered(l.upper, ["Profile"]) == ["PROFILE"];
  }

  // ------------------------------------------------------------------ the head

  /** The three lines at the head in the resume's words. */
  function HeadItems(face: Face, l: Lettering, c: Candidate): seq<Item> { Named(HeadParts(face, l, c)) }

  /** Name and headline: the headline is set in capitals on the page only. */
  lemma NameBag(fold: string -> string, face: Face, l: Lettering, c: Candidate)
    requires Folding(face, l, fold) && HeadRendered(l, c)
    ensures LineBag(fold, [l.rendered(c.name.text), l.rendered(c.headline.text)])
         == ItemBag(fold, Named(ContentParts(TitleBlocks(face, l, c))))
  {
    hide Bag, ItemBag, LineBag, Tokens, Texts, Wrapped, NameSteps, HeadlineText;
    var name := Item(Role.Content, c.name.id, Texts(face.words(c.name)));
    var headline := Item(Role.Content, c.headline.id,
      Texts(face.words(Node("layout", HeadlineText(l, c), ["layout"], []))));
    assert Named(ContentParts(TitleBlocks(face, l, c))) == [name] + [headline];
    var first, second := [l.rendered(c.name.text)], [l.rendered(c.headline.text)];
    assert first + second == [l.rendered(c.name.text), l.rendered(c.headline.text)];
    OneBag(fold, l.rendered(c.name.text), name);
    OneBag(fold, l.rendered(c.headline.text), headline);
    ItemBagAppend(fold, [name], [headline]);
    LineBagAppend(fold, first, second);
    HeadlineBag(fold, face, l, c);
  }

  lemma HeadlineBag(fold: string -> string, face: Face, l: Lettering, c: Candidate)
    requires Folding(face, l, fold) && HeadRendered(l, c)
    ensures Bag(fold, Texts(face.words(Node("layout", HeadlineText(l, c), ["layout"], []))))
         == Bag(fold, Tokens(l.rendered(c.headline.text)))
  {
    hide Bag, Tokens, Texts, Uppered;
    var text := l.rendered(c.headline.text);
    var node := Node("layout", HeadlineText(l, c), ["layout"], []);
    assert HeadlineText(l, c) == l.upper(text);
    assert Texts(face.words(node)) == Tokens(l.rendered(node.text));
    assert Tokens(l.upper(text)) == Uppered(l.upper, Tokens(text));
    UpperedBag(l.upper, fold, Tokens(text));
  }

  lemma HeadBag(fold: string -> string, face: Face, l: Lettering, c: Candidate)
    requires Folding(face, l, fold) && HeadRendered(l, c)
    ensures LineBag(fold, FrontLines(l, c)) == ItemBag(fold, HeadItems(face, l, c))
  {
    hide ItemBag, LineBag, Join, Folding, HeadRendered, TitleBlocks, ContactText, Named, ContentParts, PlainLine;
    var lines := if c.contact == [] then [] else [Join(" | ", RenderedTexts(l, c.contact))];
    var head, blocks := TitleBlocks(face, l, c), ContactBlocks(face, l, c);
    NameBag(fold, face, l, c);
    ContactBag(fold, face, l, c);
    LineBagAppend(fold, [l.rendered(c.name.text), l.rendered(c.headline.text)], lines);
    ContentPartsAppend(head, blocks);
    NamedAppend(ContentParts(head), ContentParts(blocks));
    ItemBagAppend(fold, Named(ContentParts(head)), Named(ContentParts(blocks)));
  }

  lemma ContactBag(fold: string -> string, face: Face, l: Lettering, c: Candidate)
    requires Folding(face, l, fold) && HeadRendered(l, c)
    ensures LineBag(fold, if c.contact == [] then [] else [Join(" | ", RenderedTexts(l, c.contact))])
         == ItemBag(fold, Named(ContentParts(ContactBlocks(face, l, c))))
  {
    hide Bag, ItemBag, LineBag, Tokens, Texts, Wrapped;
    var texts := RenderedTexts(l, c.contact);
    var item := Item(Role.Content, "candidate-contact",
                     Texts(face.words(Node("layout", ContactText(l, c), ["layout"], []))));
    assert Named(ContentParts(ContactBlocks(face, l, c))) == if ContactText(l, c) == "" then [] else [item];
    OneBag(fold, Join(" | ", texts), item);
    JoinReads(" | ", texts);
    JoinReads("  |  ", texts);
    NoTokens();
    assert Bag(fold, []) == multiset{} by { NoNodes(fold, face); }
    if c.contact == [] {
      assert texts == [];
    }
  }

  // ------------------------------------------------------------------- parity

  /** All that a resume has to have drawn: its head, then both columns. */
  function Script(face: Face, l: Lettering, ast: Ast, density: Density, maximumPages: nat): seq<Part>
    requires 1 <= maximumPages
  {
    HeadParts(face, l, ast.candidate) + MainParts(face, ast, density, maximumPages)
      + SideParts(face, ast, density, maximumPages)
  }

  /** What a layout shows: the head, then both columns without the continuation headings. */
  function Shown(face: Face, l: Lettering, ast: Ast, laid: LayoutResult): seq<Part>
    requires laid.Laid?
  {
    HeadParts(face, l, ast.candidate) + Parts(laid.main) + Parts(laid.side)
  }

  /** ats_text has the words of the script, and its own marks. */
  lemma AtsNamesScript(face: Face, l: Lettering, fold: string -> string, ast: Ast, density: Density, maximumPages: nat)
    requires FaceOk(face) && WellFormed(ast) && density in DENSITIES && 1 <= maximumPages
    requires Folding(face, l, fold) && HeadRendered(l, ast.candidate)
    ensures LineBag(fold, AtsLines(l, ast))
         == ItemBag(fold, Named(Script(face, l, ast, density, maximumPages))) + SectionsMarks(ast.sections)
  {
    hide ItemBag, LineBag, Named, HeadParts, MainParts, SideParts, Placed, SectionsItems, SectionsMarks, ProfileItems,
      FrontLines, ProfileLines, SectionsLines, FaceOk, WellFormed, Folding, HeadRendered, ReadAsPieces, AllComposed,
      AllUncut, Items;
    var head := HeadParts(face, l, ast.candidate);
    var main, side := MainParts(face, ast, density, maximumPages), SideParts(face, ast, density, maximumPages);
    LineBagAppend(fold, FrontLines(l, ast.candidate) + ProfileLines(l, ast.summary), SectionsLines(l, ast.sections));
    LineBagAppend(fold, FrontLines(l, ast.candidate), ProfileLines(l, ast.summary));
    HeadBag(fold, face, l, ast.candidate);
    ProfileBag(fold, face, l, ast.summary);
    SectionsBag(fold, face, l, ast.sections);
    PlacedBag(fold, face, ast.sections);
    ScriptNamed(face, ast, density, maximumPages);
    NamedAppend(head + main, side);
    NamedAppend(head, main);
    ItemBagAppend(fold, Named(head + main), Named(side));
    ItemBagAppend(fold, Named(head), Named(main));
    ItemBagAppend(fold, ProfileItems(face, ast.summary), SectionsItems(face, Placed(ast.sections, Main)));
  }

  /** Cutting a word only ever adds words for the reader. */
  lemma {:induction false} CutsAddWords(g: Glyphs, parts: seq<Part>)
    requires AllComposed(g, parts)
    ensures |ItemWords(Items(parts))| >= |ItemWords(Named(parts))|
    ensures !AllUncut(g, parts) ==> |ItemWords(Items(parts))| > |ItemWords(Named(parts))|
  {
    hide Composed, Uncut, LinesTexts;
    if parts != [] {
      BlockReads(g, parts[0].block);
      CutsAddWords(g, parts[1..]);
      assert Items(parts)[1..] == Items(parts[1..]) && Named(parts)[1..] == Named(parts[1..]);
      assert !AllUncut(g, parts) ==> !Uncut(g, parts[0].block) || !AllUncut(g, parts[1..]) by {
        assert forall i :: 0 < i < |parts| ==> parts[i] == parts[1..][i - 1];
      }
    }
  }

  lemma ScriptComposed(face: Face, l: Lettering, ast: Ast, density: Density, maximumPages: nat)
    requires FaceOk(face) && WellFormed(ast) && density in DENSITIES && 1 <= maximumPages
    ensures AllComposed(face.glyph, Script(face, l, ast, density, maximumPages))
  {
    hide Composed, FaceOk, WellFormed, HeadParts, MainParts, SideParts, Named, AllUncut, ReadAsPieces;
    HeadComposed(face, l, ast.candidate);
    ScriptNamed(face, ast, density, maximumPages);
  }

  /** Up to case, the words ats_text emits are the words a reader finds on the lines drawn,
      head included and continuation headings aside, plus the bars and dashes the text adds
      itself, if and only if no word is wider than the column it is set in.  A word that has
      to be cut is one word of the text but several of the page. */
  lemma AtsParity(face: Face, l: Lettering, fold: string -> string, ast: Ast, density: Density, maximumPages: nat)
    requires FaceOk(face) && WellFormed(ast) && density in DENSITIES && 1 <= maximumPages
    requires Folding(face, l, fold) && HeadRendered(l, ast.candidate)
    requires LayoutOf(face, ast, density, maximumPages).Laid?
    ensures var shown := Shown(face, l, ast, LayoutOf(face, ast, density, maximumPages));
      LineBag(fold, AtsLines(l, ast)) == ItemBag(fold, Items(shown)) + SectionsMarks(ast.sections)
      <==> AllUncut(face.glyph, Script(face, l, ast, density, maximumPages))
  {
    hide LayoutOf, FaceOk, WellFormed, AtsLines, LineBag, Items, Named, AllUncut, AllComposed, ItemWords, Bag,
      SectionsMarks, Parts, HeadParts, MainParts, SideParts, Folding, HeadRendered;
    var script := Script(face, l, ast, density, maximumPages);
    ColumnsDrawn(face, ast, density, maximumPages);
    assert Shown(face, l, ast, LayoutOf(face, ast, density, maximumPages)) == script;
    AtsNamesScript(face, l, fold, ast, density, maximumPages);
    ScriptComposed(face, l, ast, density, maximumPages);
    ReadExactly(face.glyph, script);
    CutsAddWords(face.glyph, script);
    BagSize(fold, ItemWords(Items(script)));
    BagSize(fold, ItemWords(Named(script)));
    MoreIsDifferent(ItemBag(fold, Items(script)), ItemBag(fold, Named(script)), SectionsMarks(ast.sections));
  }

  lemma MoreIsDifferent(a: multiset<string>, b: multiset<string>, marks: multiset<string>)
    ensures |a| > |b| ==> a + marks != b + marks
  {
    assert |a + marks| == |a| + |marks| && |b + marks| == |b| + |marks|;
  }
}
