/** Exactly when text and pages still agree after the candidate's name has been deleted from
    both (resume-renderer-v2/app.py, 667-721, 1141-1176, 1255-1259). */
module NameParity {
  import opened Basics
  import opened Text
  import opened Reading
  import opened Resume
  import opened Column
  import opened Geometry
  import opened Layout
  import opened Content
  import opened Masthead
  import opened Ats
  import opened Erasure

  /** The name as the head of every page after the first repeats it. */
  function RepeatedName(face: Face, name: Node): Block {
    WrapBlock(face, name, 390.0, 21.0, 22.0, Display, Display).(id := "continuation-name")
  }

  function RepeatedNames(face: Face, name: Node, pages: nat): (parts: seq<Part>) {
    seq(pages, _ => Part(Continuation, RepeatedName(face, name)))
  }

  // ---------------------------------------------------------- what is left of each

  function ErasedLines(alike: Alike, pattern: string, lines: seq<string>): (erased: seq<string>)
    requires pattern != ""
  {
    seq(|lines|, i requires 0 <= i < |lines| => Erased(alike, pattern, lines[i]))
  }

  /** The words left on the lines of parts, in order. */
  function PartsLeft(alike: Alike, pattern: string, parts: seq<Part>): seq<string>
    requires pattern != ""
  {
    if parts == [] then []
    else LeftTexts(alike, pattern, parts[0].block.lines) + PartsLeft(alike, pattern, parts[1..])
  }

  lemma {:induction false} PartsLeftAppend(alike: Alike, pattern: string, a: seq<Part>, b: seq<Part>)
    requires pattern != ""
    ensures PartsLeft(alike, pattern, a + b) == PartsLeft(alike, pattern, a) + PartsLeft(alike, pattern, b)
  {
    hide LeftTexts;
    if a == [] {
      assert a + b == b;
    } else {
      assert (a + b)[1..] == a[1..] + b;
      PartsLeftAppend(alike, pattern, a[1..], b);
    }
  }

  lemma PartLeft(alike: Alike, pattern: string, part: Part)
    requires pattern != ""
    ensures PartsLeft(alike, pattern, [part]) == LeftTexts(alike, pattern, part.block.lines)
  {
    hide LeftTexts;
    assert [part][1..] == [] && PartsLeft(alike, pattern, []) == [];
  }

  /** The pattern is in none of the parts' texts. */
  predicate AbsentFrom(alike: Alike, pattern: string, parts: seq<Part>) {
    forall i :: 0 <= i < |parts| ==> !Occurs(alike, pattern, Join(" ", Texts(parts[i].block.words)))
  }

  lemma {:induction false} AbsentParts(alike: Alike, pattern: string, g: Glyphs, parts: seq<Part>)
    requires pattern != "" && AllComposed(g, parts) && AbsentFrom(alike, pattern, parts)
    ensures PartsLeft(alike, pattern, parts) == ItemWords(Items(parts))
  {
    hide Composed, Occurs, LeftTexts, LinesTexts, Texts;
    if parts != [] {
      AbsentBlock(alike, pattern, g, parts[0].block);
      assert AllComposed(g, parts[1..]) && AbsentFrom(alike, pattern, parts[1..]);
      AbsentParts(alike, pattern, g, parts[1..]);
      assert Items(parts)[1..] == Items(parts[1..]);
    }
  }

  lemma AbsentAtsLines(alike: Alike, pattern: string, lines: seq<string>)
    requires pattern != "" && forall i :: 0 <= i < |lines| ==> !Occurs(alike, pattern, lines[i])
    ensures ErasedLines(alike, pattern, lines) == lines
  {
    hide Occurs, Erased;
    forall i | 0 <= i < |lines| ensures Erased(alike, pattern, lines[i]) == lines[i] {
      AbsentIsKept(alike, pattern, lines[i]);
    }
  }

  /** The name repeated on later pages leaves nothing exactly when it takes one line there. */
  lemma {:induction false} RepeatedLeft(alike: Alike, face: Face, name: Node, pages: nat)
    requires FaceOk(face) && face.words(name) != [] && Join(" ", Texts(face.words(name))) != ""
      && forall c :: alike(c, c)
    ensures PartsLeft(alike, Join(" ", Texts(face.words(name))), RepeatedNames(face, name, pages)) == []
      <==> pages == 0 || |RepeatedName(face, name).lines| == 1
  {
    hide LeftTexts, FaceOk, Join, Texts, LinesTexts;
    var parts := RepeatedNames(face, name, pages);
    if pages > 0 {
      var b := RepeatedName(face, name);
      RepeatedComposed(face, name);
      OwnLinesExactly(alike, face.glyph, b);
      RepeatedLeft(alike, face, name, pages - 1);
      assert parts[1..] == RepeatedNames(face, name, pages - 1);
    }
  }

  lemma RepeatedComposed(face: Face, name: Node)
    requires FaceOk(face)
    ensures Composed(face.glyph, RepeatedName(face, name)) && RepeatedName(face, name).words == face.words(name)
  {
    hide Wrapped;
    assert Words?(face.words(name));
    var g := face.glyph;
    forall f, c ensures 0.0 <= 21.0 * g(f, c) <= 390.0 {
      assert 0.0 <= g(f, c) <= 4.0;
    }
  }

  // -------------------------------------------------------------------- parity

  /** The name's text is its words with one blank between each two, and it is not empty. */
  ghost predicate NameRendered(face: Face, l: Lettering, c: Candidate) {
    && face.words(c.name) != [] && l.rendered(c.name.text) != ""
    && l.rendered(c.name.text) == Join(" ", Texts(face.words(c.name)))
  }

  /** The name is in no other line of the text, and in no other title or node. */
  predicate NameNowhereElse(alike: Alike, face: Face, l: Lettering, ast: Ast, density: Density, maximumPages: nat)
    requires 1 <= maximumPages
  {
    var name := l.rendered(ast.candidate.name.text);
    && (forall i :: 0 <= i < |AtsLines(l, ast)[1..]| ==> !Occurs(alike, name, AtsLines(l, ast)[1..][i]))
    && AbsentFrom(alike, name, Script(face, l, ast, density, maximumPages)[1..])
  }

  /** The words of ats_text that are left. */
  function TextLeft(alike: Alike, l: Lettering, ast: Ast): seq<string>
    requires l.rendered(ast.candidate.name.text) != ""
  {
    LinesWords(ErasedLines(alike, l.rendered(ast.candidate.name.text), AtsLines(l, ast)))
  }

  /** The words of the pages that are left, the repeated names included. */
  function PagesLeft(alike: Alike, face: Face, l: Lettering, ast: Ast, laid: LayoutResult, pages: nat): seq<string>
    requires l.rendered(ast.candidate.name.text) != "" && laid.Laid? && 1 <= pages
  {
    PartsLeft(alike, l.rendered(ast.candidate.name.text),
              Shown(face, l, ast, laid) + RepeatedNames(face, ast.candidate.name, pages - 1))
  }

  /** The name is set in one line, at the head of page one and of every later page. */
  predicate NameOnOneLine(face: Face, name: Node, pages: nat) {
    |NameBlock(face, name).lines| == 1 && (pages > 1 ==> |RepeatedName(face, name).lines| == 1)
  }

  lemma ScriptSplits(face: Face, l: Lettering, ast: Ast, density: Density, maximumPages: nat)
    requires 1 <= maximumPages
    ensures var script := Script(face, l, ast, density, maximumPages);
      script != [] && script[0] == Part(Role.Content, NameBlock(face, ast.candidate.name))
        && script == [script[0]] + script[1..]
    ensures AtsLines(l, ast) == [l.rendered(ast.candidate.name.text)] + AtsLines(l, ast)[1..]
  {
    hide NameSteps, Wrapped, PlainLine, MainParts, SideParts, ContactText, ProfileLines, SectionsLines;
  }

  /** A name of one line has no word cut. */
  lemma OneLineIsUncut(face: Face, l: Lettering, fold: string -> string, c: Candidate)
    requires FaceOk(face) && Folding(face, l, fold) && NameRendered(face, l, c) && |NameBlock(face, c.name).lines| == 1
    ensures Uncut(face.glyph, NameBlock(face, c.name))
  {
    hide FaceOk, Wrapped, Uncut, LineText, Tokens, Within, Texts, NameSteps;
    var b := NameBlock(face, c.name);
    NameComposed(face, c.name);
    LinesOfText(face.glyph, b);
    BlockReads(face.glyph, b);
    Lettered(face, l, fold, c.name);
    OneLineRead(b.lines);
    TextsCount(b.words);
  }

  lemma OneLineRead(lines: seq<Line>)
    requires |lines| == 1
    ensures LinesTexts(lines) == Tokens(LineText(lines[0]))
  {
    hide LineText, Tokens;
    assert lines[..0] == [] && LinesTexts([]) == [];
  }

  /** What the text and the script have besides the name. */
  lemma RestOfText(alike: Alike, face: Face, l: Lettering, fold: string -> string, ast: Ast, density: Density,
      maximumPages: nat)
    requires FaceOk(face) && WellFormed(ast) && density in DENSITIES && 1 <= maximumPages && forall c :: alike(c, c)
    requires Folding(face, l, fold) && HeadRendered(l, ast.candidate) && NameRendered(face, l, ast.candidate)
    requires NameNowhereElse(alike, face, l, ast, density, maximumPages)
    ensures Bag(fold, TextLeft(alike, l, ast))
         == ItemBag(fold, Named(Script(face, l, ast, density, maximumPages)[1..])) + SectionsMarks(ast.sections)
  {
    hide FaceOk, WellFormed, AtsLines, Script, SectionsMarks, HeadRendered, Erased, Occurs, Bag, Tokens, LinesWords,
      ItemWords, Texts, NameBlock, Folding, Join;
    var name := l.rendered(ast.candidate.name.text);
    var lines, script := AtsLines(l, ast), Script(face, l, ast, density, maximumPages);
    ScriptSplits(face, l, ast, density, maximumPages);
    AbsentAtsLines(alike, name, lines[1..]);
    WholeIsErased(alike, name);
    assert ErasedLines(alike, name, lines) == [" "] + lines[1..];
    assert Tokens(" ") == [] by { BlankIsNoWord(); }
    AtsNamesScript(face, l, fold, ast, density, maximumPages);
    NameItem(face, ast.candidate.name);
    var item := Named([script[0]])[0];
    Lettered(face, l, fold, ast.candidate.name);
    hide LineBag, ItemBag, Named, ErasedLines;
    OneBag(fold, name, item);
    OneBag(fold, " ", item);
    LineBagAppend(fold, [" "], lines[1..]);
    LineBagAppend(fold, [name], lines[1..]);
    NamedAppend([script[0]], script[1..]);
    ItemBagAppend(fold, Named([script[0]]), Named(script[1..]));
    assert Bag(fold, []) == multiset{} by { NoNodes(fold, face); }
    assert Bag(fold, TextLeft(alike, l, ast)) == LineBag(fold, [" "] + lines[1..]) by {
      LineBagIs(fold, [" "] + lines[1..]);
    }
    Cancels(Bag(fold, Tokens(name)), LineBag(fold, lines[1..]),
            ItemBag(fold, Named(script[1..])) + SectionsMarks(ast.sections));
  }

  lemma LineBagIs(fold: string -> string, lines: seq<string>)
    ensures LineBag(fold, lines) == Bag(fold, LinesWords(lines))
  {}

  lemma Cancels(same: multiset<string>, a: multiset<string>, b: multiset<string>)
    requires same + a == same + b
    ensures a == b
  {
    forall x ensures a[x] == b[x] {
      assert (same + a)[x] == same[x] + a[x] && (same + b)[x] == same[x] + b[x];
    }
  }

  lemma BlankIsNoWord()
    ensures Tokens(" ") == []
  {
    TokensOfBoth("", "");
    NoTokens();
    assert "" + " " + "" == " ";
  }

  lemma NameItem(face: Face, name: Node)
    ensures Named([Part(Role.Content, NameBlock(face, name))]) == [Item(Role.Content, name.id, Texts(face.words(name)))]
  {
    hide NameSteps, Wrapped;
  }

  /** Text and pages agree after the name has been deleted from both, up to case and with the
      marks of the text, if and only if no word is cut and the name is set in one line wherever
      it stands.  A name that is broken across lines is deleted from the text alone. */
  lemma ParityWithoutName(alike: Alike, face: Face, l: Lettering, fold: string -> string, ast: Ast, density: Density,
                          maximumPages: nat)
    requires FaceOk(face) && WellFormed(ast) && density in DENSITIES && 1 <= maximumPages && forall c :: alike(c, c)
    requires Folding(face, l, fold) && HeadRendered(l, ast.candidate) && NameRendered(face, l, ast.candidate)
    requires NameNowhereElse(alike, face, l, ast, density, maximumPages)
    requires LayoutOf(face, ast, density, maximumPages).Laid?
    ensures var laid := LayoutOf(face, ast, density, maximumPages);
      var used := UsedPages(laid, maximumPages);
      Bag(fold, TextLeft(alike, l, ast))
      == Bag(fold, PagesLeft(alike, face, l, ast, laid, used)) + SectionsMarks(ast.sections)
      <==> && AllUncut(face.glyph, Script(face, l, ast, density, maximumPages))
           && NameOnOneLine(face, ast.candidate.name, used)
  {
    hide LayoutOf, FaceOk, WellFormed, AtsLines, Script, SectionsMarks, HeadRendered, Erased, Occurs, Bag, ItemWords,
      Items, Named, Texts, NameBlock, Folding, Join, TextLeft, Parts, HeadParts, MainParts, SideParts, LeftTexts,
      LinesTexts, Composed, RepeatedName, AbsentFrom, Uncut, UsedPages;
    var used := UsedPages(LayoutOf(face, ast, density, maximumPages), maximumPages);
    var c, g := ast.candidate, face.glyph;
    var script := Script(face, l, ast, density, maximumPages);
    ScriptSplits(face, l, ast, density, maximumPages);
    var rest := script[1..];
    RestOfText(alike, face, l, fold, ast, density, maximumPages);
    ScriptComposed(face, l, ast, density, maximumPages);
    assert AllComposed(g, rest);
    ShownIsScript(face, l, ast, density, maximumPages);
    var own := LeftTexts(alike, l.rendered(c.name.text), script[0].block.lines);
    var repeated := PartsLeft(alike, l.rendered(c.name.text), RepeatedNames(face, c.name, used - 1));
    PagesLeftInParts(alike, l.rendered(c.name.text), g, script, RepeatedNames(face, c.name, used - 1));
    OwnNameLeft(alike, face, l, c);
    RepeatedLeft(alike, face, c.name, used - 1);
    ReadExactly(g, rest);
    CutsAddWords(g, rest);
    if NameOnOneLine(face, c.name, used) {
      OneLineIsUncut(face, l, fold, c);
    }
    UncutSplits(g, script);
    LeftoversCount(fold, own, repeated, ItemWords(Items(rest)), ItemWords(Named(rest)), SectionsMarks(ast.sections));
  }

  lemma UncutSplits(g: Glyphs, script: seq<Part>)
    requires script != []
    ensures AllUncut(g, script) <==> Uncut(g, script[0].block) && AllUncut(g, script[1..])
  {
    hide Uncut;
    assert forall i :: 0 < i < |script| ==> script[i] == script[1..][i - 1];
  }

  lemma OwnNameLeft(alike: Alike, face: Face, l: Lettering, c: Candidate)
    requires FaceOk(face) && NameRendered(face, l, c) && forall ch :: alike(ch, ch)
    ensures LeftTexts(alike, l.rendered(c.name.text), NameBlock(face, c.name).lines) == []
      <==> |NameBlock(face, c.name).lines| == 1
  {
    hide FaceOk, Texts, LeftTexts, Join, LinesTexts;
    var b := NameBlock(face, c.name);
    NameComposed(face, c.name);
    NameWords(face, c.name);
    OwnLinesExactly(alike, face.glyph, b);
  }

  lemma NameWords(face: Face, name: Node)
    ensures NameBlock(face, name).words == face.words(name)
  {}

  lemma ShownIsScript(face: Face, l: Lettering, ast: Ast, density: Density, maximumPages: nat)
    requires FaceOk(face) && WellFormed(ast) && density in DENSITIES && 1 <= maximumPages
    requires LayoutOf(face, ast, density, maximumPages).Laid?
    ensures Shown(face, l, ast, LayoutOf(face, ast, density, maximumPages))
      == Script(face, l, ast, density, maximumPages)
  {
    hide LayoutOf, FaceOk, WellFormed, Parts, HeadParts, MainParts, SideParts;
    ColumnsDrawn(face, ast, density, maximumPages);
  }

  lemma PagesLeftInParts(alike: Alike, pattern: string, g: Glyphs, script: seq<Part>, repeated: seq<Part>)
    requires pattern != "" && script != [] && AllComposed(g, script[1..]) && AbsentFrom(alike, pattern, script[1..])
    ensures PartsLeft(alike, pattern, script + repeated)
         == LeftTexts(alike, pattern, script[0].block.lines) + ItemWords(Items(script[1..]))
           + PartsLeft(alike, pattern, repeated)
  {
    hide LeftTexts, Items, ItemWords, AllComposed, AbsentFrom;
    assert script == [script[0]] + script[1..];
    PartsLeftAppend(alike, pattern, script, repeated);
    PartsLeftAppend(alike, pattern, [script[0]], script[1..]);
    PartLeft(alike, pattern, script[0]);
    AbsentParts(alike, pattern, g, script[1..]);
  }

  /** Words left over anywhere make the bags differ in size. */
  lemma LeftoversCount(fold: string -> string, own: seq<string>, repeated: seq<string>, read: seq<string>,
                       named: seq<string>, marks: multiset<string>)
    requires |read| >= |named|
    ensures Bag(fold, named) + marks == Bag(fold, own + read + repeated) + marks
      ==> own == [] && repeated == [] && |read| == |named|
    ensures own == [] && repeated == [] && read == named
      ==> Bag(fold, named) + marks == Bag(fold, own + read + repeated) + marks
  {
    hide Bag;
    BagSize(fold, named);
    BagSize(fold, own + read + repeated);
    MoreIsDifferent(Bag(fold, own + read + repeated), Bag(fold, named), marks);
    if own == [] && repeated == [] {
      assert own + read + repeated == read;
    }
  }
}
