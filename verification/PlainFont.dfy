/** A font and a language for examples: text that is already rendered, in glyphs of one width. */
module PlainFont {
  import opened Text
  import opened Reading
  import opened Resume
  import opened Column
  import opened Geometry
  import opened Masthead
  import opened Ats

  /** Plain text, already rendered, in a font whose glyphs are all six tenths of the size wide. */
  function SixTenths(font: Font, c: char): real { 0.6 }

  function Spelled(text: string): (words: seq<Word>) {
    seq(|Tokens(text)|, i requires 0 <= i < |Tokens(text)| => Word(Tokens(text)[i], false))
  }

  const PLAIN_FACE: Face := Face(SixTenths, (n: Node) => Spelled(n.text))

  function Capital(c: char): char { if 'a' <= c <= 'z' then (c as int - 32) as char else c }

  function Capitals(text: string): (capitals: string) {
    seq(|text|, i requires 0 <= i < |text| => Capital(text[i]))
  }

  const PLAIN_LETTERS: Lettering := Lettering((text: string) => text, Capitals)

  lemma CapitalsTwice(text: string)
    ensures Capitals(Capitals(text)) == Capitals(text)
  {}

  lemma {:induction false} CapitalTokens(text: string)
    ensures Tokens(Capitals(text)) == Uppered(Capitals, Tokens(text))
  {
    hide Tokens;
    if text == "" {
      NoTokens();
    } else {
      var n := |text| - 1;
      CapitalTokens(text[..n]);
      TokensOfMore(text[..n], text[n]);
      TokensOfMore(Capitals(text[..n]), Capital(text[n]));
      assert text == text[..n] + [text[n]];
      assert Capitals(text) == Capitals(text[..n]) + [Capital(text[n])];
      assert EndsApart(Capitals(text[..n])) == EndsApart(text[..n]);
      if text[n] != ' ' {
        CapitalCharacter(Tokens(text[..n]), EndsApart(text[..n]), text[n]);
      }
    }
  }

  lemma CapitalCharacter(tokens: seq<string>, apart: bool, c: char)
    requires apart || tokens != []
    ensures Uppered(Capitals, WithCharacter(tokens, apart, c))
         == WithCharacter(Uppered(Capitals, tokens), apart, Capital(c))
  {
    if apart {
      assert Capitals([c]) == [Capital(c)];
    } else {
      var last := tokens[|tokens| - 1];
      assert Capitals(last + [c]) == Capitals(last) + [Capital(c)];
    }
  }

  lemma SpelledOne(word: string)
    requires Solid(word)
    ensures Spelled(word) == [Word(word, false)]
  {
    TokensOfWord(word);
  }

  lemma PlainFaceOk()
    ensures FaceOk(PLAIN_FACE)
  {
    hide Tokens, Solid;
    forall n: Node ensures Words?(PLAIN_FACE.words(n)) {
      TokensAreSolid(n.text);
    }
    assert Spelled("Profile") == [Word("Profile", false)] by { ProfileIsSolid(); SpelledOne("Profile"); }
  }

  lemma ProfileIsSolid()
    ensures Solid("Profile")
  {}

  lemma PlainFolding()
    ensures Folding(PLAIN_FACE, PLAIN_LETTERS, Capitals)
  {
    hide Tokens, Uppered, Capitals;
    forall n: Node ensures Texts(PLAIN_FACE.words(n)) == Tokens(PLAIN_LETTERS.rendered(n.text)) {
      assert Texts(Spelled(n.text)) == Tokens(n.text);
    }
    forall text
      ensures Tokens(Capitals(text)) == Uppered(Capitals, Tokens(text)) && Capitals(Capitals(text)) == Capitals(text)
    {
      CapitalTokens(text);
      CapitalsTwice(text);
    }
    CapitalExamples();
  }

  lemma CapitalExamples()
    ensures Capitals("Profile") == "PROFILE" && Capitals("|") == "|" && Capitals("-") == "-"
  {}

  lemma {:induction false} EvenWidth(text: string, font: Font)
    ensures UnitWidth(SixTenths, text, font) == 0.6 * |text| as real
  {
    if text != "" {
      EvenWidth(text[..|text| - 1], font);
    }
  }

  /** A single word no wider than the column takes one line. */
  lemma OneShortWord(node: Node, text: string, width: real, size: real, regular: Font, bold: Font)
    requires node.text == text && Solid(text) && size * (0.6 * |text| as real) <= width
    ensures |Wrapped(SixTenths, PLAIN_FACE.words(node), size, width, regular, bold)| == 1
  {
    hide FontWidth, Solid;
    SpelledOne(text);
    EvenWidth(text, regular);
    var words := [Word(text, false)];
    assert FontWidth(SixTenths, text, regular, size) <= width by { WidthIs(text, regular, size); }
    assert words[..0] == [];
    OnePiece(SixTenths, Wrapping([], [], 0.0), text, regular, size, width);
    assert PlaceWords(SixTenths, [], size, width, regular, bold) == Wrapping([], [], 0.0);
  }

  lemma WidthIs(text: string, font: Font, size: real)
    ensures FontWidth(SixTenths, text, font, size) == size * (0.6 * |text| as real)
  {
    EvenWidth(text, font);
  }

  /** At the template's sizes up to that of its titles, twenty glyphs fit the narrowest column. */
  lemma ShortWidth(size: real, n: nat)
    requires 0.0 <= size <= 12.2 && n <= 20
    ensures size * (0.6 * n as real) <= 151.0
  {
    ProductNonNegative(12.2 - size, 0.6 * n as real);
    assert (12.2 - size) * (0.6 * n as real) == 12.2 * (0.6 * n as real) - size * (0.6 * n as real);
  }
}
