/** The words a reader finds on wrapped lines (resume-renderer-v2/app.py, 516-573, 1064-1078):
    each line's runs are set one after the other, and a word ends at a blank or with its line. */
module Reading {
  import opened Text

  // ------------------------------------------------------- words of a text

  /** A character that is not a blank opens a word or continues the last one. */
  function WithCharacter(tokens: seq<string>, apart: bool, c: char): seq<string>
    requires apart || tokens != []
  {
    if apart then tokens + [[c]] else tokens[..|tokens| - 1] + [tokens[|tokens| - 1] + [c]]
  }

  predicate EndsApart(text: string) { text == "" || text[|text| - 1] == ' ' }

  /** re.findall(r"\S+") over a text whose only blank is the space. */
  function Tokens(text: string): (tokens: seq<string>)
    ensures !EndsApart(text) ==> tokens != []
  {
    if text == "" then []
    else
      var n := |text| - 1;
      if text[n] == ' ' then Tokens(text[..n]) else WithCharacter(Tokens(text[..n]), EndsApart(text[..n]), text[n])
  }

  lemma TokensOfMore(text: string, c: char)
    ensures Tokens(text + [c]) == if c == ' ' then Tokens(text) else WithCharacter(Tokens(text), EndsApart(text), c)
  {
    assert (text + [c])[..|text|] == text;
  }

  /** Words separated by a blank are read one after the other. */
  lemma {:induction false} TokensOfBoth(a: string, b: string)
    ensures Tokens(a + " " + b) == Tokens(a) + Tokens(b)
  {
    hide Tokens;
    if b == "" {
      TokensOfMore(a, ' ');
      assert a + " " + b == a + [' '];
      assert Tokens("") == [] by { NoTokens(); }
    } else {
      var m := |b| - 1;
      TokensOfBoth(a, b[..m]);
      var before := a + " " + b[..m];
      TokensOfMore(before, b[m]);
      TokensOfMore(b[..m], b[m]);
      assert a + " " + b == before + [b[m]] && b == b[..m] + [b[m]];
      assert EndsApart(before) == EndsApart(b[..m]) by {
        assert before[|before| - 1] == if m == 0 then ' ' else b[m - 1];
      }
    }
  }

  lemma NoTokens()
    ensures Tokens("") == []
  {}

  lemma {:induction false} TokensOfWord(word: string)
    requires Solid(word)
    ensures Tokens(word) == [word]
  {
    hide Tokens;
    var n := |word| - 1;
    assert word[n] in word && word == word[..n] + [word[n]];
    TokensOfMore(word[..n], word[n]);
    if n > 0 {
      assert forall c :: c in word[..n] ==> c in word;
      TokensOfWord(word[..n]);
      assert word[n - 1] in word;
    } else {
      NoTokens();
      assert word[..n] == "";
    }
  }

  lemma {:induction false} TokensAreSolid(text: string)
    ensures forall t :: t in Tokens(text) ==> Solid(t)
  {
    if text != "" {
      hide Tokens;
      var n := |text| - 1;
      TokensAreSolid(text[..n]);
      TokensOfMore(text[..n], text[n]);
      assert text == text[..n] + [text[n]];
      if text[n] != ' ' {
        WithCharacterIsSolid(Tokens(text[..n]), EndsApart(text[..n]), text[n]);
      }
    }
  }

  lemma WithCharacterIsSolid(tokens: seq<string>, apart: bool, c: char)
    requires (apart || tokens != []) && c != ' ' && forall t :: t in tokens ==> Solid(t)
    ensures forall t :: t in WithCharacter(tokens, apart, c) ==> Solid(t)
  {
    var more := WithCharacter(tokens, apart, c);
    forall t | t in more ensures Solid(t) {
      if apart {
        assert t in tokens || t == [c];
      } else {
        var last := tokens[|tokens| - 1];
        assert last in tokens && (t in tokens || t == last + [c]);
      }
    }
  }

  function Texts(words: seq<Word>): (texts: seq<string>) {
    seq(|words|, i requires 0 <= i < |words| => words[i].text)
  }

  // ------------------------------------------------------- words of lines

  /** The runs of a line as they follow one another on the page. */
  function LineText(line: Line): string {
    if line == [] then "" else LineText(line[..|line| - 1]) + line[|line| - 1].text
  }

  /** The words read off lines, top to bottom. */
  function LinesTexts(lines: seq<Line>): seq<string> {
    if lines == [] then [] else LinesTexts(lines[..|lines| - 1]) + Tokens(LineText(lines[|lines| - 1]))
  }

  /** What split_long_word makes of the words, one after the other. */
  function Pieces(g: Glyphs, words: seq<Word>, size: real, width: real, regular: Font, bold: Font): seq<string> {
    if words == [] then []
    else
      Pieces(g, words[..|words| - 1], size, width, regular, bold)
      + SplitPieces(g, words[|words| - 1].text, FontOf(words[|words| - 1], regular, bold), size, width)
  }

  function Read(w: Wrapping): seq<string> { LinesTexts(w.lines) + Tokens(LineText(w.line)) }

  lemma LineTextAppend(line: Line, run: Run)
    ensures LineText(line + [run]) == LineText(line) + run.text
  {
    assert (line + [run])[..|line|] == line;
  }

  lemma LinesTextsAppend(lines: seq<Line>, line: Line)
    ensures LinesTexts(lines + [line]) == LinesTexts(lines) + Tokens(LineText(line))
  {
    assert (lines + [line])[..|lines|] == lines;
  }

  /** A piece that starts a line, and a piece behind a blank, are read as they are. */
  lemma PutPieceReads(g: Glyphs, w: Wrapping, separator: string, piece: string, font: Font, size: real, width: real)
    requires Solid(piece) && separator == if w.line != [] then " " else ""
    ensures Read(PutPiece(g, w, separator, piece, font, size, width)) == Read(w) + [piece]
  {
    hide FontWidth, Solid, Tokens;
    TokensOfWord(piece);
    var run := Run(separator + piece, font);
    if w.line != [] && w.used + FontWidth(g, run.text, font, size) > width + SLACK {
      LinesTextsAppend(w.lines, w.line);
      LineTextAppend([], Run(piece, font));
      assert [] + [Run(piece, font)] == [Run(piece, font)] && "" + piece == piece;
    } else {
      LineTextAppend(w.line, run);
      JoinedReads(w.line, separator, piece);
    }
  }

  lemma JoinedReads(line: Line, separator: string, piece: string)
    requires Solid(piece) && separator == if line != [] then " " else ""
    ensures Tokens(LineText(line) + (separator + piece)) == Tokens(LineText(line)) + [piece]
  {
    TokensOfWord(piece);
    if line == [] {
      assert LineText(line) + (separator + piece) == piece;
    } else {
      TokensOfBoth(LineText(line), piece);
      assert LineText(line) + (separator + piece) == LineText(line) + " " + piece;
    }
  }

  lemma ClosedReads(w: Wrapping)
    ensures Read(LineClosed(w)) == Read(w)
  {
    LinesTextsAppend(w.lines, w.line);
  }

  /** Pieces after the first start on an empty line, so that each is read by itself. */
  lemma {:induction false} PlacePiecesReads(g: Glyphs, w: Wrapping, pieces: seq<string>, font: Font, size: real,
                                           width: real, index: nat)
    requires index <= |pieces| && (index == 0 || index == |pieces| || w.line == [])
    requires forall i :: 0 <= i < |pieces| ==> Solid(pieces[i])
    ensures Read(PlacePieces(g, w, pieces, font, size, width, index)) == Read(w) + pieces[index..]
    decreases |pieces| - index
  {
    hide PutPiece, Read, Solid;
    if index < |pieces| {
      var separator := if w.line != [] && index == 0 then " " else "";
      var placed := PutPiece(g, w, separator, pieces[index], font, size, width);
      PutPieceReads(g, w, separator, pieces[index], font, size, width);
      ClosedReads(placed);
      var next := PlacePiece(g, w, pieces[index], font, size, width, index, |pieces|);
      PlacePiecesReads(g, next, pieces, font, size, width, index + 1);
      assert pieces[index..] == [pieces[index]] + pieces[index + 1..];
    }
  }

  lemma PiecesAreSolid(g: Glyphs, word: string, font: Font, size: real, width: real)
    requires GlyphsFit(g, size, width) && 0.0 <= width && Solid(word)
    ensures var pieces := SplitPieces(g, word, font, size, width);
      forall i :: 0 <= i < |pieces| ==> Solid(pieces[i])
  {
    SplitPiecesCorrect(g, word, font, size, width);
    var pieces := SplitPieces(g, word, font, size, width);
    forall i | 0 <= i < |pieces| ensures Solid(pieces[i]) {
      JoinedSolid(pieces, i);
    }
  }

  lemma {:induction false} PlaceWordsReads(g: Glyphs, words: seq<Word>, size: real, width: real,
                                          regular: Font, bold: Font)
    requires GlyphsFit(g, size, width) && 0.0 <= width && Words?(words)
    ensures Read(PlaceWords(g, words, size, width, regular, bold)) == Pieces(g, words, size, width, regular, bold)
  {
    hide SplitPieces, GlyphsFit;
    if words == [] {
      NothingReads();
    } else {
      var n := |words| - 1;
      var last := words[n];
      assert Words?(words[..n]) && Solid(last.text);
      PlaceWordsReads(g, words[..n], size, width, regular, bold);
      var font := FontOf(last, regular, bold);
      PiecesAreSolid(g, last.text, font, size, width);
      var pieces := SplitPieces(g, last.text, font, size, width);
      PlacePiecesReads(g, PlaceWords(g, words[..n], size, width, regular, bold), pieces, font, size, width, 0);
      assert pieces[0..] == pieces;
    }
  }

  lemma NothingReads()
    ensures Read(Wrapping([], [], 0.0)) == []
  {
    NoTokens();
    assert LinesTexts([]) == [] && LineText([]) == "";
  }

  lemma BlankReads(font: Font)
    ensures LinesTexts([[Run("", font)]]) == []
  {
    hide Tokens;
    var blank := [Run("", font)];
    LinesTextsAppend([], blank);
    LineTextAppend([], Run("", font));
    assert [] + [blank] == [blank] && [] + blank == blank;
    NoTokens();
    assert LineText([]) == "" && LinesTexts([]) == [];
  }

  /** The words read off a wrapped node are the pieces of its words, in order: nothing is
      joined across two words, and nothing is split that was not cut. */
  lemma WrappedReads(g: Glyphs, words: seq<Word>, size: real, width: real, regular: Font, bold: Font)
    requires GlyphsFit(g, size, width) && 0.0 <= width && Words?(words)
    ensures LinesTexts(Wrapped(g, words, size, width, regular, bold)) == Pieces(g, words, size, width, regular, bold)
  {
    hide PlaceWords, GlyphsFit, Words?, Tokens;
    PlaceWordsReads(g, words, size, width, regular, bold);
    var w := PlaceWords(g, words, size, width, regular, bold);
    LinesTextsAppend(w.lines, w.line);
    BlankReads(regular);
    NoTokens();
    assert LineText([]) == "";
  }

  // ------------------------------------------- exactly when words stay whole

  lemma OnePieceExactly(g: Glyphs, word: string, font: Font, size: real, width: real)
    requires GlyphsFit(g, size, width) && 0.0 <= width && word != ""
    ensures var pieces := SplitPieces(g, word, font, size, width);
      && |pieces| >= 1
      && (|pieces| == 1 <==> FontWidth(g, word, font, size) <= width)
      && (|pieces| == 1 ==> pieces == [word])
  {
    hide FontWidth;
    SplitPiecesCorrect(g, word, font, size, width);
    var pieces := SplitPieces(g, word, font, size, width);
    if |pieces| == 1 {
      assert Joined(pieces) == pieces[0] + Joined(pieces[1..]) == pieces[0];
      assert FontWidth(g, pieces[0], font, size) <= width;
    }
  }

  /** A node is read in its own words if and only if none of them had to be cut; otherwise
      more words are read than it has. */
  lemma {:induction false} PiecesExactly(g: Glyphs, words: seq<Word>, size: real, width: real, regular: Font,
      bold: Font)
    requires GlyphsFit(g, size, width) && 0.0 <= width && Words?(words)
    ensures var pieces := Pieces(g, words, size, width, regular, bold);
      && (NoLongWord(g, words, size, width, regular, bold) ==> pieces == Texts(words))
      && (!NoLongWord(g, words, size, width, regular, bold) ==> |pieces| > |words|)
  {
    hide FontWidth, SplitPieces, GlyphsFit;
    if words != [] {
      var n := |words| - 1;
      var last := words[n];
      assert Words?(words[..n]) && Solid(last.text);
      PiecesExactly(g, words[..n], size, width, regular, bold);
      OnePieceExactly(g, last.text, FontOf(last, regular, bold), size, width);
      NoLongWordOfMore(g, words[..n], last, size, width, regular, bold);
      assert words == words[..n] + [last];
      assert Texts(words) == Texts(words[..n]) + [last.text];
    }
  }

  lemma NoLongWordOfMore(g: Glyphs, words: seq<Word>, last: Word, size: real, width: real, regular: Font, bold: Font)
    ensures NoLongWord(g, words + [last], size, width, regular, bold)
      <==> NoLongWord(g, words, size, width, regular, bold)
           && FontWidth(g, last.text, FontOf(last, regular, bold), size) <= width
  {
    hide FontWidth;
    var more := words + [last];
    assert more[|words|] == last && forall i :: 0 <= i < |words| ==> more[i] == words[i];
  }
}
