/** What is left to compare once the candidate's name has been deleted from the text and from
    the pages (resume-renderer-v2/app.py, 667-721, 1155-1165). */
module Erasure {
  import opened Basics
  import opened Text
  import opened Reading
  import opened Resume
  import opened Column
  import opened Geometry
  import opened Layout
  import opened Content
  import opened Masthead
  import opened Ats

  // ----------------------------------------------------- deleting a pattern

  /** Characters that match without regard to case. */
  type Alike = (char, char) -> bool

  predicate MatchesAt(alike: Alike, pattern: string, text: string) {
    |pattern| <= |text| && forall i :: 0 <= i < |pattern| ==> alike(pattern[i], text[i])
  }

  /** re.sub of the escaped pattern by a blank, from the left.  The pattern holds no line break,
      so the lines of a text are treated one by one. */
  function Erased(alike: Alike, pattern: string, text: string): string
    requires pattern != ""
    decreases |text|
  {
    if text == "" then ""
    else if MatchesAt(alike, pattern, text) then " " + Erased(alike, pattern, text[|pattern|..])
    else [text[0]] + Erased(alike, pattern, text[1..])
  }

  predicate Occurs(alike: Alike, pattern: string, text: string) {
    exists i :: 0 <= i <= |text| && MatchesAt(alike, pattern, text[i..])
  }

  lemma {:induction false} AbsentIsKept(alike: Alike, pattern: string, text: string)
    requires pattern != "" && !Occurs(alike, pattern, text)
    ensures Erased(alike, pattern, text) == text
    decreases |text|
  {
    if text != "" {
      assert text[0..] == text;
      forall i | 0 <= i <= |text| - 1 ensures !MatchesAt(alike, pattern, text[1..][i..]) {
        assert text[1..][i..] == text[i + 1..];
      }
      AbsentIsKept(alike, pattern, text[1..]);
    }
  }

  lemma WholeIsErased(alike: Alike, pattern: string)
    requires pattern != "" && forall c :: alike(c, c)
    ensures Erased(alike, pattern, pattern) == " "
  {
    assert pattern[|pattern|..] == "";
  }

  lemma ShortIsAbsent(alike: Alike, pattern: string, text: string)
    requires |text| < |pattern|
    ensures !Occurs(alike, pattern, text)
  {}

  /** A stretch of the text. */
  predicate Within(piece: string, text: string) {
    exists i :: 0 <= i <= |text| && piece <= text[i..]
  }

  predicate Ends(piece: string, text: string) {
    |piece| <= |text| && text[|text| - |piece|..] == piece
  }

  lemma AbsentWithin(alike: Alike, pattern: string, piece: string, text: string)
    requires Within(piece, text) && !Occurs(alike, pattern, text)
    ensures !Occurs(alike, pattern, piece)
  {
    var at :| 0 <= at <= |text| && piece <= text[at..];
    forall i | 0 <= i <= |piece| ensures !MatchesAt(alike, pattern, piece[i..]) {
      assert forall k :: 0 <= k < |piece| - i ==> piece[i..][k] == text[at + i..][k];
      assert !MatchesAt(alike, pattern, text[at + i..]);
    }
  }

  lemma WithinMore(piece: string, text: string, more: string)
    requires Within(piece, text)
    ensures Within(piece, text + more)
  {
    var i :| 0 <= i <= |text| && piece <= text[i..];
    assert (text + more)[i..] == text[i..] + more;
  }

  lemma EndsWithin(piece: string, text: string, more: string)
    requires Ends(piece, text)
    ensures Within(piece, text + more)
  {
    var i := |text| - |piece|;
    assert (text + more)[i..] == piece + more;
  }

  lemma EndsMore(piece: string, text: string, more: string)
    requires Ends(piece, text)
    ensures Ends(piece + more, text + more) && Ends(more, text + more)
  {}

  // ------------------------------------------- the lines of a text, end to end

  function TotalLength(lines: seq<Line>): nat {
    if lines == [] then 0 else TotalLength(lines[..|lines| - 1]) + |LineText(lines[|lines| - 1])|
  }

  lemma TotalOfMore(lines: seq<Line>, line: Line)
    ensures TotalLength(lines + [line]) == TotalLength(lines) + |LineText(line)|
  {
    assert (lines + [line])[..|lines|] == lines;
  }

  lemma {:induction false} OneOfTotal(lines: seq<Line>, i: nat)
    requires i < |lines|
    ensures |LineText(lines[i])| <= TotalLength(lines)
  {
    var n := |lines| - 1;
    if i < n {
      OneOfTotal(lines[..n], i);
    }
  }

  ghost predicate AllWithin(lines: seq<Line>, text: string) {
    forall i :: 0 <= i < |lines| ==> LineText(lines[i]) != "" && Within(LineText(lines[i]), text)
  }

  /** The lines so far are stretches of the text so far, the open one its end, and together no
      longer than it. */
  ghost predicate Spread(w: Wrapping, text: string) {
    && AllWithin(w.lines, text)
    && Ends(LineText(w.line), text) && (w.line != [] ==> LineText(w.line) != "")
    && TotalLength(w.lines) + |LineText(w.line)| <= |text|
    && (w.lines == [] ==> LineText(w.line) == text)
  }

  lemma SpreadPut(g: Glyphs, w: Wrapping, text: string, separator: string, piece: string, font: Font, size: real,
      width: real)
    requires Spread(w, text) && piece != "" && separator == if w.line != [] then " " else ""
    ensures Spread(PutPiece(g, w, separator, piece, font, size, width), text + (separator + piece))
  {
    hide FontWidth, Spread;
    if w.line != [] && w.used + FontWidth(g, separator + piece, font, size) > width + SLACK {
      var next := Wrapping(w.lines + [w.line], [Run(piece, font)], FontWidth(g, piece, font, size));
      assert PutPiece(g, w, separator, piece, font, size, width) == next;
      SpreadNext(w, next, text, Run(piece, font));
    } else {
      var next := Wrapping(w.lines, w.line + [Run(separator + piece, font)],
        w.used + FontWidth(g, separator + piece, font, size));
      assert PutPiece(g, w, separator, piece, font, size, width) == next;
      SpreadOn(w, next, text, Run(separator + piece, font));
    }
  }

  lemma StillWithin(lines: seq<Line>, text: string, more: string)
    requires AllWithin(lines, text)
    ensures AllWithin(lines, text + more)
  {
    hide Within, LineText;
    forall i | 0 <= i < |lines| ensures Within(LineText(lines[i]), text + more) {
      WithinMore(LineText(lines[i]), text, more);
    }
  }

  /** The open line grows, and so does the text. */
  lemma SpreadOn(w: Wrapping, next: Wrapping, text: string, run: Run)
    requires Spread(w, text) && run.text != "" && next.lines == w.lines && next.line == w.line + [run]
    ensures Spread(next, text + run.text)
  {
    hide AllWithin, Ends, LineText;
    StillWithin(w.lines, text, run.text);
    EndsMore(LineText(w.line), text, run.text);
    LineTextAppend(w.line, run);
  }

  /** The open line is closed. */
  lemma SpreadClosed(w: Wrapping, text: string)
    requires Spread(w, text) && w.line != []
    ensures Spread(LineClosed(w), text)
  {
    hide Within, Ends, LineText;
    TotalOfMore(w.lines, w.line);
    NoLineText();
    NothingEnds(text);
    EndsWithin(LineText(w.line), text, "");
    assert text + "" == text;
  }

  /** A blank of the text that a line break takes the place of. */
  lemma SpreadBlank(w: Wrapping, text: string)
    requires Spread(w, text) && w.line == [] && w.lines != []
    ensures Spread(w, text + " ")
  {
    hide AllWithin, Ends, LineText;
    NoLineText();
    StillWithin(w.lines, text, " ");
    NothingEnds(text + " ");
  }

  /** The open line is closed, and the text goes on behind a blank with the next. */
  lemma SpreadNext(w: Wrapping, next: Wrapping, text: string, run: Run)
    requires Spread(w, text) && w.line != [] && run.text != ""
    requires next.lines == w.lines + [w.line] && next.line == [run]
    ensures Spread(next, text + (" " + run.text))
  {
    hide Spread;
    SpreadClosed(w, text);
    SpreadBlank(LineClosed(w), text);
    assert [] + [run] == [run];
    SpreadOn(LineClosed(w), next, text + " ", run);
    assert text + " " + run.text == text + (" " + run.text);
  }

  lemma NothingEnds(text: string)
    ensures Ends("", text)
  {}

  lemma NoLineText()
    ensures LineText([]) == ""
  {}

  lemma LineOfOne(run: Run)
    ensures LineText([run]) == run.text
  {
    LineTextAppend([], run);
    NoLineText();
    assert [] + [run] == [run] && "" + run.text == run.text;
  }

  lemma PutLeavesLine(g: Glyphs, w: Wrapping, separator: string, piece: string, font: Font, size: real, width: real)
    ensures PutPiece(g, w, separator, piece, font, size, width).line != []
  {}

  function Before(w: Wrapping, pieces: seq<string>, index: nat): string {
    if w.line != [] && index < |pieces| then " " else ""
  }

  lemma {:induction false} SpreadPieces(g: Glyphs, w: Wrapping, text: string, pieces: seq<string>, font: Font,
                                       size: real, width: real, index: nat)
    requires index <= |pieces| && (index == 0 || index == |pieces| || w.line == [])
    requires Spread(w, text) && forall i :: 0 <= i < |pieces| ==> pieces[i] != ""
    ensures Spread(PlacePieces(g, w, pieces, font, size, width, index),
                   text + (Before(w, pieces, index) + Joined(pieces[index..])))
    decreases |pieces| - index
  {
    hide PutPiece, Spread;
    if index == |pieces| {
      assert text + ("" + "") == text;
    } else {
      var separator, piece := Before(w, pieces, index), pieces[index];
      var placed := PutPiece(g, w, separator, piece, font, size, width);
      SpreadPut(g, w, text, separator, piece, font, size, width);
      PutLeavesLine(g, w, separator, piece, font, size, width);
      var now := text + (separator + piece);
      if index + 1 < |pieces| {
        SpreadClosed(placed, now);
      }
      var next := PlacePiece(g, w, piece, font, size, width, index, |pieces|);
      SpreadPieces(g, next, now, pieces, font, size, width, index + 1);
      assert pieces[index..][1..] == pieces[index + 1..];
      var rest := Joined(pieces[index + 1..]);
      assert Joined(pieces[index..]) == piece + rest;
      assert now + ("" + rest) == text + (separator + (piece + rest));
    }
  }

  lemma {:induction false} JoinOfMore(texts: seq<string>, last: string)
    ensures Join(" ", texts + [last]) == if texts == [] then last else Join(" ", texts) + " " + last
  {
    if texts == [] {
      assert [] + [last] == [last];
    } else {
      assert (texts + [last])[1..] == texts[1..] + [last];
      JoinOfMore(texts[1..], last);
      if |texts| > 1 {
        assert texts[0] + " " + (Join(" ", texts[1..]) + " " + last)
          == texts[0] + " " + Join(" ", texts[1..]) + " " + last;
      }
    }
  }

  /** One more word. */
  lemma SpreadWord(g: Glyphs, w: Wrapping, texts: seq<string>, word: Word, size: real, width: real, regular: Font,
      bold: Font)
    requires GlyphsFit(g, size, width) && 0.0 <= width && Solid(word.text)
    requires Spread(w, Join(" ", texts)) && (w.line != [] <==> texts != [])
    ensures Spread(PlaceWord(g, w, word, size, width, regular, bold), Join(" ", texts + [word.text]))
  {
    hide SplitPieces, GlyphsFit, PlacePieces, Spread;
    var font, text := FontOf(word, regular, bold), Join(" ", texts);
    var pieces := SplitPieces(g, word.text, font, size, width);
    SplitPiecesCorrect(g, word.text, font, size, width);
    SpreadPieces(g, w, text, pieces, font, size, width, 0);
    assert pieces[0..] == pieces;
    JoinOfMore(texts, word.text);
    if texts == [] {
      assert "" + ("" + word.text) == word.text;
    } else {
      assert text + (" " + word.text) == text + " " + word.text;
    }
  }

  lemma {:induction false} SpreadWords(g: Glyphs, words: seq<Word>, size: real, width: real, regular: Font, bold: Font)
    requires GlyphsFit(g, size, width) && 0.0 <= width && Words?(words)
    ensures var w := PlaceWords(g, words, size, width, regular, bold);
      Spread(w, Join(" ", Texts(words))) && (w.line != [] <==> words != [])
  {
    hide GlyphsFit, PlaceWord, Spread, WrappingOk;
    if words == [] {
      NothingSpread();
      assert Texts(words) == [];
    } else {
      var n := |words| - 1;
      assert Words?(words[..n]) && Solid(words[n].text);
      SpreadWords(g, words[..n], size, width, regular, bold);
      PlaceWordsCorrect(g, words, size, width, regular, bold);
      SpreadWord(g, PlaceWords(g, words[..n], size, width, regular, bold), Texts(words[..n]), words[n], size, width,
                 regular, bold);
      assert Texts(words) == Texts(words[..n]) + [words[n].text];
    }
  }

  lemma NothingSpread()
    ensures Spread(Wrapping([], [], 0.0), "")
  {}

  /** The lines of a node are stretches of its text: the whole text when there is one, shorter
      than the text when there are more. */
  lemma LinesOfText(g: Glyphs, b: Block)
    requires Composed(g, b) && b.words != []
    ensures var text := Join(" ", Texts(b.words));
      && b.lines != []
      && (forall i :: 0 <= i < |b.lines| ==> Within(LineText(b.lines[i]), text))
      && (|b.lines| == 1 ==> LineText(b.lines[0]) == text)
      && (|b.lines| > 1 ==> forall i :: 0 <= i < |b.lines| ==> |LineText(b.lines[i])| < |text|)
  {
    hide GlyphsFit, PlaceWords, Within, LineText;
    SpreadWords(g, b.words, b.size, b.width, b.regular, b.bold);
    var w := PlaceWords(g, b.words, b.size, b.width, b.regular, b.bold);
    var text := Join(" ", Texts(b.words));
    assert b.lines == w.lines + [w.line];
    EndsWithin(LineText(w.line), text, "");
    assert text + "" == text;
    forall i | 0 <= i < |w.lines| ensures |LineText(w.lines[i])| < |text| {
      OneOfTotal(w.lines, i);
    }
    if w.lines != [] {
      OneOfTotal(w.lines, 0);
    }
  }

  // ------------------------------------------------------------ what is left

  /** The words left on lines. */
  function LeftTexts(alike: Alike, pattern: string, lines: seq<Line>): seq<string>
    requires pattern != ""
  {
    if lines == [] then []
    else
      LeftTexts(alike, pattern, lines[..|lines| - 1]) + Tokens(Erased(alike, pattern, LineText(lines[|lines| - 1])))
  }

  lemma {:induction false} AbsentLines(alike: Alike, pattern: string, lines: seq<Line>)
    requires pattern != "" && forall i :: 0 <= i < |lines| ==> !Occurs(alike, pattern, LineText(lines[i]))
    ensures LeftTexts(alike, pattern, lines) == LinesTexts(lines)
  {
    hide Occurs, Erased, LineText, Tokens;
    if lines != [] {
      var n := |lines| - 1;
      AbsentLines(alike, pattern, lines[..n]);
      AbsentIsKept(alike, pattern, LineText(lines[n]));
    }
  }

  /** Nothing of a text is deleted that does not hold the pattern, wherever its lines break. */
  lemma AbsentBlock(alike: Alike, pattern: string, g: Glyphs, b: Block)
    requires Composed(g, b) && pattern != "" && !Occurs(alike, pattern, Join(" ", Texts(b.words)))
    ensures LeftTexts(alike, pattern, b.lines) == LinesTexts(b.lines)
  {
    hide Composed, Occurs, Within, LineText, Texts;
    if b.words == [] {
      BlankBlock(g, b);
      ShortIsAbsent(alike, pattern, "");
    } else {
      LinesOfText(g, b);
      forall i | 0 <= i < |b.lines| ensures !Occurs(alike, pattern, LineText(b.lines[i])) {
        AbsentWithin(alike, pattern, LineText(b.lines[i]), Join(" ", Texts(b.words)));
      }
    }
    AbsentLines(alike, pattern, b.lines);
  }

  lemma BlankBlock(g: Glyphs, b: Block)
    requires Composed(g, b) && b.words == []
    ensures |b.lines| == 1 && LineText(b.lines[0]) == ""
  {
    LineOfOne(Run("", b.regular));
  }

  /** A text that is the pattern itself is deleted when it takes one line, and kept whole when it
      takes more: no line then holds it. */
  lemma OwnLinesExactly(alike: Alike, g: Glyphs, b: Block)
    requires Composed(g, b) && b.words != [] && Join(" ", Texts(b.words)) != "" && forall c :: alike(c, c)
    ensures var left := LeftTexts(alike, Join(" ", Texts(b.words)), b.lines);
      && (|b.lines| == 1 ==> left == [])
      && (|b.lines| != 1 ==> left == LinesTexts(b.lines) && |left| >= |b.words|)
  {
    hide Composed, Occurs, Within, LineText, Texts, Tokens, Erased;
    var text := Join(" ", Texts(b.words));
    LinesOfText(g, b);
    BlockReads(g, b);
    if |b.lines| == 1 {
      WholeIsErased(alike, text);
      TokensOfBoth("", "");
      NoTokens();
      assert "" + " " + "" == " ";
      assert b.lines[..0] == [];
      assert LeftTexts(alike, text, b.lines) == LeftTexts(alike, text, []) + Tokens(" ");
    } else {
      forall i | 0 <= i < |b.lines| ensures !Occurs(alike, text, LineText(b.lines[i])) {
        ShortIsAbsent(alike, text, LineText(b.lines[i]));
      }
      AbsentLines(alike, text, b.lines);
      TextsCount(b.words);
    }
  }

  lemma TextsCount(words: seq<Word>)
    ensures |Texts(words)| == |words|
  {}
}
