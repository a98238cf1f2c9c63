/** Word wrapping of the resume renderer (resume-renderer-v2/app.py, 494-586).

    Fonts are a table of advance widths per unit of type size, so the width of a
    text is additive over its characters and scales with the size.  Arithmetic is
    over the reals. */
module Text {

  datatype Font = Display | Regular | Medium | Bold

  /** A word of a node after emphasis has been applied. */
  datatype Word = Word(text: string, bold: bool)

  /** A piece of text set in one font; a leading blank is the word separator. */
  datatype Run = Run(text: string, font: Font)

  type Line = seq<Run>

  type Glyphs = (Font, char) -> real

  const SLACK: real := 0.01

  function UnitWidth(g: Glyphs, text: string, font: Font): real {
    if text == "" then 0.0 else UnitWidth(g, text[..|text| - 1], font) + g(font, text[|text| - 1])
  }

  function FontWidth(g: Glyphs, text: string, font: Font, size: real): real {
    size * UnitWidth(g, text, font)
  }

  function LineWidth(g: Glyphs, line: Line, size: real): real {
    if line == [] then 0.0
    else LineWidth(g, line[..|line| - 1], size) + FontWidth(g, line[|line| - 1].text, line[|line| - 1].font, size)
  }

  /** Every glyph has a width between nothing and four times the type size, which
      at 14 points is still narrower than the narrowest column of the template. */
  ghost predicate GlyphsOk(g: Glyphs) {
    forall f, c :: 0.0 <= g(f, c) <= 4.0
  }

  /** Every single character fits a line of this width at this size. */
  ghost predicate GlyphsFit(g: Glyphs, size: real, width: real) {
    forall f, c :: 0.0 <= size * g(f, c) <= width
  }

  /** What `\S+` guarantees of a word: it is not empty and holds no blank. */
  predicate Solid(text: string) {
    text != "" && forall c :: c in text ==> c != ' '
  }

  predicate Words?(words: seq<Word>) {
    forall w :: w in words ==> Solid(w.text)
  }

  // ---------------------------------------------------------------- widths

  lemma UnitWidthNonNegative(g: Glyphs, text: string, font: Font)
    requires forall f, c :: 0.0 <= g(f, c)
    ensures 0.0 <= UnitWidth(g, text, font)
  {}

  lemma {:induction false} UnitWidthAppend(g: Glyphs, a: string, b: string, font: Font)
    ensures UnitWidth(g, a + b, font) == UnitWidth(g, a, font) + UnitWidth(g, b, font)
  {
    if b == "" {
      assert a + b == a;
    } else {
      assert (a + b)[..|a + b| - 1] == a + b[..|b| - 1];
      UnitWidthAppend(g, a, b[..|b| - 1], font);
    }
  }

  lemma FontWidthAppend(g: Glyphs, a: string, b: string, font: Font, size: real)
    ensures FontWidth(g, a + b, font, size) == FontWidth(g, a, font, size) + FontWidth(g, b, font, size)
  {
    UnitWidthAppend(g, a, b, font);
  }

  lemma FontWidthNonNegative(g: Glyphs, text: string, font: Font, size: real)
    requires forall f, c :: 0.0 <= g(f, c)
    requires 0.0 <= size
    ensures 0.0 <= FontWidth(g, text, font, size)
  {
    UnitWidthNonNegative(g, text, font);
  }

  /** Setting the same text smaller never makes it wider. */
  lemma FontWidthMonotone(g: Glyphs, text: string, font: Font, small: real, large: real)
    requires forall f, c :: 0.0 <= g(f, c)
    requires 0.0 <= small <= large
    ensures 0.0 <= FontWidth(g, text, font, small) <= FontWidth(g, text, font, large)
  {
    UnitWidthNonNegative(g, text, font);
  }

  // ------------------------------------------------------ split_long_word

  /** The rest of the loop of split_long_word: the pieces still to come, `current` first. */
  function SplitFrom(g: Glyphs, rest: string, current: string, font: Font, size: real, width: real): seq<string>
    decreases |rest|
  {
    if rest == "" then (if current != "" then [current] else [])
    else if current != "" && FontWidth(g, current + [rest[0]], font, size) > width then
      [current] + SplitFrom(g, rest[1..], [rest[0]], font, size, width)
    else SplitFrom(g, rest[1..], current + [rest[0]], font, size, width)
  }

  function SplitPieces(g: Glyphs, word: string, font: Font, size: real, width: real): seq<string> {
    if FontWidth(g, word, font, size) <= width then [word] else SplitFrom(g, word, "", font, size, width)
  }

  function Joined(pieces: seq<string>): string {
    if pieces == [] then "" else pieces[0] + Joined(pieces[1..])
  }

  method SplitLongWord(g: Glyphs, word: string, font: Font, size: real, width: real) returns (pieces: seq<string>)
    ensures pieces == SplitPieces(g, word, font, size, width)
  {
    hide FontWidth;
    if FontWidth(g, word, font, size) <= width {
      return [word];
    }
    pieces := [];
    var current := "";
    var i := 0;
    ghost var all := SplitFrom(g, word, "", font, size, width);
    assert word[0..] == word;
    while i < |word|
      invariant 0 <= i <= |word|
      invariant pieces + SplitFrom(g, word[i..], current, font, size, width) == all
    {
      var character := word[i];
      assert word[i..][0] == character && word[i..][1..] == word[i + 1..];
      var candidate := current + [character];
      if current != "" && FontWidth(g, candidate, font, size) > width {
        assert pieces + ([current] + SplitFrom(g, word[i + 1..], [character], font, size, width))
            == pieces + [current] + SplitFrom(g, word[i + 1..], [character], font, size, width);
        pieces := pieces + [current];
        current := [character];
      } else {
        current := candidate;
      }
      i := i + 1;
    }
    if current != "" {
      pieces := pieces + [current];
    }
  }

  ghost predicate PiecesFit(g: Glyphs, pieces: seq<string>, font: Font, size: real, width: real) {
    forall i :: 0 <= i < |pieces| ==>
      pieces[i] != "" && FontWidth(g, pieces[i], font, size) <= width
  }

  lemma {:induction false} SplitFromCorrect(g: Glyphs, rest: string, current: string, font: Font, size: real,
      width: real)
    requires GlyphsFit(g, size, width)
    requires FontWidth(g, current, font, size) <= width
    ensures Joined(SplitFrom(g, rest, current, font, size, width)) == current + rest
    ensures PiecesFit(g, SplitFrom(g, rest, current, font, size, width), font, size, width)
    ensures current + rest != "" ==> SplitFrom(g, rest, current, font, size, width) != []
    decreases |rest|
  {
    if rest == "" {
      assert current + rest == current;
    } else {
      var c := [rest[0]];
      UnitWidthOne(g, rest[0], font);
      assert rest == c + rest[1..];
      if current != "" && FontWidth(g, current + c, font, size) > width {
        SplitFromCorrect(g, rest[1..], c, font, size, width);
        assert current + rest == current + (c + rest[1..]);
      } else {
        if current == "" {
          assert current + c == c;
        }
        SplitFromCorrect(g, rest[1..], current + c, font, size, width);
        assert current + rest == (current + c) + rest[1..];
      }
    }
  }

  lemma UnitWidthOne(g: Glyphs, c: char, font: Font)
    ensures UnitWidth(g, [c], font) == g(font, c)
  {
    assert [c][..0] == "";
    assert UnitWidth(g, [c], font) == UnitWidth(g, [c][..0], font) + g(font, c);
  }

  /** Cutting a word loses no character, yields no empty piece, and every piece fits. */
  lemma SplitPiecesCorrect(g: Glyphs, word: string, font: Font, size: real, width: real)
    requires GlyphsFit(g, size, width) && 0.0 <= width
    requires word != ""
    ensures var pieces := SplitPieces(g, word, font, size, width);
      pieces != [] && Joined(pieces) == word && PiecesFit(g, pieces, font, size, width)
  {
    assert word[..] == word;
    if FontWidth(g, word, font, size) <= width {
      assert Joined([word]) == word + Joined([]);
    } else {
      SplitFromCorrect(g, word, "", font, size, width);
      assert "" + word == word;
    }
  }

  // ------------------------------------------------------------ wrap_node

  /** The three variables wrap_node threads through its loops. */
  datatype Wrapping = Wrapping(lines: seq<Line>, line: Line, used: real)

  /** Where a piece goes: on the open line, or at the start of the next. */
  function PutPiece(g: Glyphs, w: Wrapping, separator: string, piece: string, font: Font, size: real,
      width: real): Wrapping {
    var candidate := FontWidth(g, separator + piece, font, size);
    if w.line != [] && w.used + candidate > width + SLACK then
      Wrapping(w.lines + [w.line], [Run(piece, font)], FontWidth(g, piece, font, size))
    else
      Wrapping(w.lines, w.line + [Run(separator + piece, font)], w.used + candidate)
  }

  function LineClosed(w: Wrapping): Wrapping { Wrapping(w.lines + [w.line], [], 0.0) }

  /** One turn of the inner loop: piece number `index` of `count`. */
  function PlacePiece(g: Glyphs, w: Wrapping, piece: string, font: Font, size: real, width: real,
                      index: nat, count: nat): Wrapping
  {
    var placed := PutPiece(g, w, if w.line != [] && index == 0 then " " else "", piece, font, size, width);
    if index + 1 < count then LineClosed(placed) else placed
  }

  function PlacePieces(g: Glyphs, w: Wrapping, pieces: seq<string>, font: Font, size: real, width: real,
                       index: nat): Wrapping
    requires index <= |pieces|
    decreases |pieces| - index
  {
    if index == |pieces| then w
    else PlacePieces(g, PlacePiece(g, w, pieces[index], font, size, width, index, |pieces|),
                     pieces, font, size, width, index + 1)
  }

  function FontOf(word: Word, regular: Font, bold: Font): Font {
    if word.bold then bold else regular
  }

  function PlaceWord(g: Glyphs, w: Wrapping, word: Word, size: real, width: real, regular: Font, bold: Font): Wrapping {
    var font := FontOf(word, regular, bold);
    PlacePieces(g, w, SplitPieces(g, word.text, font, size, width), font, size, width, 0)
  }

  function PlaceWords(g: Glyphs, words: seq<Word>, size: real, width: real, regular: Font, bold: Font): Wrapping {
    if words == [] then Wrapping([], [], 0.0)
    else PlaceWord(g, PlaceWords(g, words[..|words| - 1], size, width, regular, bold), words[|words| - 1],
                   size, width, regular, bold)
  }

  function Finished(w: Wrapping, regular: Font): seq<Line> {
    var lines := if w.line != [] then w.lines + [w.line] else w.lines;
    if lines == [] then [[Run("", regular)]] else lines
  }

  function Wrapped(g: Glyphs, words: seq<Word>, size: real, width: real, regular: Font, bold: Font): seq<Line> {
    Finished(PlaceWords(g, words, size, width, regular, bold), regular)
  }

  method WrapNode(g: Glyphs, words: seq<Word>, size: real, width: real, regular: Font, bold: Font)
    returns (lines: seq<Line>)
    ensures lines == Wrapped(g, words, size, width, regular, bold)
  {
    hide FontWidth, SplitPieces;
    lines := [];
    var line: Line := [];
    var used := 0.0;
    for i := 0 to |words|
      invariant Wrapping(lines, line, used) == PlaceWords(g, words[..i], size, width, regular, bold)
    {
      var font := FontOf(words[i], regular, bold);
      var pieces := SplitLongWord(g, words[i].text, font, size, width);
      ghost var before := Wrapping(lines, line, used);
      for index := 0 to |pieces|
        invariant PlacePieces(g, Wrapping(lines, line, used), pieces, font, size, width, index)
               == PlacePieces(g, before, pieces, font, size, width, 0)
      {
        ghost var step := PlacePiece(g, Wrapping(lines, line, used), pieces[index], font, size, width, index, |pieces|);
        var separator := if line != [] && index == 0 then " " else "";
        var candidate := FontWidth(g, separator + pieces[index], font, size);
        if line != [] && used + candidate > width + SLACK {
          lines := lines + [line];
          line := [];
          used := 0.0;
          separator := "";
          candidate := FontWidth(g, pieces[index], font, size);
        }
        assert separator == "" ==> separator + pieces[index] == pieces[index];
        assert [] + [Run(separator + pieces[index], font)] == [Run(separator + pieces[index], font)];
        line := line + [Run(separator + pieces[index], font)];
        used := used + candidate;
        if index < |pieces| - 1 {
          lines := lines + [line];
          line := [];
          used := 0.0;
        }
        assert Wrapping(lines, line, used) == step;
      }
      assert words[..i + 1][..i] == words[..i];
    }
    assert words[..|words|] == words;
    if line != [] {
      lines := lines + [line];
    }
    if lines == [] {
      lines := [[Run("", regular)]];
    }
  }

  // ------------------------------------------- what wrapping preserves

  function Unspaced(text: string): string {
    if text == "" then ""
    else if text[0] == ' ' then Unspaced(text[1..]) else [text[0]] + Unspaced(text[1..])
  }

  /** The characters set on a line, and on a page of lines, without the separators. */
  function LineInk(line: Line): string {
    if line == [] then "" else LineInk(line[..|line| - 1]) + Unspaced(line[|line| - 1].text)
  }

  function Ink(lines: seq<Line>): string {
    if lines == [] then "" else Ink(lines[..|lines| - 1]) + LineInk(lines[|lines| - 1])
  }

  /** The characters of a node, word by word. */
  function WordInk(words: seq<Word>): string {
    if words == [] then "" else WordInk(words[..|words| - 1]) + words[|words| - 1].text
  }

  /** A closed line: it holds text, starts without a separator, and fits its column. */
  ghost predicate LineOk(g: Glyphs, line: Line, size: real, width: real) {
    && line != []
    && (line[0].text != "" ==> line[0].text[0] != ' ')
    && LineWidth(g, line, size) <= width + SLACK
  }

  ghost predicate LinesOk(g: Glyphs, lines: seq<Line>, size: real, width: real) {
    forall i :: 0 <= i < |lines| ==> LineOk(g, lines[i], size, width)
  }

  /** `used` is the width of the open line, and all lines, open or closed, are good. */
  ghost predicate WrappingOk(g: Glyphs, w: Wrapping, size: real, width: real) {
    && LinesOk(g, w.lines, size, width)
    && w.used == LineWidth(g, w.line, size)
    && (w.line != [] ==> LineOk(g, w.line, size, width))
  }

  lemma {:induction false} UnspacedAppend(a: string, b: string)
    ensures Unspaced(a + b) == Unspaced(a) + Unspaced(b)
  {
    if a == "" {
      assert a + b == b;
    } else {
      assert (a + b)[1..] == a[1..] + b;
      UnspacedAppend(a[1..], b);
    }
  }

  lemma {:induction false} UnspacedSolid(text: string)
    requires forall c :: c in text ==> c != ' '
    ensures Unspaced(text) == text
  {
    if text != "" {
      assert text[0] in text;
      assert forall c :: c in text[1..] ==> c in text;
      UnspacedSolid(text[1..]);
    }
  }

  lemma LineAppend(g: Glyphs, line: Line, run: Run, size: real)
    ensures LineWidth(g, line + [run], size) == LineWidth(g, line, size) + FontWidth(g, run.text, run.font, size)
    ensures LineInk(line + [run]) == LineInk(line) + Unspaced(run.text)
  {
    assert (line + [run])[..|line|] == line;
  }

  lemma InkAppend(lines: seq<Line>, line: Line)
    ensures Ink(lines + [line]) == Ink(lines) + LineInk(line)
  {
    assert (lines + [line])[..|lines|] == lines;
  }

  /** Adding a run to the open line, when the result fits. */
  lemma ExtendLine(g: Glyphs, line: Line, used: real, separator: string, piece: string, font: Font,
                   size: real, width: real)
    requires used == LineWidth(g, line, size)
    requires separator == "" || (separator == " " && line != [])
    requires line != [] ==> LineOk(g, line, size, width)
    requires Solid(piece) && used + FontWidth(g, separator + piece, font, size) <= width + SLACK
    ensures var next := line + [Run(separator + piece, font)];
      && LineOk(g, next, size, width)
      && LineWidth(g, next, size) == used + FontWidth(g, separator + piece, font, size)
      && LineInk(next) == LineInk(line) + piece
  {
    hide FontWidth;
    LineAppend(g, line, Run(separator + piece, font), size);
    assert piece[0] in piece;
    UnspacedSolid(piece);
    UnspacedAppend(separator, piece);
    assert Unspaced(" ") == Unspaced(" "[1..]) == "";
    assert "" + piece == piece;
  }

  lemma CloseLine(g: Glyphs, w: Wrapping, size: real, width: real)
    requires WrappingOk(g, w, size, width) && w.line != []
    ensures var next := LineClosed(w);
      WrappingOk(g, next, size, width) && Ink(next.lines) + LineInk(next.line) == Ink(w.lines) + LineInk(w.line)
  {
    InkAppend(w.lines, w.line);
  }

  /** A piece that opens a new line. */
  lemma OpensLine(g: Glyphs, w: Wrapping, piece: string, font: Font, size: real, width: real)
    requires WrappingOk(g, w, size, width) && w.line != [] && 0.0 <= width
    requires Solid(piece) && FontWidth(g, piece, font, size) <= width
    ensures var next := Wrapping(w.lines + [w.line], [Run(piece, font)], FontWidth(g, piece, font, size));
      WrappingOk(g, next, size, width) && Ink(next.lines) + LineInk(next.line) == Ink(w.lines) + LineInk(w.line) + piece
  {
    hide FontWidth, Unspaced, Solid, LineOk;
    assert "" + piece == piece && [] + [Run(piece, font)] == [Run(piece, font)];
    ExtendLine(g, [], 0.0, "", piece, font, size, width);
    InkAppend(w.lines, w.line);
  }

  /** A piece that joins the open line. */
  lemma JoinsLine(g: Glyphs, w: Wrapping, separator: string, piece: string, font: Font, size: real, width: real)
    requires WrappingOk(g, w, size, width) && (separator == "" || (separator == " " && w.line != []))
    requires Solid(piece) && w.used + FontWidth(g, separator + piece, font, size) <= width + SLACK
    ensures var next := Wrapping(w.lines, w.line + [Run(separator + piece, font)],
                                 w.used + FontWidth(g, separator + piece, font, size));
      WrappingOk(g, next, size, width) && Ink(next.lines) + LineInk(next.line) == Ink(w.lines) + LineInk(w.line) + piece
  {
    hide FontWidth, Ink, Unspaced, Solid, LineOk;
    ExtendLine(g, w.line, w.used, separator, piece, font, size, width);
  }

  lemma PutPieceCorrect(g: Glyphs, w: Wrapping, separator: string, piece: string, font: Font, size: real, width: real)
    requires WrappingOk(g, w, size, width) && 0.0 <= width && (separator == "" || (separator == " " && w.line != []))
    requires Solid(piece) && FontWidth(g, piece, font, size) <= width
    ensures var next := PutPiece(g, w, separator, piece, font, size, width);
      WrappingOk(g, next, size, width) && next.line != []
      && Ink(next.lines) + LineInk(next.line) == Ink(w.lines) + LineInk(w.line) + piece
  {
    hide FontWidth, Ink, LineInk, Unspaced, Solid, LineOk;
    var candidate := FontWidth(g, separator + piece, font, size);
    if w.line != [] && w.used + candidate > width + SLACK {
      var next := Wrapping(w.lines + [w.line], [Run(piece, font)], FontWidth(g, piece, font, size));
      assert PutPiece(g, w, separator, piece, font, size, width) == next;
      OpensLine(g, w, piece, font, size, width);
    } else {
      FirstOnLine(g, w, separator, piece, font, size, width);
      var next := Wrapping(w.lines, w.line + [Run(separator + piece, font)], w.used + candidate);
      assert PutPiece(g, w, separator, piece, font, size, width) == next;
      JoinsLine(g, w, separator, piece, font, size, width);
    }
  }

  /** A piece that does not open a new line fits the open one. */
  lemma FirstOnLine(g: Glyphs, w: Wrapping, separator: string, piece: string, font: Font, size: real, width: real)
    requires w.used == LineWidth(g, w.line, size)
    requires separator == "" || (separator == " " && w.line != [])
    requires FontWidth(g, piece, font, size) <= width
    requires w.line != [] ==> w.used + FontWidth(g, separator + piece, font, size) <= width + SLACK
    ensures w.used + FontWidth(g, separator + piece, font, size) <= width + SLACK
  {
    hide FontWidth;
    assert "" + piece == piece;
  }

  /** Placing a piece keeps the wrapping good and adds exactly the piece's characters. */
  lemma PlacePieceCorrect(g: Glyphs, w: Wrapping, piece: string, font: Font, size: real, width: real,
                          index: nat, count: nat)
    requires WrappingOk(g, w, size, width) && 0.0 <= width
    requires Solid(piece) && FontWidth(g, piece, font, size) <= width
    ensures var next := PlacePiece(g, w, piece, font, size, width, index, count);
      && WrappingOk(g, next, size, width)
      && Ink(next.lines) + LineInk(next.line) == Ink(w.lines) + LineInk(w.line) + piece
      && (index + 1 >= count ==> next.line != [])
      && (index + 1 < count ==> next.line == [] && next.lines != [])
  {
    hide FontWidth, Ink, LineInk, Unspaced, Solid, WrappingOk, PutPiece;
    var separator := if w.line != [] && index == 0 then " " else "";
    PutPieceCorrect(g, w, separator, piece, font, size, width);
    CloseLine(g, PutPiece(g, w, separator, piece, font, size, width), size, width);
  }

  lemma {:induction false} PlacePiecesCorrect(g: Glyphs, w: Wrapping, pieces: seq<string>, font: Font, size: real,
                                             width: real, index: nat)
    requires index <= |pieces| && 0.0 <= width
    requires WrappingOk(g, w, size, width)
    requires PiecesFit(g, pieces, font, size, width)
    requires forall i :: 0 <= i < |pieces| ==> Solid(pieces[i])
    ensures var next := PlacePieces(g, w, pieces, font, size, width, index);
      && WrappingOk(g, next, size, width)
      && Ink(next.lines) + LineInk(next.line) == Ink(w.lines) + LineInk(w.line) + Joined(pieces[index..])
      && (index < |pieces| ==> next.line != [])
    decreases |pieces| - index
  {
    hide PlacePiece, WrappingOk, Ink, LineInk, FontWidth;
    if index == |pieces| {
    } else {
      PlacePieceCorrect(g, w, pieces[index], font, size, width, index, |pieces|);
      var next := PlacePiece(g, w, pieces[index], font, size, width, index, |pieces|);
      PlacePiecesCorrect(g, next, pieces, font, size, width, index + 1);
      assert pieces[index..][1..] == pieces[index + 1..];
      if index + 1 == |pieces| {
        assert PlacePieces(g, next, pieces, font, size, width, index + 1) == next;
      }
    }
  }

  lemma {:induction false} JoinedSolid(pieces: seq<string>, i: nat)
    requires i < |pieces| && pieces[i] != ""
    requires forall c :: c in Joined(pieces) ==> c != ' '
    ensures Solid(pieces[i])
  {
    assert forall c :: c in pieces[0] ==> c in Joined(pieces);
    if i > 0 {
      assert forall c :: c in Joined(pieces[1..]) ==> c in Joined(pieces);
      JoinedSolid(pieces[1..], i - 1);
    }
  }

  lemma {:induction false} PlaceWordsCorrect(g: Glyphs, words: seq<Word>, size: real, width: real,
                                            regular: Font, bold: Font)
    requires GlyphsFit(g, size, width) && 0.0 <= width
    requires Words?(words)
    ensures var w := PlaceWords(g, words, size, width, regular, bold);
      && WrappingOk(g, w, size, width)
      && Ink(w.lines) + LineInk(w.line) == WordInk(words)
      && (words != [] ==> w.line != [])
  {
    if words != [] {
      var last := words[|words| - 1];
      PlaceWordsCorrect(g, words[..|words| - 1], size, width, regular, bold);
      var font := FontOf(last, regular, bold);
      var pieces := SplitPieces(g, last.text, font, size, width);
      assert Solid(last.text);
      SplitPiecesCorrect(g, last.text, font, size, width);
      forall i | 0 <= i < |pieces| ensures Solid(pieces[i]) {
        JoinedSolid(pieces, i);
      }
      PlacePiecesCorrect(g, PlaceWords(g, words[..|words| - 1], size, width, regular, bold),
                         pieces, font, size, width, 0);
      assert pieces[0..] == pieces;
    }
  }

  /** wrap_node keeps the characters of its node in order, starts no line with a
      separator, and closes every line within a hundredth of a point of the column. */
  lemma WrappedCorrect(g: Glyphs, words: seq<Word>, size: real, width: real, regular: Font, bold: Font)
    requires GlyphsFit(g, size, width) && 0.0 <= width
    requires Words?(words)
    ensures var lines := Wrapped(g, words, size, width, regular, bold);
      && lines != []
      && Ink(lines) == WordInk(words)
      && LinesOk(g, lines, size, width)
  {
    PlaceWordsCorrect(g, words, size, width, regular, bold);
    if words != [] {
      FinishedCorrect(g, PlaceWords(g, words, size, width, regular, bold), size, width, regular);
      hide PlaceWords, GlyphsFit, Words?, LinesOk;
    } else {
      BlankLine(g, size, width, regular);
    }
  }

  lemma FinishedCorrect(g: Glyphs, w: Wrapping, size: real, width: real, regular: Font)
    requires WrappingOk(g, w, size, width) && w.line != []
    ensures var lines := Finished(w, regular);
      lines != [] && Ink(lines) == Ink(w.lines) + LineInk(w.line) && LinesOk(g, lines, size, width)
  {
    hide LineOk, LineInk;
    InkAppend(w.lines, w.line);
  }

  lemma BlankLine(g: Glyphs, size: real, width: real, font: Font)
    requires 0.0 <= width
    ensures Ink([[Run("", font)]]) == "" && LinesOk(g, [[Run("", font)]], size, width)
  {
    var blank := [Run("", font)];
    LineAppend(g, [], Run("", font), size);
    assert [] + blank == blank;
    assert LineWidth(g, blank, size) == size * 0.0;
    InkAppend([], blank);
    assert [] + [blank] == [blank];
  }

  // ------------------------------------------------ fewer lines when smaller

  /** No word needs cutting, so every word is a single piece. */
  predicate NoLongWord(g: Glyphs, words: seq<Word>, size: real, width: real, regular: Font, bold: Font) {
    forall i :: 0 <= i < |words| ==> FontWidth(g, words[i].text, FontOf(words[i], regular, bold), size) <= width
  }

  /** `a` is no further down the column than `b`: fewer lines, or as many and no wider. */
  predicate NoFurther(a: Wrapping, b: Wrapping) {
    || |a.lines| < |b.lines|
    || (|a.lines| == |b.lines| && a.used <= b.used)
  }

  lemma {:induction false} PlaceWordsShrinks(g: Glyphs, words: seq<Word>, small: real, large: real, width: real,
                                            regular: Font, bold: Font)
    requires forall f, c :: 0.0 <= g(f, c)
    requires 0.0 <= small <= large
    requires NoLongWord(g, words, large, width, regular, bold)
    ensures var a := PlaceWords(g, words, small, width, regular, bold);
            var b := PlaceWords(g, words, large, width, regular, bold);
      && NoFurther(a, b)
      && (a.line != [] <==> words != []) && (b.line != [] <==> words != [])
      && 0.0 <= a.used && 0.0 <= b.used
  {
    if words != [] {
      var n := |words| - 1;
      PlaceWordsShrinks(g, words[..n], small, large, width, regular, bold);
      var a := PlaceWords(g, words[..n], small, width, regular, bold);
      var b := PlaceWords(g, words[..n], large, width, regular, bold);
      var font := FontOf(words[n], regular, bold);
      var text := words[n].text;
      FontWidthMonotone(g, text, font, small, large);
      FontWidthMonotone(g, " " + text, font, small, large);
      FontWidthMonotone(g, "" + text, font, small, large);
      FontWidthAppend(g, " ", text, font, large);
      FontWidthNonNegative(g, " ", font, large);
      OnePiece(g, a, text, font, small, width);
      OnePiece(g, b, text, font, large, width);
      assert "" + text == text;
    }
  }

  lemma OnePiece(g: Glyphs, w: Wrapping, text: string, font: Font, size: real, width: real)
    requires FontWidth(g, text, font, size) <= width
    ensures PlacePieces(g, w, SplitPieces(g, text, font, size, width), font, size, width, 0)
         == PlacePiece(g, w, text, font, size, width, 0, 1)
  {
    var next := PlacePiece(g, w, text, font, size, width, 0, 1);
    assert PlacePieces(g, next, [text], font, size, width, 1) == next;
  }

  /** Greedy wrapping never needs more lines at a smaller size when no word is cut. */
  lemma WrappedShrinks(g: Glyphs, words: seq<Word>, small: real, large: real, width: real, regular: Font, bold: Font)
    requires forall f, c :: 0.0 <= g(f, c)
    requires 0.0 <= small <= large
    requires NoLongWord(g, words, large, width, regular, bold)
    ensures |Wrapped(g, words, small, width, regular, bold)| <= |Wrapped(g, words, large, width, regular, bold)|
  {
    PlaceWordsShrinks(g, words, small, large, width, regular, bold);
  }

  /** A font for the example below: the blank and the "i" are narrow, all else is wide. */
  function ExampleGlyphs(font: Font, c: char): real { if c == ' ' || c == 'i' then 0.3 else 0.75 }

  function Wide(n: nat): (text: string)
    ensures |text| == n && forall i :: 0 <= i < n ==> text[i] == 'x'
  {
    seq(n, _ => 'x')
  }

  lemma {:induction false} WideWidth(n: nat, font: Font)
    ensures UnitWidth(ExampleGlyphs, Wide(n), font) == 0.75 * n as real
  {
    if n > 0 {
      WideWidth(n - 1, font);
      assert Wide(n)[..n - 1] == Wide(n - 1);
    }
  }

  lemma ExampleWidths(size: real)
    ensures FontWidth(ExampleGlyphs, "i", Regular, size) == 0.3 * size
    ensures FontWidth(ExampleGlyphs, "c", Regular, size) == 0.75 * size
    ensures FontWidth(ExampleGlyphs, " c", Regular, size) == 1.05 * size
  {
    UnitWidthOne(ExampleGlyphs, 'i', Regular);
    UnitWidthOne(ExampleGlyphs, ' ', Regular);
    UnitWidthOne(ExampleGlyphs, 'c', Regular);
    UnitWidthAppend(ExampleGlyphs, " ", "c", Regular);
    assert " " + "c" == " c";
  }

  lemma WideWidths(n: nat, size: real)
    ensures FontWidth(ExampleGlyphs, Wide(n), Regular, size) == size * (0.75 * n as real)
    ensures FontWidth(ExampleGlyphs, " " + Wide(n), Regular, size) == size * (0.3 + 0.75 * n as real)
  {
    WideWidth(n, Regular);
    UnitWidthOne(ExampleGlyphs, ' ', Regular);
    UnitWidthAppend(ExampleGlyphs, " ", Wide(n), Regular);
  }

  /** At 9.2 points a bullet of the main column holds 49 wide glyphs. */
  lemma {:induction false} WideSplit(rest: nat, current: nat)
    requires current <= 49 < current + rest <= 98
    ensures SplitFrom(ExampleGlyphs, Wide(rest), Wide(current), Regular, 9.2, 344.0)
      == [Wide(49), Wide(current + rest - 49)]
    decreases rest
  {
    hide FontWidth;
    var g, more := ExampleGlyphs, Wide(rest)[1..];
    assert more == Wide(rest - 1) && Wide(current) + [Wide(rest)[0]] == Wide(current + 1);
    WideWidths(current + 1, 9.2);
    if current < 49 {
      assert SplitFrom(g, Wide(rest), Wide(current), Regular, 9.2, 344.0)
          == SplitFrom(g, Wide(rest - 1), Wide(current + 1), Regular, 9.2, 344.0);
      WideSplit(rest - 1, current + 1);
    } else {
      assert [Wide(rest)[0]] == Wide(1);
      WideRest(rest - 1, 1);
    }
  }

  lemma {:induction false} WideRest(rest: nat, current: nat)
    requires 1 <= current && current + rest <= 49
    ensures SplitFrom(ExampleGlyphs, Wide(rest), Wide(current), Regular, 9.2, 344.0) == [Wide(current + rest)]
    decreases rest
  {
    hide FontWidth;
    if rest > 0 {
      assert Wide(rest)[1..] == Wide(rest - 1) && Wide(current) + [Wide(rest)[0]] == Wide(current + 1);
      WideWidths(current + 1, 9.2);
      WideRest(rest - 1, current + 1);
    }
  }

  lemma FirstPiece(g: Glyphs, text: string, font: Font, size: real, width: real)
    requires FontWidth(g, text, font, size) <= width
    ensures PlaceWords(g, [Word(text, false)], size, width, font, font)
         == Wrapping([], [Run(text, font)], FontWidth(g, text, font, size))
  {
    hide FontWidth;
    var words := [Word(text, false)];
    assert words[..0] == [];
    OnePiece(g, Wrapping([], [], 0.0), text, font, size, width);
    assert "" + text == text && [] + [Run(text, font)] == [Run(text, font)];
  }

  lemma NextWord(g: Glyphs, words: seq<Word>, word: Word, size: real, width: real, font: Font)
    requires FontWidth(g, word.text, font, size) <= width
    ensures PlaceWords(g, words + [word], size, width, font, font)
         == PlacePiece(g, PlaceWords(g, words, size, width, font, font), word.text, font, size, width, 0, 1)
  {
    hide FontWidth, PlacePiece;
    assert (words + [word])[..|words|] == words;
    OnePiece(g, PlaceWords(g, words, size, width, font, font), word.text, font, size, width);
  }

  /** At 9.2 points the long word is cut after 49 glyphs, which join the first line. */
  lemma CutExample()
    ensures var w := PlaceWords(ExampleGlyphs, [Word("i", false), Word(Wide(52), false)], 9.2, 344.0, Regular, Regular);
      |w.lines| == 1 && w.line != [] && w.used == 20.7
  {
    hide FontWidth, SplitFrom;
    var g, pieces := ExampleGlyphs, [Wide(49), Wide(3)];
    var i, long := Word("i", false), Word(Wide(52), false);
    assert [i, long][..1] == [i];
    ExampleWidths(9.2);
    WideWidths(52, 9.2);
    WideWidths(49, 9.2);
    WideWidths(3, 9.2);
    FirstPiece(g, "i", Regular, 9.2, 344.0);
    var one := PlaceWords(g, [i], 9.2, 344.0, Regular, Regular);
    WideSplit(52, 0);
    assert Wide(0) == "";
    assert SplitPieces(g, Wide(52), Regular, 9.2, 344.0) == pieces;
    var cut := PlacePiece(g, one, Wide(49), Regular, 9.2, 344.0, 0, 2);
    assert |cut.lines| == 1 && cut.line == [] && cut.used == 0.0;
    assert "" + Wide(3) == Wide(3);
    var rest := PlacePiece(g, cut, Wide(3), Regular, 9.2, 344.0, 1, 2);
    assert PlacePieces(g, rest, pieces, Regular, 9.2, 344.0, 2) == rest;
    assert PlacePieces(g, cut, pieces, Regular, 9.2, 344.0, 1) == rest;
  }

  /** The condition on long words cannot be dropped.  In a bullet of the main column, 344
      points wide, this text takes two lines at the editorial size of 9.2 points, where its
      long word is cut, but three at the smaller, airy size of 8.8, where it is not. */
  lemma CutWordsMayGrow()
    ensures var words := [Word("i", false), Word(Wide(52), false), Word("c", false)];
      && |Wrapped(ExampleGlyphs, words, 9.2, 344.0, Regular, Bold)| == 2
      && |Wrapped(ExampleGlyphs, words, 8.8, 344.0, Regular, Bold)| == 3
  {
    hide FontWidth;
    var g := ExampleGlyphs;
    var i, long, c := Word("i", false), Word(Wide(52), false), Word("c", false);
    var words := [i, long, c];
    assert [i, long] + [c] == words && [i] + [long] == [i, long];
    assert " " + "c" == " c";
    PlainWords(g, words, 9.2, 344.0);
    PlainWords(g, words, 8.8, 344.0);
    ExampleWidths(9.2);
    CutExample();
    NextWord(g, [i, long], c, 9.2, 344.0, Regular);
    ExampleWidths(8.8);
    WideWidths(52, 8.8);
    FirstPiece(g, "i", Regular, 8.8, 344.0);
    NextWord(g, [i], long, 8.8, 344.0, Regular);
    NextWord(g, [i, long], c, 8.8, 344.0, Regular);
  }

  /** The face of emphasis does not matter to words without it. */
  lemma {:induction false} PlainWords(g: Glyphs, words: seq<Word>, size: real, width: real)
    requires forall w :: w in words ==> !w.bold
    ensures PlaceWords(g, words, size, width, Regular, Bold) == PlaceWords(g, words, size, width, Regular, Regular)
  {
    hide PlacePieces, SplitPieces;
    if words != [] {
      PlainWords(g, words[..|words| - 1], size, width);
      assert words[|words| - 1] in words;
    }
  }
}
