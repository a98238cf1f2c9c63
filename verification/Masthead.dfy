/** The name, headline and contact line at the head of page one
    (resume-renderer-v2/app.py, 667-697). */
module Masthead {
  import opened Basics
  import opened Text
  import opened Reading
  import opened Resume
  import opened Column
  import opened Geometry
  import opened Content

  const NAME_WIDTH: real := 400.0
  const LINE_WIDTH: real := 430.0

  /** rendered_text and str.upper. */
  datatype Lettering = Lettering(rendered: string -> string, upper: string -> string)

  /** sep.join(texts) */
  function Join(sep: string, texts: seq<string>): string {
    if texts == [] then "" else if |texts| == 1 then texts[0] else texts[0] + sep + Join(sep, texts[1..])
  }

  function RenderedTexts(l: Lettering, nodes: seq<Node>): (texts: seq<string>) {
    seq(|nodes|, i requires 0 <= i < |nodes| => l.rendered(nodes[i].text))
  }

  // --------------------------------------------------------------- the name

  function NameSizeAt(steps: nat): real { 29.0 - steps as real }

  function NameLines(face: Face, name: Node, steps: nat): seq<Line> {
    Wrapped(face.glyph, face.words(name), NameSizeAt(steps), NAME_WIDTH, Display, Display)
  }

  /** The size of the name: the first of 29, 28, ..., 21 points that sets it in one line, or 21. */
  function NameSteps(face: Face, name: Node, steps: nat): (n: nat)
    requires steps <= 8
    ensures steps <= n <= 8
    decreases 8 - steps
  {
    if |NameLines(face, name, steps)| > 1 && NameSizeAt(steps) > 21.0 then NameSteps(face, name, steps + 1) else steps
  }

  function NameBlock(face: Face, name: Node): Block {
    var size := NameSizeAt(NameSteps(face, name, 0));
    WrapBlock(face, name, NAME_WIDTH, size, size + 1.0, Display, Display)
  }

  lemma {:induction false} NameStepsFirst(face: Face, name: Node, steps: nat)
    requires steps <= 8
    ensures var n := NameSteps(face, name, steps);
      && (forall k :: steps <= k < n ==> |NameLines(face, name, k)| > 1)
      && (|NameLines(face, name, n)| <= 1 || n == 8)
    decreases 8 - steps
  {
    hide NameLines;
    if |NameLines(face, name, steps)| > 1 && NameSizeAt(steps) > 21.0 {
      NameStepsFirst(face, name, steps + 1);
    }
  }

  lemma NextSize(face: Face, name: Node, steps: nat)
    requires steps <= 8 && |NameLines(face, name, steps)| > 1 && NameSizeAt(steps) > 21.0
    ensures steps < 8 && NameSizeAt(steps + 1) == NameSizeAt(steps) - 1.0
    ensures NameSteps(face, name, steps) == NameSteps(face, name, steps + 1)
  {
    hide NameLines;
  }

  lemma LastSize(face: Face, name: Node, steps: nat)
    requires steps <= 8 && !(|NameLines(face, name, steps)| > 1 && NameSizeAt(steps) > 21.0)
    ensures NameSteps(face, name, steps) == steps
  {
    hide NameLines;
  }

  lemma NameBlockAt(face: Face, name: Node)
    ensures var n := NameSteps(face, name, 0);
      NameBlock(face, name) == Block(name.id, face.words(name), NameLines(face, name, n), NameSizeAt(n),
        NameSizeAt(n) + 1.0,
                                     NAME_WIDTH, Display, Display)
  {
    hide NameSteps, Wrapped;
  }

  /** The loop over the sizes: the name is set at the largest whole size from 29 down to 21
      at which it takes one line, and at 21 when it takes more at each of them. */
  method SetName(face: Face, name: Node) returns (block: Block)
    ensures block == NameBlock(face, name)
    ensures 21.0 <= block.size <= 29.0 && (|block.lines| > 1 ==> block.size == 21.0)
    ensures forall k: nat :: k <= 8 && NameSizeAt(k) > block.size ==> |NameLines(face, name, k)| > 1
  {
    hide Wrapped, NameSteps;
    var size := 29.0;
    ghost var steps := 0;
    var lines := WrapNode(face.glyph, face.words(name), size, NAME_WIDTH, Display, Display);
    while |lines| > 1 && size > 21.0
      invariant 0 <= steps <= 8 && size == NameSizeAt(steps) && lines == NameLines(face, name, steps)
      invariant NameSteps(face, name, 0) == NameSteps(face, name, steps)
      decreases 8 - steps
    {
      NextSize(face, name, steps);
      size := size - 1.0;
      steps := steps + 1;
      lines := WrapNode(face.glyph, face.words(name), size, NAME_WIDTH, Display, Display);
    }
    LastSize(face, name, steps);
    NameStepsFirst(face, name, 0);
    NameBlockAt(face, name);
    block := Block(name.id, face.words(name), lines, size, size + 1.0, NAME_WIDTH, Display, Display);
  }

  // ---------------------------------------------------- headline and contact

  function PlainLine(face: Face, id: string, text: string, size: real, leading: real, font: Font): Block {
    WrapBlock(face, Node("layout", text, ["layout"], []), LINE_WIDTH, size, leading, font, font).(id := id)
  }

  function HeadlineText(l: Lettering, c: Candidate): string { l.upper(l.rendered(c.headline.text)) }

  function ContactText(l: Lettering, c: Candidate): string { Join("  |  ", RenderedTexts(l, c.contact)) }

  function TitleBlocks(face: Face, l: Lettering, c: Candidate): seq<Block> {
    [NameBlock(face, c.name), PlainLine(face, c.headline.id, HeadlineText(l, c), 10.3, 11.3, Medium)]
  }

  /** The contact line is left out when it is empty. */
  function ContactBlocks(face: Face, l: Lettering, c: Candidate): seq<Block> {
    if ContactText(l, c) == "" then []
    else [PlainLine(face, "candidate-contact", ContactText(l, c), 7.5, 9.0, Regular)]
  }

  function HeadParts(face: Face, l: Lettering, c: Candidate): seq<Part> {
    ContentParts(TitleBlocks(face, l, c) + ContactBlocks(face, l, c))
  }

  lemma NameGlyphsFit(g: Glyphs, size: real)
    requires GlyphsOk(g) && 0.0 <= size <= 29.0
    ensures GlyphsFit(g, size, NAME_WIDTH)
  {
    forall f, c ensures 0.0 <= size * g(f, c) <= NAME_WIDTH {
      ProductNonNegative(size, g(f, c));
      ProductNonNegative(size, 4.0 - g(f, c));
      assert size * (4.0 - g(f, c)) == size * 4.0 - size * g(f, c);
    }
  }

  lemma HeadComposed(face: Face, l: Lettering, c: Candidate)
    requires FaceOk(face)
    ensures AllComposed(face.glyph, HeadParts(face, l, c))
  {
    hide Composed, Wrapped, NameSteps;
    var name := NameBlock(face, c.name);
    assert Composed(face.glyph, name) by { NameComposed(face, c.name); }
    forall text, id, size: real, leading, font | 0.0 <= size <= 14.0
      ensures Composed(face.glyph, PlainLine(face, id, text, size, leading, font))
    {
      LineComposed(face, id, text, size, leading, font);
    }
  }

  lemma NameComposed(face: Face, name: Node)
    requires FaceOk(face)
    ensures Composed(face.glyph, NameBlock(face, name))
  {
    hide Wrapped, NameSteps;
    assert Words?(face.words(name));
    NameGlyphsFit(face.glyph, NameBlock(face, name).size);
  }

  lemma LineComposed(face: Face, id: string, text: string, size: real, leading: real, font: Font)
    requires FaceOk(face) && 0.0 <= size <= 14.0
    ensures Composed(face.glyph, PlainLine(face, id, text, size, leading, font))
  {
    hide Wrapped;
    WrapBlockComposed(face, Node("layout", text, ["layout"], []), LINE_WIDTH, size, leading, font, font);
  }
}
