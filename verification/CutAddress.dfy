/** Addresses over the limit that name no conversation: the reader cuts into the search text, and
    exactly when what is left of it still reads as the whole (master-inbox-route.js, 36-68). */
module CutAddress {
  import opened Utf8
  import opened Urlencoded
  import opened InboxRoute
  import opened LongAddress

  // ----------------------------------------------------------- cutting printed bytes

  lemma {:induction false} PrintConcat(a: seq<Byte>, b: seq<Byte>)
    ensures PrintBytes(a + b) == PrintBytes(a) + PrintBytes(b)
  {
    if a == [] {
      assert a + b == b;
    } else {
      assert (a + b)[1..] == a[1..] + b;
      PrintConcat(a[1..], b);
    }
  }

  lemma TakeSecond(first: Text, rest: Text, k: nat)
    requires |first| <= k <= |first + rest|
    ensures (first + rest)[..k] == first + rest[..k - |first|]
  {}

  lemma TakeFirst(first: Text, rest: Text, k: nat)
    requires k <= |first|
    ensures (first + rest)[..k] == first[..k] && (k < |first| ==> first[..k] < first)
  {}

  /** A cut leaves whole bytes and a beginning of the next one's escape. */
  lemma {:induction false} CutPrinted(bytes: seq<Byte>, k: nat) returns (j: nat, t: Text)
    requires k < |PrintBytes(bytes)|
    ensures j < |bytes| && t < PrintByte(bytes[j]) && PrintBytes(bytes)[..k] == PrintBytes(bytes[..j]) + t
  {
    hide PrintByte;
    var first, rest := PrintByte(bytes[0]), PrintBytes(bytes[1..]);
    assert PrintBytes(bytes) == first + rest;
    if k < |first| {
      TakeFirst(first, rest, k);
      j, t := 0, first[..k];
      assert bytes[..0] == [] && PrintBytes([]) + t == t;
    } else {
      TakeSecond(first, rest, k);
      j, t := CutPrinted(bytes[1..], k - |first|);
      PrintOneMore(bytes, j);
      hide PrintBytes;
      assert first + (PrintBytes(bytes[1..][..j]) + t) == first + PrintBytes(bytes[1..][..j]) + t;
      j := j + 1;
    }
  }

  lemma PrintOneMore(bytes: seq<Byte>, j: nat)
    requires j < |bytes|
    ensures PrintBytes(bytes[..j + 1]) == PrintByte(bytes[0]) + PrintBytes(bytes[1..][..j])
  {
    assert bytes[..j + 1][1..] == bytes[1..][..j];
  }

  lemma {:induction false} EncodeConcat(a: seq<int>, b: seq<int>)
    requires (forall c :: c in a ==> Scalar(c)) && (forall c :: c in b ==> Scalar(c))
    ensures forall c :: c in a + b ==> Scalar(c)
    ensures EncodeAll(a + b) == EncodeAll(a) + EncodeAll(b)
  {
    hide EncodeScalar, Scalar;
    if a == [] {
      assert a + b == b;
    } else {
      assert (a + b)[1..] == a[1..] + b;
      EncodeConcat(a[1..], b);
    }
  }

  /** A byte of an encoded text belongs to one scalar value, behind those before it. */
  lemma {:induction false} CutScalars(cs: seq<int>, j: nat) returns (i: nat, p: seq<Byte>)
    requires (forall c :: c in cs ==> Scalar(c)) && j < |EncodeAll(cs)|
    ensures i < |cs| && p < EncodeScalar(cs[i]) && EncodeAll(cs)[..j] == EncodeAll(cs[..i]) + p
    ensures EncodeAll(cs)[j] == EncodeScalar(cs[i])[|p|]
  {
    hide EncodeScalar, Scalar;
    var first, rest := EncodeScalar(cs[0]), EncodeAll(cs[1..]);
    assert EncodeAll(cs) == first + rest;
    if j < |first| {
      i, p := 0, first[..j];
      assert cs[..0] == [];
    } else {
      i, p := CutScalars(cs[1..], j - |first|);
      assert (first + rest)[..j] == first + rest[..j - |first|];
      assert cs[..i + 1][1..] == cs[1..][..i];
      i := i + 1;
    }
  }

  // -------------------------------------------------------------- reading what is left

  lemma {:induction false} PercentOfPrinted(bytes: seq<Byte>, rest: seq<Byte>)
    ensures PercentDecode(Spaced(PrintBytes(bytes) + rest)) == bytes + PercentDecode(Spaced(rest))
  {
    hide PercentDecode, Spaced, PrintByte;
    if bytes == [] {
      assert PrintBytes(bytes) + rest == rest;
    } else {
      var more := PrintBytes(bytes[1..]) + rest;
      assert PrintBytes(bytes) + rest == PrintByte(bytes[0]) + more;
      PrintedByte(bytes[0], more);
      PercentOfPrinted(bytes[1..], rest);
      assert [bytes[0]] + (bytes[1..] + PercentDecode(Spaced(rest))) == bytes + PercentDecode(Spaced(rest));
    }
  }

  lemma {:induction false} SpacedAsIs(t: seq<Byte>)
    requires PLUS !in t
    ensures Spaced(t) == t
  {
    if t != [] {
      SpacedAsIs(t[1..]);
      assert t == [t[0]] + t[1..];
    }
  }

  lemma {:induction false} ShortAsIs(t: seq<Byte>)
    requires |t| <= 2
    ensures PercentDecode(t) == t
  {
    if t != [] {
      ShortAsIs(t[1..]);
      assert t == [t[0]] + t[1..];
    }
  }

  lemma PartOfEscape(b: Byte, t: Text)
    requires t < PrintByte(b)
    ensures Ascii(t) && |t| <= 2 && PLUS !in t && (t != [] ==> t[0] == PERCENT)
  {}

  /** A beginning of an escape is read as it stands. */
  lemma PercentOfPartial(b: Byte, t: Text)
    requires t < PrintByte(b)
    ensures Ascii(t) && |t| <= 2 && (t != [] ==> t[0] == PERCENT) && PercentDecode(Spaced(t)) == t
  {
    PartOfEscape(b, t);
    hide PrintByte;
    SpacedAsIs(t);
    ShortAsIs(t);
  }

  lemma {:induction false} DecodeAscii(t: Text)
    requires Ascii(t)
    ensures Decode(t) == t
  {
    if t != [] {
      DecodeAscii(t[1..]);
      assert t == [t[0]] + t[1..];
    }
  }

  /** A scalar value whose bytes break off is read as one replacement. */
  lemma DecodePartial(c: int, p: seq<Byte>, t: Text)
    requires Scalar(c) && p < EncodeScalar(c) && p != [] && Ascii(t)
    ensures Decode(p + t) == [REPLACEMENT] + Decode(t)
  {
    if 0x80 <= c < 0x800 {
      assert p == [EncodeScalar(c)[0]] && (p + t)[1..] == t;
    } else if c < 0x1_0000 {
      ThreeBytes(c);
      DecodeTwoOfThree(c, p, t);
    } else {
      FourBytes(c);
      DecodeThreeOfFour(c, p, t);
    }
  }

  lemma DecodeTwoOfThree(c: int, p: seq<Byte>, t: Text)
    requires Scalar(c) && 0x800 <= c < 0x1_0000 && p < EncodeScalar(c) && p != [] && Ascii(t)
    requires var lead := LeadOf(0xE0 + c / 0x1000);
      lead.needed == 2 && lead.lower <= 0x80 + c / 0x40 % 0x40 <= lead.upper
    ensures Decode(p + t) == [REPLACEMENT] + Decode(t)
  {
    var all := p + t;
    var lead := LeadOf(all[0]);
    assert Decode(all) == Continue(all[1..], 2, lead.lower, lead.upper, lead.bits);
    if |p| == 1 {
      assert all[1..] == t;
    } else {
      assert all[1..][1..] == t;
      assert Decode(all) == Continue(t, 1, 0x80, 0xBF, lead.bits * 0x40 + c / 0x40 % 0x40);
    }
  }

  lemma DecodeThreeOfFour(c: int, p: seq<Byte>, t: Text)
    requires Scalar(c) && 0x1_0000 <= c && p < EncodeScalar(c) && p != [] && Ascii(t)
    requires var lead := LeadOf(0xF0 + c / 0x4_0000);
      lead.needed == 3 && lead.lower <= 0x80 + c / 0x1000 % 0x40 <= lead.upper
    ensures Decode(p + t) == [REPLACEMENT] + Decode(t)
  {
    var all := p + t;
    var lead := LeadOf(all[0]);
    var two := lead.bits * 0x40 + c / 0x1000 % 0x40;
    assert Decode(all) == Continue(all[1..], 3, lead.lower, lead.upper, lead.bits);
    if |p| == 1 {
      assert all[1..] == t;
    } else if |p| == 2 {
      assert all[1..][1..] == t;
      assert Decode(all) == Continue(t, 2, 0x80, 0xBF, two);
    } else {
      assert all[1..][1..][1..] == t;
      assert Decode(all) == Continue(all[1..][1..], 2, 0x80, 0xBF, two);
      assert Decode(all) == Continue(t, 1, 0x80, 0xBF, two * 0x40 + c / 0x40 % 0x40);
    }
  }

  function BrokenOff(p: seq<Byte>): Text { if p == [] then [] else [REPLACEMENT] }

  /** What is left of a text's printed form is read as its whole scalar values, one replacement for
      one that breaks off, and the beginning of an escape as it stands. */
  lemma CutIsRead(text: Text, k: nat) returns (i: nat, p: seq<Byte>, t: Text)
    requires k < |PrintBytes(Encode(text))|
    ensures i < |Scalars(text)| && p < EncodeScalar(Scalars(text)[i])
      && t < PrintByte(EncodeScalar(Scalars(text)[i])[|p|])
    ensures PrintBytes(Encode(text))[..k] == PrintBytes(EncodeAll(Scalars(text)[..i])) + (PrintBytes(p) + t)
    ensures ReadPart(PrintBytes(Encode(text))[..k]) == Flatten(Scalars(text)[..i]) + (BrokenOff(p) + t)
  {
    hide EncodeScalar, Scalar, PrintByte, Scalars, Decode, PercentDecode, Spaced, PrintBytes, EncodeAll, Flatten;
    var cs := Scalars(text);
    var j;
    j, t := CutPrinted(Encode(text), k);
    i, p := CutScalars(cs, j);
    var whole := EncodeAll(cs[..i]);
    PrintConcat(whole, p);
    assert PrintBytes(whole) + PrintBytes(p) + t == PrintBytes(whole) + (PrintBytes(p) + t);
    PercentOfPrinted(whole + p, t);
    PercentOfPartial(Encode(text)[j], t);
    assert whole + p + t == whole + (p + t);
    DecodeEncoded(cs[..i], p + t);
    DecodeAscii(t);
    if p == [] {
      assert p + t == t && BrokenOff(p) + t == t;
    } else {
      DecodePartial(cs[i], p, t);
    }
  }

  // --------------------------------------------------------- when it is the whole again

  /** U+FFFD in print: %EF%BF%BD. */
  const ESCAPED: Text := [0x25, 0x45, 0x46, 0x25, 0x42, 0x46, 0x25, 0x42, 0x44]

  /** The broken ends that are read as text: U+FFFD with one or two of its escapes left, and what
      stands of the next one as it is; the percent sign, printed %25, with one or two units left. */
  function ReadsAs(left: Text): Text {
    if 3 <= |left| < 9 && left <= ESCAPED then [REPLACEMENT] + left[|left| / 3 * 3..]
    else if 0 < |left| < 3 && left <= [0x25, 0x32] then left
    else []
  }

  function Printed(text: Text): (printed: seq<Byte>) { PrintBytes(Encode(text)) }

  /** From some place on, what is left of the text's printed form reads as the rest of the text; or
      as more than the rest, where the text is as long as its limit and the surplus is cut. */
  predicate Mends(text: Text, kept: seq<Byte>) { exists m :: 0 <= m < |text| && MendsFrom(text, kept, m) }

  predicate MendsFrom(text: Text, kept: seq<Byte>, m: nat)
    requires m < |text|
  {
    && Printed(text[..m]) <= kept
    && var read := ReadsAs(kept[|Printed(text[..m])|..]);
       text[m..] <= read && (text[m..] == read || |text| == QUERY_LIMIT)
  }

  lemma ReplacementPrinted()
    ensures EncodeScalar(REPLACEMENT) == [0xEF, 0xBF, 0xBD] && PrintByte(0xEF) == ESCAPED[..3]
    ensures PrintByte(0xBF) == ESCAPED[3..6] && PrintByte(0xBD) == ESCAPED[6..]
  {}

  lemma PrintOneOrTwo(a: Byte, b: Byte)
    ensures PrintBytes([a]) == PrintByte(a) && PrintBytes([a, b]) == PrintByte(a) + PrintByte(b)
  {
    hide PrintByte;
    assert [a][1..] == [] && [a, b][1..] == [b];
    assert PrintBytes([b]) == PrintByte(b) + PrintBytes([b][1..]);
  }

  lemma ReadsReplacement(left: Text, k: nat, t: Text)
    requires |t| < 3 && 1 <= k <= 2 && left == ESCAPED[..3 * k] + t && t <= ESCAPED[3 * k..]
    ensures ReadsAs(left) == [REPLACEMENT] + t
  {
    assert |left| / 3 == k && left[3 * k..] == t;
    assert left <= ESCAPED;
  }

  lemma EscapeBreaks(text: Text, t: Text, i: nat, j: nat)
    requires i <= j <= |text| && t < text[i..j]
    ensures |t| < j - i && t <= text[i..]
  {}

  lemma EscapeJoins(text: Text)
    requires |text| >= 6
    ensures text[..3] + text[3..6] == text[..6]
  {}

  lemma ReplacementOnce(t: Text)
    requires t < PrintByte(0xBF)
    ensures PrintBytes([0xEF]) == ESCAPED[..3] && |t| < 3 && t <= ESCAPED[3..]
    ensures ReadsAs(PrintBytes([0xEF]) + t) == [REPLACEMENT] + t
  {
    hide ReadsAs;
    ReplacementPrinted();
    PrintOneOrTwo(0xEF, 0xBF);
    hide PrintByte, PrintBytes, EncodeScalar;
    EscapeBreaks(ESCAPED, t, 3, 6);
    ReadsReplacement(PrintBytes([0xEF]) + t, 1, t);
  }

  lemma ReplacementTwice(t: Text)
    requires t < PrintByte(0xBD)
    ensures PrintBytes([0xEF, 0xBF]) == ESCAPED[..6] && |t| < 3 && t <= ESCAPED[6..]
    ensures ReadsAs(PrintBytes([0xEF, 0xBF]) + t) == [REPLACEMENT] + t
  {
    hide ReadsAs;
    ReplacementPrinted();
    PrintOneOrTwo(0xEF, 0xBF);
    hide PrintByte, PrintBytes, EncodeScalar;
    EscapeJoins(ESCAPED);
    EscapeBreaks(ESCAPED, t, 6, 9);
    ReadsReplacement(PrintBytes([0xEF, 0xBF]) + t, 2, t);
  }

  lemma PercentEnd(t: Text)
    requires t < PrintByte(PERCENT) && t != []
    ensures ReadsAs(t) == t
  {}

  /** Only the replacement and the percent sign can be read from a broken end. */
  lemma BrokenEnd(c: int, p: seq<Byte>, t: Text)
    requires Scalar(c) && p < EncodeScalar(c) && t < PrintByte(EncodeScalar(c)[|p|])
    requires BrokenOff(p) + t != [] && UnitsOf(c)[0] == (BrokenOff(p) + t)[0]
    ensures ReadsAs(PrintBytes(p) + t) == BrokenOff(p) + t
  {
    hide ReadsAs, PrintBytes;
    if p == [] {
      PercentOfPartial(EncodeScalar(c)[0], t);
      hide PrintByte;
      assert c == PERCENT && EncodeScalar(c)[0] == PERCENT;
      PercentEnd(t);
      assert PrintBytes(p) + t == t by { NothingPrinted(); }
    } else {
      hide PrintByte;
      assert c == REPLACEMENT;
      ReplacementPrinted();
      if |p| == 1 {
        assert p == [0xEF];
        ReplacementOnce(t);
      } else {
        assert p == [0xEF, 0xBF];
        ReplacementTwice(t);
      }
    }
  }

  lemma NothingPrinted()
    ensures PrintBytes([]) == []
  {}

  // ----------------------------------------------------- what mends is read as the whole

  /** A beginning of the replacement's printed form, taken apart. */
  lemma SplitBroken(left: seq<Byte>) returns (p: seq<Byte>, t: Text)
    requires 3 <= |left| < 9 && left <= ESCAPED
    ensures p != [] && p < EncodeScalar(REPLACEMENT) && Ascii(t)
    ensures t < PrintByte(EncodeScalar(REPLACEMENT)[|p|])
    ensures left == PrintBytes(p) + t && ReadsAs(left) == [REPLACEMENT] + t
  {
    ReplacementPrinted();
    PrintOneOrTwo(0xEF, 0xBF);
    hide PrintByte, PrintBytes, EncodeScalar;
    EscapeJoins(ESCAPED);
    var k := |left| / 3;
    p, t := if k == 1 then [0xEF] else [0xEF, 0xBF], left[3 * k..];
    assert left == ESCAPED[..3 * k] + t;
  }

  /** A printed text, bytes behind it and an end that is read as it stands. */
  lemma ReadsFront(text: Text, p: seq<Byte>, t: seq<Byte>)
    requires PercentDecode(Spaced(t)) == t
    ensures ReadPart(Printed(text) + (PrintBytes(p) + t)) == Repaired(text) + Decode(p + t)
  {
    hide Scalars, Decode, PercentDecode, Spaced, PrintBytes, EncodeAll, Flatten;
    var whole := EncodeAll(Scalars(text));
    PrintConcat(whole, p);
    assert PrintBytes(whole) + PrintBytes(p) + t == PrintBytes(whole) + (PrintBytes(p) + t);
    PercentOfPrinted(whole + p, t);
    assert whole + p + t == whole + (p + t);
    DecodeEncoded(Scalars(text), p + t);
  }

  lemma ReadPercentEnd(text: Text, left: seq<Byte>)
    requires 0 < |left| < 3 && left <= [0x25, 0x32]
    ensures ReadPart(Printed(text) + left) == Repaired(text) + left
  {
    PercentBegins(left);
    NothingPrinted();
    hide PrintByte, Decode, PercentDecode, Spaced, Printed, Repaired, ReadPart;
    PercentOfPartial(PERCENT, left);
    ReadsFront(text, [], left);
    assert PrintBytes([]) + left == left && [] + left == left;
    DecodeAscii(left);
  }

  lemma ReadReplacementEnd(text: Text, p: seq<Byte>, t: Text)
    requires p != [] && p < EncodeScalar(REPLACEMENT) && t < PrintByte(EncodeScalar(REPLACEMENT)[|p|])
    ensures ReadPart(Printed(text) + (PrintBytes(p) + t)) == Repaired(text) + ([REPLACEMENT] + t)
  {
    hide EncodeScalar, PrintByte, Decode, PercentDecode, Spaced, Printed, Repaired, ReadPart;
    PercentOfPartial(EncodeScalar(REPLACEMENT)[|p|], t);
    ReadsFront(text, p, t);
    DecodePartial(REPLACEMENT, p, t);
    DecodeAscii(t);
  }

  lemma ReadBroken(text: Text, left: seq<Byte>)
    requires ReadsAs(left) != []
    ensures ReadPart(Printed(text) + left) == Repaired(text) + ReadsAs(left)
    ensures ReadsAs(left)[0] == REPLACEMENT || ReadsAs(left)[0] == PERCENT
  {
    hide EncodeScalar, PrintByte, PrintBytes, Printed, ReadPart, Repaired;
    if |left| < 3 {
      ReadPercentEnd(text, left);
    } else {
      var p, t := SplitBroken(left);
      ReadReplacementEnd(text, p, t);
    }
  }

  lemma PercentBegins(left: Text)
    requires 0 < |left| < 3 && left <= [0x25, 0x32]
    ensures left < PrintByte(PERCENT) && left[0] == PERCENT
  {
    assert PrintByte(PERCENT) == [0x25, 0x32, 0x35];
  }

  lemma {:induction false} WellFormedFront(text: Text, m: nat)
    requires WellFormed(text) && m < |text| && !Low(text[m])
    ensures WellFormed(text[..m])
  {
    if m > 0 {
      if High(text[0]) {
        assert text[2..][m - 2] == text[m];
        WellFormedFront(text[2..], m - 2);
        assert text[..m][2..] == text[2..][..m - 2];
      } else {
        WellFormedFront(text[1..], m - 1);
        assert text[..m][1..] == text[1..][..m - 1];
      }
    }
  }

  lemma MendedIsRead(q: Text, kept: seq<Byte>, m: nat)
    requires Trimmed(q) && |q| <= QUERY_LIMIT && WellFormed(q) && m < |q| && MendsFrom(q, kept, m)
    ensures Trim(Cut(ReadPart(kept), QUERY_LIMIT)) == q
  {
    hide ReadsAs, Printed, ReadPart, WellFormed, Trim, Trimmed, Repaired;
    var left := kept[|Printed(q[..m])|..];
    var read := ReadsAs(left);
    ReadBroken(q[..m], left);
    assert kept == Printed(q[..m]) + left;
    assert q[m] == read[0];
    WellFormedFront(q, m);
    RepairedText(q[..m]);
    assert q == q[..m] + q[m..];
    var all := q[..m] + read;
    assert ReadPart(kept) == all && q <= all;
    assert Cut(all, QUERY_LIMIT) == q by {
      assert all[..|q|] == q;
      assert q[m..] == read ==> all == q;
    }
    TrimmedIsTrim(q);
  }

  // ------------------------------------------------------ only what mends is read as the whole

  lemma {:induction false} FlattenConcat(a: seq<int>, b: seq<int>)
    requires (forall c :: c in a ==> Scalar(c)) && (forall c :: c in b ==> Scalar(c))
    ensures forall c :: c in a + b ==> Scalar(c)
    ensures Flatten(a + b) == Flatten(a) + Flatten(b)
  {
    hide UnitsOf, Scalar;
    if a == [] {
      assert a + b == b;
    } else {
      assert (a + b)[1..] == a[1..] + b;
      FlattenConcat(a[1..], b);
    }
  }

  lemma {:induction false} WellFormedFlat(cs: seq<int>, rest: Text)
    requires (forall c :: c in cs ==> Scalar(c)) && WellFormed(rest)
    ensures WellFormed(Flatten(cs) + rest)
  {
    if cs == [] {
      assert Flatten(cs) + rest == rest;
    } else {
      WellFormedFlat(cs[1..], rest);
      var units, more := UnitsOf(cs[0]), Flatten(cs[1..]) + rest;
      assert Flatten(cs) + rest == units + more;
      assert (units + more)[|units|..] == more;
    }
  }

  /** Where the first i scalar values of a text end, and the unit there. */
  lemma FlatFront(text: Text, i: nat)
    requires i < |Scalars(text)|
    ensures var m := |Flatten(Scalars(text)[..i])|;
      m < |text| == |Repaired(text)| && Repaired(text)[..m] == Flatten(Scalars(text)[..i])
        && Repaired(text)[m] == UnitsOf(Scalars(text)[i])[0]
  {
    RepairedText(text);
    var cs := Scalars(text);
    hide Scalar, UnitsOf, Scalars;
    assert cs == cs[..i] + cs[i..];
    FlattenConcat(cs[..i], cs[i..]);
  }

  predicate Solid(text: Text) { forall i :: 0 <= i < |text| ==> !Space(text[i]) && !High(text[i]) && !Low(text[i]) }

  lemma BrokenIsSolid(b: Byte, p: seq<Byte>, t: Text)
    requires t < PrintByte(b)
    ensures Solid(BrokenOff(p) + t)
  {}

  lemma SolidIsWellFormed(text: Text)
    requires Solid(text)
    ensures WellFormed(text)
  {
    PlainThen(text, []);
    assert text + [] == text;
  }

  /** A solid end keeps its place under the limit and the trimming. */
  lemma SolidEnd(front: Text, junk: Text)
    requires |front| < QUERY_LIMIT && junk != [] && Solid(junk) && (front == [] || !Space(front[0]))
    ensures exists e :: (0 < e <= |junk| && Trim(Cut(front + junk, QUERY_LIMIT)) == front + junk[..e]
      && (e == |junk| || |front| + e == QUERY_LIMIT))
  {
    var e := if |front + junk| <= QUERY_LIMIT then |junk| else QUERY_LIMIT - |front|;
    var cut := front + junk[..e];
    assert Cut(front + junk, QUERY_LIMIT) == cut;
    assert cut[0] == if front == [] then junk[0] else front[0];
    assert cut[|cut| - 1] == junk[e - 1];
    TrimmedIsTrim(cut);
    hide Trim, Space;
  }

  lemma MendsAt(q: Text, kept: seq<Byte>, front: Text, left: seq<Byte>, e: nat)
    requires kept == Printed(front) + left && 0 < e <= |ReadsAs(left)| && q == front + ReadsAs(left)[..e]
    requires e == |ReadsAs(left)| || |q| == QUERY_LIMIT
    ensures Mends(q, kept)
  {
    hide ReadsAs, Printed;
    var m := |front|;
    assert q[..m] == front && q[m..] == ReadsAs(left)[..e] && kept[|Printed(front)|..] == left;
    assert MendsFrom(q, kept, m);
  }

  lemma ReadIsMended(q: Text, k: nat)
    requires Trimmed(q) && |q| <= QUERY_LIMIT && k < |Printed(q)|
    requires Trim(Cut(ReadPart(Printed(q)[..k]), QUERY_LIMIT)) == q
    ensures WellFormed(q) && Mends(q, Printed(q)[..k])
  {
    hide EncodeScalar, Scalar, PrintByte, Scalars, PrintBytes, EncodeAll, Flatten, ReadPart, UnitsOf, ReadsAs, Trim,
      WellFormed;
    var i, p, t := CutIsRead(q, k);
    var cs := Scalars(q);
    var front, junk := Flatten(cs[..i]), BrokenOff(p) + t;
    FlatFront(q, i);
    RepairedText(q);
    if junk == [] {
      assert front + junk == front;
      TrimTrims(Cut(front, QUERY_LIMIT));
      assert false;
    }
    BrokenIsSolid(EncodeScalar(cs[i])[|p|], p, t);
    assert front == [] || front[0] == Repaired(q)[0];
    SolidEnd(front, junk);
    var e :| 0 < e <= |junk| && q == front + junk[..e] && (e == |junk| || |front| + e == QUERY_LIMIT);
    SolidIsWellFormed(junk[..e]);
    WellFormedFlat(cs[..i], junk[..e]);
    assert q[|front|] == junk[0];
    BrokenEnd(cs[i], p, t);
    FlattenScalars(cs[..i]);
    MendsAt(q, Printed(q)[..k], front, PrintBytes(p) + t, e);
  }

  /** What is left of the printed search text reads, under the limit and trimmed, as the whole of it
      exactly when the text is well-formed and mends. */
  lemma ReadsExactly(q: Text, k: nat)
    requires Trimmed(q) && |q| <= QUERY_LIMIT && k < |Printed(q)|
    ensures Trim(Cut(ReadPart(Printed(q)[..k]), QUERY_LIMIT)) == q <==> WellFormed(q) && Mends(q, Printed(q)[..k])
  {
    hide Trimmed, Printed, ReadPart, Trim, WellFormed, MendsFrom;
    if Trim(Cut(ReadPart(Printed(q)[..k]), QUERY_LIMIT)) == q {
      ReadIsMended(q, k);
    }
    if WellFormed(q) && Mends(q, Printed(q)[..k]) {
      var m :| 0 <= m < |q| && MendsFrom(q, Printed(q)[..k], m);
      MendedIsRead(q, Printed(q)[..k], m);
    }
  }

  // ------------------------------------------------------------------ the cut query

  /** Printed pairs with an ampersand behind each. */
  function Joint(pairs: seq<Pair>): Text {
    if pairs == [] then [] else PrintPair(pairs[0]) + [AMPERSAND] + Joint(pairs[1..])
  }

  lemma {:induction false} PrintBehind(front: seq<Pair>, last: Pair)
    ensures Print(front + [last]) == Joint(front) + PrintPair(last)
  {
    hide PrintPair;
    if front == [] {
      assert front + [last] == [last];
    } else {
      PrintBehind(front[1..], last);
      assert (front + [last])[1..] == front[1..] + [last];
    }
  }

  lemma ReadFirst(part: seq<Byte>, parts: seq<seq<Byte>>)
    requires part != []
    ensures ReadParts([part] + parts) == [ReadPair(part)] + ReadParts(parts)
  {
    hide ReadPair;
    assert ([part] + parts)[1..] == parts;
  }

  lemma {:induction false} ReadBehind(front: seq<Pair>, rest: seq<Byte>)
    ensures Ascii(Joint(front)) && ReadParts(Split(Joint(front) + rest))
      == RepairedPairs(front) + ReadParts(Split(rest))
  {
    hide PrintPair, ReadPair, RepairedPair, Split, ReadParts, PrintBytes, Encode;
    if front == [] {
      assert Joint(front) + rest == rest;
      assert RepairedPairs(front) + ReadParts(Split(rest)) == ReadParts(Split(rest));
    } else {
      ReadBehind(front[1..], rest);
      PrintedPair(front[0]);
      ReadOneBehind(PrintPair(front[0]), Joint(front[1..]), rest);
    }
  }

  lemma ReadOneBehind(part: seq<Byte>, joint: seq<Byte>, rest: seq<Byte>)
    requires part != [] && forall i :: 0 <= i < |part| ==> part[i] != AMPERSAND
    ensures ReadParts(Split(part + [AMPERSAND] + joint + rest)) == [ReadPair(part)] + ReadParts(Split(joint + rest))
  {
    hide ReadPair, ReadParts, Split;
    assert part + [AMPERSAND] + joint + rest == part + [AMPERSAND] + (joint + rest);
    SplitAfter(part, joint + rest);
    ReadFirst(part, Split(joint + rest));
  }

  /** The folder and the mailbox, which are printed before the search text. */
  function Front(route: Route): seq<Pair> {
    Param("folder", if route.folder == Default() then [] else route.folder) + Param("mailbox", route.mailbox)
  }

  lemma FrontThenSearch(route: Route)
    requires route.id == [] && route.q != []
    ensures Params(route) == Front(route) + [Pair(Lit("q"), route.q)]
  {
    hide Lit, Default;
  }

  lemma {:induction false} PrintedLength(bytes: seq<Byte>)
    ensures |PrintBytes(bytes)| <= 3 * |bytes|
  {
    if bytes != [] {
      PrintedLength(bytes[1..]);
    }
  }

  lemma {:induction false} EncodedLength(text: Text)
    ensures |Encode(text)| <= 3 * |text|
  {
    if text != [] {
      EncodedLength(text[1..]);
      if |text| > 1 {
        EncodedLength(text[2..]);
      }
    }
  }

  lemma PairLength(name: Text, value: Text)
    requires AllPlain(name)
    ensures PrintPair(Pair(name, value)) == name + [EQUALS] + Printed(value)
    ensures |Printed(value)| <= 9 * |value| && (Ascii(value) ==> |Printed(value)| <= 3 * |value|)
  {
    PlainIsPrinted(name);
    EncodedLength(value);
    PrintedLength(Encode(value));
    if Ascii(value) {
      EncodeAscii(value);
    }
    hide Encode, PrintBytes;
  }

  lemma JointOfParam(name: string, value: Text, more: seq<Pair>)
    requires forall i :: 0 <= i < |name| ==> name[i] as int < 0x80
    ensures |Joint(Param(name, value) + more)|
      == (if value == [] then 0 else |PrintPair(Pair(Lit(name), value))| + 1) + |Joint(more)|
  {
    hide PrintPair, Lit;
    if value == [] {
      assert Param(name, value) + more == more;
    } else {
      assert (Param(name, value) + more)[1..] == more;
    }
  }

  /** The limit falls into the search text: what is printed before it is shorter. */
  lemma FrontIsShort(route: Route)
    requires Normal(route)
    ensures |Joint(Front(route))| < 1950
  {
    FoldersAreLower(route.folder);
    NamesArePlain();
    hide PrintPair, Lit, Joint, Printed, AllPlain, Default;
    assert |Lit("folder")| == 6 && |Lit("mailbox")| == 7;
    var folder := if route.folder == Default() then [] else route.folder;
    PairLength(Lit("folder"), folder);
    PairLength(Lit("mailbox"), route.mailbox);
    JointOfParam("folder", folder, Param("mailbox", route.mailbox));
    JointOfParam("mailbox", route.mailbox, []);
    assert Param("mailbox", route.mailbox) + [] == Param("mailbox", route.mailbox);
    assert |Joint([])| == 0 by { NoJoint(); }
  }

  lemma NoJoint()
    ensures Joint([]) == []
  {}

  /** The printed search text without the units of the query that are over the limit. */
  function Kept(route: Route): seq<Byte> {
    var over := |Print(Params(route))| + 7 - ADDRESS_LIMIT;
    var printed := Printed(route.q);
    if 0 <= over <= |printed| then printed[..|printed| - over] else printed
  }

  lemma CutBehind(front: Text, name: Text, printed: seq<Byte>, n: nat)
    requires |front| + |name| + 1 <= n < |front| + |name| + 1 + |printed|
    ensures n - |front| - |name| - 1 < |printed|
    ensures (front + (name + [EQUALS] + printed))[..n]
      == front + (name + [EQUALS] + printed[..n - |front| - |name| - 1])
  {}

  lemma SearchPrinted(route: Route)
    requires route.id == [] && route.q != []
    ensures Print(Params(route)) == Joint(Front(route)) + (Lit("q") + [EQUALS] + Printed(route.q))
  {
    NamesArePlain();
    hide PrintPair, Lit, Joint, Printed, AllPlain, Front, Print, Params;
    FrontThenSearch(route);
    PrintBehind(Front(route), Pair(Lit("q"), route.q));
    PairLength(Lit("q"), route.q);
  }

  lemma CutSearch(route: Route)
    requires Normal(route) && route.id == [] && |Print(Params(route))| > ADDRESS_LIMIT - 7
    ensures route.q != [] && |Kept(route)| < |Printed(route.q)| && Kept(route) == Printed(route.q)[..|Kept(route)|]
    ensures Print(Params(route))[..ADDRESS_LIMIT - 7] == Joint(Front(route)) + (Lit("q") + [EQUALS] + Kept(route))
  {
    FrontIsShort(route);
    assert |Lit("q")| == 1;
    hide Lit, Joint, Printed, Normal, Front, Print, Params;
    if route.q == [] {
      NoSearch(route);
      assert false;
    }
    SearchPrinted(route);
    CutBehind(Joint(Front(route)), Lit("q"), Printed(route.q), ADDRESS_LIMIT - 7);
  }

  lemma NoSearch(route: Route)
    requires Normal(route) && route.id == [] && route.q == []
    ensures |Print(Params(route))| <= |Joint(Front(route))|
  {
    hide Lit, Default, Normal, PrintPair;
    assert Params(route) == Front(route);
    var front := Front(route);
    if front != [] {
      PrintBehind(front[..|front| - 1], front[|front| - 1]);
      JointBehind(front[..|front| - 1], front[|front| - 1]);
      assert front[..|front| - 1] + [front[|front| - 1]] == front;
    }
  }

  lemma {:induction false} JointBehind(front: seq<Pair>, last: Pair)
    ensures |Joint(front + [last])| == |Joint(front)| + |PrintPair(last)| + 1
  {
    hide PrintPair;
    if front == [] {
      assert front + [last] == [last] && [last][1..] == [];
    } else {
      JointBehind(front[1..], last);
      assert (front + [last])[1..] == front[1..] + [last];
    }
  }

  lemma SearchPart(kept: seq<Byte>, q: Text)
    requires kept <= Printed(q)
    ensures Ascii(kept) && Ascii(Lit("q") + [EQUALS] + kept)
    ensures var part := Lit("q") + [EQUALS] + kept; forall i :: 0 <= i < |part| ==> part[i] != AMPERSAND
  {
    PrintedBytes(Encode(q));
    var printed := PrintBytes(Encode(q));
    hide PrintBytes, Encode;
    assert forall i :: 0 <= i < |kept| ==> kept[i] == printed[i];
  }

  lemma ReadSearch(kept: seq<Byte>, q: Text)
    requires kept <= Printed(q)
    ensures Ascii(Lit("q") + [EQUALS] + kept)
    ensures ReadParts(Split(Lit("q") + [EQUALS] + kept)) == [Pair(Lit("q"), ReadPart(kept))]
  {
    SearchPart(kept, q);
    NamesArePlain();
    hide Printed, ReadPart, ReadPair, Lit, AllPlain, ReadParts, Split;
    CutInValue(Lit("q"), kept);
    var part := Lit("q") + [EQUALS] + kept;
    SplitOne(part);
    ReadFirst(part, []);
    assert [part] + [] == [part] && ReadParts([]) == [] by { NothingRead(); }
  }

  lemma NothingRead()
    ensures ReadParts([]) == []
  {}

  /** The cut query is read as its folder and mailbox, repaired, and what is left of the search. */
  lemma CutIsParsed(route: Route)
    requires Normal(route) && route.id == [] && |Print(Params(route))| > ADDRESS_LIMIT - 7
    ensures FromPairs(Parse(Print(Params(route))[..ADDRESS_LIMIT - 7]))
      == Route(if route.folder == Default() then [] else route.folder,
        Repaired(route.mailbox), ReadPart(Kept(route)), [])
  {
    hide Print, Params, Printed, Normal, Joint, Kept, Lit, Split, ReadPart, ReadParts, RepairedPairs, Front, Encode,
      FromPairs, Repaired, Default;
    CutSearch(route);
    var rest := Lit("q") + [EQUALS] + Kept(route);
    ReadSearch(Kept(route), route.q);
    ReadBehind(Front(route), rest);
    EncodeAscii(Joint(Front(route)) + rest);
    FrontRepaired(route);
    SearchLookUp(if route.folder == Default() then [] else route.folder,
      Repaired(route.mailbox), ReadPart(Kept(route)));
  }

  lemma FrontRepaired(route: Route)
    requires Normal(route)
    ensures RepairedPairs(Front(route))
      == Param("folder", if route.folder == Default() then [] else route.folder)
        + Param("mailbox", Repaired(route.mailbox))
  {
    AsciiParts(route);
    hide Repaired, Param, RepairedPairs, Lit, Default, Normal;
    var folder := if route.folder == Default() then [] else route.folder;
    ParamRepaired("folder", folder);
    ParamRepaired("mailbox", route.mailbox);
    RepairedPairsConcat(Param("folder", folder), Param("mailbox", route.mailbox));
  }

  lemma LookupLast(front: seq<Pair>, last: Pair, wanted: Text)
    ensures Lookup(front + [last], wanted) == if last.name == wanted then last.value else Lookup(front, wanted)
  {
    assert (front + [last])[..|front|] == front;
  }

  lemma SearchLookUp(folder: Text, mailbox: Text, q: Text)
    ensures FromPairs(Param("folder", folder) + Param("mailbox", mailbox) + [Pair(Lit("q"), q)])
      == Route(folder, mailbox, q, [])
  {
    assert |Lit("folder")| == 6 && |Lit("mailbox")| == 7 && |Lit("q")| == 1 && |Lit("id")| == 2;
    hide Lookup, Param, Lit;
    var last := Pair(Lit("q"), q);
    assert [] + Param("folder", folder) == Param("folder", folder);
    forall wanted | wanted in {"folder", "mailbox", "q", "id"}
      ensures Lookup(Param("folder", folder) + Param("mailbox", mailbox) + [last], Lit(wanted))
        == if wanted == "folder" then folder else if wanted == "mailbox" then mailbox else if wanted == "q" then q
          else []
    {
      LookupLast(Param("folder", folder) + Param("mailbox", mailbox), last, Lit(wanted));
      NothingToFind(wanted);
      LookupParam([], "folder", folder, wanted);
      LookupParam(Param("folder", folder), "mailbox", mailbox, wanted);
    }
  }

  lemma FrontNormalizes(route: Route, mailbox: Text, q: Text)
    requires Normal(route) && |mailbox| <= MAILBOX_LIMIT && Trimmed(mailbox)
    ensures Normalize(Route(if route.folder == Default() then [] else route.folder, mailbox, q, []))
      == Route(route.folder, mailbox, Trim(Cut(q, QUERY_LIMIT)), [])
  {
    NoFolder();
    NormalIsKept(route);
    TrimmedIsTrim(mailbox);
    TrimmedIsTrim([]);
    hide Trim, Trimmed, IsFolder, Default;
  }

  /** An address over the limit that names no conversation reads back to its normal route exactly
      when that route holds no lone surrogate and what the cut leaves of the search text mends. */
  lemma SearchRoundTripExactly(input: Route)
    requires |Serialize(input)| > ADDRESS_LIMIT && Normalize(input).id == []
    ensures ParseRoute(Serialize(input)) == Normalize(input)
      <==> WellFormedRoute(Normalize(input)) && Mends(Normalize(input).q, Kept(Normalize(input)))
  {
    var route := Normalize(input);
    NormalizeIsNormal(input);
    var query := Print(Params(route));
    PrintIsVisible(Params(route));
    assert |query| > ADDRESS_LIMIT - 7;
    hide Normalize, Params, Print, Kept, Printed, Mends, ReadPart, WellFormed, ParseRoute, Parse, FromPairs, Trim,
      Visible, Cut;
    CutAddress(query, ADDRESS_LIMIT - 7);
    CutIsParsed(route);
    CutSearch(route);
    RepairedTrimmed(route.mailbox);
    RepairedText(route.mailbox);
    FrontNormalizes(route, Repaired(route.mailbox), ReadPart(Kept(route)));
    ReadsExactly(route.q, |Kept(route)|);
  }

  /** So a search text without U+FFFD and without a percent sign is never read back. */
  lemma SearchIsLost(input: Route)
    requires |Serialize(input)| > ADDRESS_LIMIT && Normalize(input).id == []
    requires REPLACEMENT !in Normalize(input).q && PERCENT !in Normalize(input).q
    ensures ParseRoute(Serialize(input)) != Normalize(input)
  {
    SearchRoundTripExactly(input);
    var route := Normalize(input);
    hide Normalize, ParseRoute, Serialize, Kept, Printed, ReadsAs;
    forall m | 0 <= m < |route.q| && MendsFrom(route.q, Kept(route), m) ensures false {
      var left := Kept(route)[|Printed(route.q[..m])|..];
      assert route.q[m..][0] == route.q[m];
      ReadBroken([], left);
      assert false;
    }
  }

  lemma {:induction false} EncodeAfterAscii(a: Text, b: Text)
    requires Ascii(a)
    ensures Encode(a + b) == a + Encode(b)
  {
    if a == [] {
      assert a + b == b && a + Encode(b) == Encode(b);
    } else {
      EncodeAfterAscii(a[1..], b);
      assert (a + b)[1..] == a[1..] + b;
      assert Scalars(a + b) == [a[0]] + Scalars(a[1..] + b);
      assert Encode(a + b) == [a[0]] + (a[1..] + Encode(b));
    }
  }

  lemma PrintedBehindAscii(a: Text)
    requires Ascii(a)
    ensures Printed(a) == PrintBytes(a) && Printed(a + [REPLACEMENT]) == PrintBytes(a) + ESCAPED
  {
    EncodeAscii(a);
    EncodeAfterAscii(a, [REPLACEMENT]);
    hide PrintBytes, Encode;
    ReplacementEncoded();
    PrintConcat(a, Encode([REPLACEMENT]));
  }

  lemma ReplacementEncoded()
    ensures PrintBytes(Encode([REPLACEMENT])) == ESCAPED
  {
    hide PrintByte, EncodeScalar, PrintBytes;
    assert [REPLACEMENT][1..] == [] && Scalars([]) == [];
    assert Scalars([REPLACEMENT]) == [REPLACEMENT];
    assert EncodeAll([REPLACEMENT]) == EncodeScalar(REPLACEMENT) + [];
    assert Encode([REPLACEMENT]) == EncodeScalar(REPLACEMENT);
    ReplacementPrinted();
    PrintOneOrTwo(0xEF, 0xBF);
    PrintOneOrTwo(0xBD, 0xBD);
    PrintConcat([0xEF, 0xBF], [0xBD]);
    assert [0xEF, 0xBF] + [0xBD] == [0xEF, 0xBF, 0xBD];
    EscapeJoins(ESCAPED);
    assert ESCAPED[..6] + ESCAPED[6..] == ESCAPED;
  }

  /** And some search texts mend: where a U+FFFD stands behind ASCII that is printed in 1985 units,
      the cut leaves two of its three escapes, and the address reads back to its route. */
  lemma ReplacementMends(front: Text)
    requires Ascii(front) && Trimmed(front) && front != [] && |front| < QUERY_LIMIT && |PrintBytes(front)| == 1985
    ensures var input := Route([], [], front + [REPLACEMENT], []);
      |Serialize(input)| > ADDRESS_LIMIT && ParseRoute(Serialize(input)) == Normalize(input)
  {
    var q := front + [REPLACEMENT];
    var input, route := Route([], [], q, []), Route(Default(), [], q, []);
    MendingRoute(front);
    hide Normalize, ParseRoute, Printed, Print, Params, Kept, Mends, WellFormedRoute, Lit, PrintBytes, Default, Front,
      Joint;
    MendingKept(route, front);
    MendingMends(front, Kept(route));
    SearchRoundTripExactly(input);
  }

  lemma MendingKept(route: Route, front: Text)
    requires route == Route(Default(), [], front + [REPLACEMENT], []) && Ascii(front) && |PrintBytes(front)| == 1985
    ensures |Print(Params(route))| == 1996 && Kept(route) == PrintBytes(front) + ESCAPED[..6]
  {
    hide Printed, Print, Params, Lit, PrintBytes, Default, Front, Joint;
    PrintedBehindAscii(front);
    SearchPrinted(route);
    NothingInFront(route);
    TakeSecond(PrintBytes(front), ESCAPED, 1991);
  }

  lemma NothingInFront(route: Route)
    requires route.folder == Default() && route.mailbox == []
    ensures Joint(Front(route)) == []
  {}

  lemma MendingRoute(front: Text)
    requires Ascii(front) && Trimmed(front) && front != [] && |front| < QUERY_LIMIT
    ensures var q := front + [REPLACEMENT];
      Normalize(Route([], [], q, [])) == Route(Default(), [], q, []) && WellFormedRoute(Route(Default(), [], q, []))
  {
    var q := front + [REPLACEMENT];
    PlainThen(q, []);
    assert q + [] == q;
    TrimmedIsTrim(q);
    TrimmedIsTrim([]);
    NoFolder();
    hide Trim, IsFolder, Default, Lit;
  }

  lemma MendingMends(front: Text, kept: seq<Byte>)
    requires Ascii(front) && kept == PrintBytes(front) + ESCAPED[..6]
    ensures Mends(front + [REPLACEMENT], kept)
  {
    PrintedBehindAscii(front);
    hide PrintBytes, Printed;
    var q, m := front + [REPLACEMENT], |front|;
    assert q[..m] == front && q[m..] == [REPLACEMENT];
    assert kept[|Printed(front)|..] == ESCAPED[..6];
    ReadsReplacement(ESCAPED[..6], 2, []);
    assert MendsFrom(q, kept, m);
  }

  /** For instance behind two letters and 661 slashes. */
  lemma SlashesMend()
    ensures var front := Lit("aa") + Slashes(661);
      Ascii(front) && Trimmed(front) && front != [] && |front| < QUERY_LIMIT && |PrintBytes(front)| == 1985
  {
    hide PrintBytes, Slashes, Lit;
    PrintConcat(Lit("aa"), Slashes(661));
    PlainBytes(Lit("aa"));
    SlashesPrinted(661);
  }
}
