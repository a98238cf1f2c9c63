/** JavaScript strings as UTF-16 code units, and their UTF-8 bytes (Encoding Standard, section 8.1.1
    for decoding); a surrogate without its partner is encoded as U+FFFD. */
module Utf8 {
  type Unit = u: int | 0 <= u < 0x1_0000

  type Byte = b: int | 0 <= b < 0x100

  type Text = seq<Unit>

  const REPLACEMENT: Unit := 0xFFFD

  predicate High(u: int) { 0xD800 <= u <= 0xDBFF }

  predicate Low(u: int) { 0xDC00 <= u <= 0xDFFF }

  /** A Unicode scalar value. */
  predicate Scalar(c: int) { 0 <= c <= 0x10FFFF && !High(c) && !Low(c) }

  function Joined(high: Unit, low: Unit): (c: int)
    requires High(high) && Low(low)
    ensures Scalar(c) && c >= 0x1_0000
  {
    0x1_0000 + (high - 0xD800) * 0x400 + (low - 0xDC00)
  }

  function UnitsOf(c: int): (units: Text)
    requires Scalar(c)
    ensures units != []
  {
    if c < 0x1_0000 then [c] else [0xD800 + (c - 0x1_0000) / 0x400, 0xDC00 + (c - 0x1_0000) % 0x400]
  }

  /** The scalar values of a text, lone surrogates replaced. */
  function Scalars(text: Text): (cs: seq<int>)
    ensures forall c :: c in cs ==> Scalar(c)
  {
    if text == [] then []
    else if !High(text[0]) && !Low(text[0]) then [text[0]] + Scalars(text[1..])
    else if High(text[0]) && |text| > 1 && Low(text[1]) then [Joined(text[0], text[1])] + Scalars(text[2..])
    else [REPLACEMENT] + Scalars(text[1..])
  }

  function Flatten(cs: seq<int>): Text
    requires forall c :: c in cs ==> Scalar(c)
  {
    if cs == [] then [] else UnitsOf(cs[0]) + Flatten(cs[1..])
  }

  /** The text with every lone surrogate replaced. */
  function Repaired(text: Text): Text { Flatten(Scalars(text)) }

  predicate WellFormed(text: Text) {
    if text == [] then true
    else if !High(text[0]) && !Low(text[0]) then WellFormed(text[1..])
    else High(text[0]) && |text| > 1 && Low(text[1]) && WellFormed(text[2..])
  }

  lemma JoinedUnits(high: Unit, low: Unit)
    requires High(high) && Low(low)
    ensures UnitsOf(Joined(high, low)) == [high, low]
  {}

  /** Repairing keeps the length, leaves every unit that is not a lone surrogate, and changes
      nothing exactly when there is none. */
  lemma {:induction false} RepairedText(text: Text)
    ensures |Repaired(text)| == |text|
    ensures forall i :: 0 <= i < |text| ==> Repaired(text)[i] == text[i] || Repaired(text)[i] == REPLACEMENT
    ensures Repaired(text) == text <==> WellFormed(text)
  {
    if text != [] {
      if High(text[0]) && |text| > 1 && Low(text[1]) {
        JoinedUnits(text[0], text[1]);
        RepairedText(text[2..]);
        assert text == [text[0], text[1]] + text[2..];
        assert Repaired(text) == [text[0], text[1]] + Repaired(text[2..]);
      } else {
        RepairedText(text[1..]);
        assert text == [text[0]] + text[1..];
        assert Repaired(text)[1..] == Repaired(text[1..]);
      }
    }
  }

  // -------------------------------------------------------------------- encoding

  function EncodeScalar(c: int): (bytes: seq<Byte>)
    requires Scalar(c)
    ensures bytes != []
  {
    if c < 0x80 then [c]
    else if c < 0x800 then [0xC0 + c / 0x40, 0x80 + c % 0x40]
    else if c < 0x1_0000 then [0xE0 + c / 0x1000, 0x80 + c / 0x40 % 0x40, 0x80 + c % 0x40]
    else [0xF0 + c / 0x4_0000, 0x80 + c / 0x1000 % 0x40, 0x80 + c / 0x40 % 0x40, 0x80 + c % 0x40]
  }

  function EncodeAll(cs: seq<int>): seq<Byte>
    requires forall c :: c in cs ==> Scalar(c)
  {
    if cs == [] then [] else EncodeScalar(cs[0]) + EncodeAll(cs[1..])
  }

  function Encode(text: Text): seq<Byte> { EncodeAll(Scalars(text)) }

  // -------------------------------------------------------------------- decoding

  /** What a first byte announces: how many bytes follow, the bounds of the next one, and the bits
      it carries. */
  datatype Lead = Lead(needed: nat, lower: int, upper: int, bits: int)

  function LeadOf(b: Byte): (lead: Lead) {
    if 0xC2 <= b <= 0xDF then Lead(1, 0x80, 0xBF, b - 0xC0)
    else if 0xE0 <= b <= 0xEF then Lead(2, if b == 0xE0 then 0xA0 else 0x80, if b == 0xED then 0x9F else 0xBF, b - 0xE0)
    else if 0xF0 <= b <= 0xF4 then Lead(3, if b == 0xF0 then 0x90 else 0x80, if b == 0xF4 then 0x8F else 0xBF, b - 0xF0)
    else Lead(0, 0, 0, 0)
  }

  /** A text of one scalar value, or the replacement if a number is none. */
  function Emit(c: int): Text { if Scalar(c) then UnitsOf(c) else [REPLACEMENT] }

  /** An ill-formed sequence becomes one replacement, and the byte that broke it is read again. */
  function Decode(bytes: seq<Byte>): Text
    decreases |bytes|, 1
  {
    if bytes == [] then []
    else if bytes[0] < 0x80 then [bytes[0]] + Decode(bytes[1..])
    else
      var lead := LeadOf(bytes[0]);
      if lead.needed == 0 then [REPLACEMENT] + Decode(bytes[1..])
      else Continue(bytes[1..], lead.needed, lead.lower, lead.upper, lead.bits)
  }

  function Continue(bytes: seq<Byte>, needed: nat, lower: int, upper: int, bits: int): Text
    requires needed > 0
    decreases |bytes|, 2
  {
    if bytes == [] then [REPLACEMENT]
    else if !(lower <= bytes[0] <= upper) then [REPLACEMENT] + Decode(bytes)
    else
      var more: int := bits * 0x40 + bytes[0] as int - 0x80;
      if needed == 1 then Emit(more) + Decode(bytes[1..]) else Continue(bytes[1..], needed - 1, 0x80, 0xBF, more)
  }

  lemma ThreeBytes(c: int)
    requires Scalar(c) && 0x800 <= c < 0x1_0000
    ensures var lead := LeadOf(0xE0 + c / 0x1000);
      && lead.needed == 2 && lead.bits == c / 0x1000 && lead.lower <= 0x80 + c / 0x40 % 0x40 <= lead.upper
      && (lead.bits * 0x40 + c / 0x40 % 0x40) * 0x40 + c % 0x40 == c
  {
    assert c / 0x40 / 0x40 == c / 0x1000;
    assert c / 0x40 == c / 0x1000 * 0x40 + c / 0x40 % 0x40;
  }

  lemma FourBytes(c: int)
    requires Scalar(c) && 0x1_0000 <= c
    ensures var lead := LeadOf(0xF0 + c / 0x4_0000);
      && lead.needed == 3 && lead.bits == c / 0x4_0000 && lead.lower <= 0x80 + c / 0x1000 % 0x40 <= lead.upper
      && ((lead.bits * 0x40 + c / 0x1000 % 0x40) * 0x40 + c / 0x40 % 0x40) * 0x40 + c % 0x40 == c
  {
    assert c / 0x1000 / 0x40 == c / 0x4_0000;
    assert c / 0x40 / 0x40 == c / 0x1000;
    assert c / 0x1000 == c / 0x4_0000 * 0x40 + c / 0x1000 % 0x40;
    assert c / 0x40 == c / 0x1000 * 0x40 + c / 0x40 % 0x40;
  }

  lemma DecodeThree(c: int, rest: seq<Byte>)
    requires Scalar(c) && 0x800 <= c < 0x1_0000
    ensures Decode(EncodeScalar(c) + rest) == UnitsOf(c) + Decode(rest)
  {
    ThreeBytes(c);
    var all := EncodeScalar(c) + rest;
    var lead := LeadOf(all[0]);
    assert Decode(all) == Continue(all[1..], 2, lead.lower, lead.upper, lead.bits);
    assert Decode(all) == Continue(all[1..][1..], 1, 0x80, 0xBF, lead.bits * 0x40 + c / 0x40 % 0x40);
    assert all[1..][1..][1..] == rest;
  }

  lemma DecodeFour(c: int, rest: seq<Byte>)
    requires Scalar(c) && 0x1_0000 <= c
    ensures Decode(EncodeScalar(c) + rest) == UnitsOf(c) + Decode(rest)
  {
    FourBytes(c);
    var all := EncodeScalar(c) + rest;
    var lead := LeadOf(all[0]);
    var two := lead.bits * 0x40 + c / 0x1000 % 0x40;
    assert Decode(all) == Continue(all[1..], 3, lead.lower, lead.upper, lead.bits);
    assert Decode(all) == Continue(all[1..][1..], 2, 0x80, 0xBF, two);
    assert Decode(all) == Continue(all[1..][1..][1..], 1, 0x80, 0xBF, two * 0x40 + c / 0x40 % 0x40);
    assert all[1..][1..][1..][1..] == rest;
  }

  /** Decoding reads back one encoded scalar value. */
  lemma DecodeScalar(c: int, rest: seq<Byte>)
    requires Scalar(c)
    ensures Decode(EncodeScalar(c) + rest) == UnitsOf(c) + Decode(rest)
  {
    if c < 0x80 {
      assert (EncodeScalar(c) + rest)[1..] == rest;
    } else if c < 0x800 {
      assert (EncodeScalar(c) + rest)[1..][1..] == rest;
    } else if c < 0x1_0000 {
      DecodeThree(c, rest);
    } else {
      DecodeFour(c, rest);
    }
  }

  lemma {:induction false} DecodeEncoded(cs: seq<int>, rest: seq<Byte>)
    requires forall c :: c in cs ==> Scalar(c)
    ensures Decode(EncodeAll(cs) + rest) == Flatten(cs) + Decode(rest)
  {
    if cs == [] {
      assert EncodeAll(cs) + rest == rest;
    } else {
      assert EncodeAll(cs) + rest == EncodeScalar(cs[0]) + (EncodeAll(cs[1..]) + rest);
      DecodeScalar(cs[0], EncodeAll(cs[1..]) + rest);
      DecodeEncoded(cs[1..], rest);
    }
  }

  /** Decoding what was encoded gives the text back, lone surrogates repaired. */
  lemma DecodeInvertsEncode(text: Text)
    ensures Decode(Encode(text)) == Repaired(text)
  {
    DecodeEncoded(Scalars(text), []);
    assert Encode(text) + [] == Encode(text);
  }

  predicate Ascii(text: seq<int>) { forall i :: 0 <= i < |text| ==> 0 <= text[i] < 0x80 }

  /** The bytes of an ASCII text are its units. */
  lemma {:induction false} EncodeAscii(text: Text)
    requires Ascii(text)
    ensures Encode(text) == text
  {
    if text != [] {
      EncodeAscii(text[1..]);
      assert text == [text[0]] + text[1..];
    }
  }
}
