/** application/x-www-form-urlencoded, as URLSearchParams reads and prints it (URL Standard,
    sections 5.1 and 5.2), and the proof that reading undoes printing. */
module Urlencoded {
  import opened Utf8

  datatype Pair = Pair(name: Text, value: Text)

  const AMPERSAND: int := 0x26
  const EQUALS: int := 0x3D
  const PLUS: int := 0x2B
  const PERCENT: int := 0x25
  const SPACE: int := 0x20

  // ------------------------------------------------------------------- printing

  /** The bytes that stand for themselves. */
  predicate Plain(b: int) {
    || 0x30 <= b <= 0x39 || 0x41 <= b <= 0x5A || 0x61 <= b <= 0x7A
    || b == 0x2A || b == 0x2D || b == 0x2E || b == 0x5F
  }

  function HexDigit(d: int): (u: Unit)
    requires 0 <= d < 16
  {
    if d < 10 then 0x30 + d else 0x41 + d - 10
  }

  function PrintByte(b: Byte): (units: Text)
    ensures Ascii(units) && units != []
  {
    if Plain(b) then [b] else if b == SPACE then [PLUS] else [PERCENT, HexDigit(b / 16), HexDigit(b % 16)]
  }

  function PrintBytes(bytes: seq<Byte>): (units: Text)
    ensures Ascii(units)
  {
    if bytes == [] then [] else PrintByte(bytes[0]) + PrintBytes(bytes[1..])
  }

  function PrintPair(pair: Pair): Text { PrintBytes(Encode(pair.name)) + [EQUALS] + PrintBytes(Encode(pair.value)) }

  function Print(pairs: seq<Pair>): Text {
    if pairs == [] then []
    else if |pairs| == 1 then PrintPair(pairs[0])
    else PrintPair(pairs[0]) + [AMPERSAND] + Print(pairs[1..])
  }

  // -------------------------------------------------------------------- reading

  function Split(bytes: seq<Byte>): (parts: seq<seq<Byte>>)
    ensures parts != []
  {
    if bytes == [] then [[]]
    else
      var rest := Split(bytes[1..]);
      if bytes[0] == AMPERSAND then [[]] + rest else [[bytes[0]] + rest[0]] + rest[1..]
  }

  /** Where the first equals sign is; the length when there is none. */
  function FirstEquals(bytes: seq<Byte>): (i: nat)
    ensures i <= |bytes|
  {
    if bytes == [] || bytes[0] == EQUALS then 0 else 1 + FirstEquals(bytes[1..])
  }

  function Spaced(bytes: seq<Byte>): (spaced: seq<Byte>)
    ensures |spaced| == |bytes|
  {
    if bytes == [] then [] else [if bytes[0] == PLUS then SPACE else bytes[0]] + Spaced(bytes[1..])
  }

  /** The value of a hexadecimal digit, in either case, or -1. */
  function HexValue(b: int): (d: int)
    ensures -1 <= d < 16
  {
    if 0x30 <= b <= 0x39 then b - 0x30
    else if 0x41 <= b <= 0x46 then b - 0x41 + 10
    else if 0x61 <= b <= 0x66 then b - 0x61 + 10
    else -1
  }

  function PercentDecode(bytes: seq<Byte>): seq<Byte> {
    if bytes == [] then []
    else if bytes[0] == PERCENT && |bytes| > 2 && HexValue(bytes[1]) >= 0 && HexValue(bytes[2]) >= 0 then
      [HexValue(bytes[1]) * 16 + HexValue(bytes[2])] + PercentDecode(bytes[3..])
    else [bytes[0]] + PercentDecode(bytes[1..])
  }

  function ReadPart(bytes: seq<Byte>): Text { Decode(PercentDecode(Spaced(bytes))) }

  function ReadPair(part: seq<Byte>): Pair {
    var i := FirstEquals(part);
    Pair(ReadPart(part[..i]), ReadPart(if i < |part| then part[i + 1..] else []))
  }

  function ReadParts(parts: seq<seq<Byte>>): seq<Pair> {
    if parts == [] then []
    else (if parts[0] == [] then [] else [ReadPair(parts[0])]) + ReadParts(parts[1..])
  }

  function Parse(text: Text): seq<Pair> { ReadParts(Split(Encode(text))) }

  // ------------------------------------------------------------- reading undoes printing

  lemma {:induction false} SpacedConcat(a: seq<Byte>, b: seq<Byte>)
    ensures Spaced(a + b) == Spaced(a) + Spaced(b)
  {
    if a == [] {
      assert a + b == b;
    } else {
      assert (a + b)[1..] == a[1..] + b;
      SpacedConcat(a[1..], b);
    }
  }

  lemma HexReadsBack(b: Byte)
    ensures HexValue(HexDigit(b / 16)) * 16 + HexValue(HexDigit(b % 16)) == b
    ensures HexValue(HexDigit(b / 16)) >= 0 && HexValue(HexDigit(b % 16)) >= 0
  {}

  lemma SpacedTriple(x: Byte, y: Byte, z: Byte)
    requires x != PLUS && y != PLUS && z != PLUS
    ensures Spaced([x, y, z]) == [x, y, z]
  {
    assert [x, y, z][1..] == [y, z] && [y, z][1..] == [z] && [z][1..] == [];
    assert Spaced([z]) == [z];
    assert Spaced([y, z]) == [y, z];
  }

  lemma PrintedByte(b: Byte, rest: seq<Byte>)
    ensures forall i :: 0 <= i < |PrintByte(b)| ==> PrintByte(b)[i] != AMPERSAND && PrintByte(b)[i] != EQUALS
    ensures PercentDecode(Spaced(PrintByte(b) + rest)) == [b] + PercentDecode(Spaced(rest))
  {
    var printed := PrintByte(b) + rest;
    if |PrintByte(b)| == 1 {
      assert printed[1..] == rest;
      assert Spaced(printed)[1..] == Spaced(rest);
    } else {
      SpacedConcat(PrintByte(b), rest);
      SpacedTriple(PERCENT, HexDigit(b / 16), HexDigit(b % 16));
      HexReadsBack(b);
      assert Spaced(printed)[3..] == Spaced(rest);
    }
  }

  lemma {:induction false} PrintedBytes(bytes: seq<Byte>)
    ensures forall i :: 0 <= i < |PrintBytes(bytes)| ==>
      PrintBytes(bytes)[i] != AMPERSAND && PrintBytes(bytes)[i] != EQUALS
    ensures PercentDecode(Spaced(PrintBytes(bytes))) == bytes
  {
    if bytes != [] {
      PrintedBytes(bytes[1..]);
      PrintedByte(bytes[0], PrintBytes(bytes[1..]));
    }
  }

  lemma {:induction false} FirstEqualsAfter(a: seq<Byte>, b: seq<Byte>)
    requires forall i :: 0 <= i < |a| ==> a[i] != EQUALS
    ensures FirstEquals(a + [EQUALS] + b) == |a|
  {
    var all := a + [EQUALS] + b;
    if a != [] {
      assert all[1..] == a[1..] + [EQUALS] + b;
      FirstEqualsAfter(a[1..], b);
    }
  }

  function RepairedPair(pair: Pair): Pair { Pair(Repaired(pair.name), Repaired(pair.value)) }

  lemma PrintedText(text: Text)
    ensures ReadPart(PrintBytes(Encode(text))) == Repaired(text)
  {
    PrintedBytes(Encode(text));
    hide PrintBytes, Encode, Decode, Repaired, Spaced, PercentDecode;
    DecodeInvertsEncode(text);
  }

  lemma PrintedPair(pair: Pair)
    ensures forall i :: 0 <= i < |PrintPair(pair)| ==> PrintPair(pair)[i] != AMPERSAND
    ensures Ascii(PrintPair(pair)) && PrintPair(pair) != []
    ensures ReadPair(PrintPair(pair)) == RepairedPair(pair)
  {
    var name, value := PrintBytes(Encode(pair.name)), PrintBytes(Encode(pair.value));
    PrintedBytes(Encode(pair.name));
    PrintedBytes(Encode(pair.value));
    hide PrintBytes, Encode, Repaired, Spaced, PercentDecode, ReadPart, FirstEquals;
    FirstEqualsAfter(name, value);
    PrintedText(pair.name);
    PrintedText(pair.value);
    assert PrintPair(pair) == name + [EQUALS] + value;
    assert PrintPair(pair)[..|name|] == name && PrintPair(pair)[|name| + 1..] == value;
  }

  lemma {:induction false} SplitOne(part: seq<Byte>)
    requires forall i :: 0 <= i < |part| ==> part[i] != AMPERSAND
    ensures Split(part) == [part]
  {
    if part != [] {
      SplitOne(part[1..]);
      assert part == [part[0]] + part[1..];
    }
  }

  lemma {:induction false} SplitAfter(part: seq<Byte>, rest: seq<Byte>)
    requires forall i :: 0 <= i < |part| ==> part[i] != AMPERSAND
    ensures Split(part + [AMPERSAND] + rest) == [part] + Split(rest)
  {
    var all := part + [AMPERSAND] + rest;
    if part == [] {
      assert all[1..] == rest;
    } else {
      assert all[1..] == part[1..] + [AMPERSAND] + rest;
      SplitAfter(part[1..], rest);
      assert part == [part[0]] + part[1..];
    }
  }

  function RepairedPairs(pairs: seq<Pair>): seq<Pair> {
    if pairs == [] then [] else [RepairedPair(pairs[0])] + RepairedPairs(pairs[1..])
  }

  lemma {:induction false} PrintedPairs(pairs: seq<Pair>)
    ensures Ascii(Print(pairs)) && ReadParts(Split(Print(pairs))) == RepairedPairs(pairs)
  {
    hide PrintPair, ReadPair, RepairedPair;
    if pairs == [] {
      assert ReadParts([[]]) == [];
    } else {
      PrintedPair(pairs[0]);
      PrintedPairs(pairs[1..]);
      var part := PrintPair(pairs[0]);
      if |pairs| == 1 {
        SplitOne(part);
        assert pairs[1..] == [];
      } else {
        SplitAfter(part, Print(pairs[1..]));
        assert ([part] + Split(Print(pairs[1..])))[1..] == Split(Print(pairs[1..]));
      }
    }
  }

  /** Reading what was printed gives the pairs back, whatever they hold, lone surrogates repaired. */
  lemma ParseInvertsPrint(pairs: seq<Pair>)
    ensures Ascii(Print(pairs)) && Parse(Print(pairs)) == RepairedPairs(pairs)
  {
    PrintedPairs(pairs);
    EncodeAscii(Print(pairs));
  }
}
