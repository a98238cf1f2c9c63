/** Addresses over the limit: the reader cuts them, and the conversation id, printed last, is what
    the cut takes away. */
module LongAddress {
  import opened Utf8
  import opened Urlencoded
  import opened InboxRoute

  predicate AllPlain(text: Text) { forall i :: 0 <= i < |text| ==> Plain(text[i]) }

  /** Plain text is printed and read as it is. */
  lemma {:induction false} PlainIsPrinted(text: Text)
    requires AllPlain(text)
    ensures PrintBytes(Encode(text)) == text
  {
    EncodeAscii(text);
    PlainBytes(text);
  }

  lemma {:induction false} PlainBytes(text: seq<Byte>)
    requires AllPlain(text)
    ensures PrintBytes(text) == text
  {
    if text != [] {
      PlainBytes(text[1..]);
    }
  }

  lemma PlainIsRead(text: seq<Byte>)
    requires AllPlain(text)
    ensures ReadPart(text) == text
  {
    PlainIsPrinted(text);
    PrintedText(text);
    AsciiIsRepaired(text);
  }

  // ---------------------------------------------------------- a query cut short

  /** The parts of a cut query: whole pairs, and then some beginning of the next. */
  predicate CutParts(pairs: seq<Pair>, k: nat, part: Text, parts: seq<seq<Byte>>) {
    k < |pairs| && part <= PrintPair(pairs[k]) && |parts| == k + 1 && parts[k] == part
    && forall i :: 0 <= i < k ==> parts[i] == PrintPair(pairs[i])
  }

  lemma CutPartsLater(pairs: seq<Pair>, k: nat, part: Text, parts: seq<seq<Byte>>)
    requires pairs != [] && CutParts(pairs[1..], k, part, parts)
    ensures Ascii(PrintPair(pairs[0])) && CutParts(pairs, k + 1, part, [PrintPair(pairs[0])] + parts)
  {
    PrintedPair(pairs[0]);
    hide PrintPair;
  }

  lemma PrintUnfolds(pairs: seq<Pair>)
    requires pairs != []
    ensures Print(pairs) == if |pairs| == 1 then PrintPair(pairs[0])
      else PrintPair(pairs[0]) + [AMPERSAND] + Print(pairs[1..])
  {}

  lemma CutsFirst(pairs: seq<Pair>, n: nat)
    requires pairs != [] && n <= |PrintPair(pairs[0])| && n < |Print(pairs)|
    ensures Print(pairs)[..n] == PrintPair(pairs[0])[..n] && Ascii(Print(pairs)[..n])
    ensures |pairs| == 1 ==> n < |PrintPair(pairs[0])|
    ensures CutParts(pairs, 0, Print(pairs)[..n], Split(Print(pairs)[..n]))
  {
    hide PrintPair, Print, Split, ReadPair, RepairedPair;
    PrintUnfolds(pairs);
    PrintedPair(pairs[0]);
    SplitOne(PrintPair(pairs[0])[..n]);
  }

  lemma CutsLater(pairs: seq<Pair>, n: nat)
    requires pairs != [] && |PrintPair(pairs[0])| < n < |Print(pairs)|
    ensures |pairs| > 1 && n - |PrintPair(pairs[0])| - 1 < |Print(pairs[1..])|
    ensures Ascii(Print(pairs)[..n]) && Ascii(Print(pairs[1..])) && Ascii(PrintPair(pairs[0]))
    ensures Split(Print(pairs)[..n]) == [PrintPair(pairs[0])]
      + Split(Print(pairs[1..])[..n - |PrintPair(pairs[0])| - 1])
  {
    hide PrintPair, Print, Parse, Split, ReadPair, RepairedPair, RepairedPairs;
    var first, rest := PrintPair(pairs[0]), Print(pairs[1..]);
    PrintUnfolds(pairs);
    PrintedPair(pairs[0]);
    ParseInvertsPrint(pairs[1..]);
    TakePast(first, rest, n);
    SplitAfter(first, rest[..n - |first| - 1]);
  }

  lemma TakePast(first: Text, rest: Text, n: nat)
    requires |first| < n < |first + [AMPERSAND] + rest| && Ascii(first) && Ascii(rest)
    ensures n - |first| - 1 < |rest|
    ensures (first + [AMPERSAND] + rest)[..n] == first + [AMPERSAND] + rest[..n - |first| - 1]
    ensures Ascii((first + [AMPERSAND] + rest)[..n])
  {}

  lemma {:induction false} CutQuery(pairs: seq<Pair>, n: nat) returns (k: nat, part: Text)
    requires n < |Print(pairs)|
    ensures Ascii(Print(pairs)[..n]) && CutParts(pairs, k, part, Split(Print(pairs)[..n]))
    ensures k == |pairs| - 1 ==> part != PrintPair(pairs[k])
  {
    hide PrintPair, CutParts, Split;
    if n <= |PrintPair(pairs[0])| {
      CutsFirst(pairs, n);
      k, part := 0, Print(pairs)[..n];
    } else {
      CutsLater(pairs, n);
      var m := n - |PrintPair(pairs[0])| - 1;
      var j;
      j, part := CutQuery(pairs[1..], m);
      CutPartsLater(pairs, j, part, Split(Print(pairs[1..])[..m]));
      k := j + 1;
    }
  }

  lemma {:induction false} NoEquals(part: seq<Byte>)
    requires forall i :: 0 <= i < |part| ==> part[i] != EQUALS
    ensures FirstEquals(part) == |part|
  {
    if part != [] {
      NoEquals(part[1..]);
    }
  }

  lemma CutInName(name: Text, part: seq<Byte>)
    requires AllPlain(name) && part <= name
    ensures ReadPair(part) == Pair(part, [])
  {
    NoEquals(part);
    assert part[..|part|] == part;
    PlainIsRead(part);
    PlainIsRead([]);
    hide ReadPart, FirstEquals;
  }

  lemma CutInValue(name: Text, tail: seq<Byte>)
    requires AllPlain(name)
    ensures Ascii(name) && ReadPair(name + [EQUALS] + tail) == Pair(name, ReadPart(tail))
  {
    FirstEqualsAfter(name, tail);
    PlainIsRead(name);
    hide ReadPart, FirstEquals;
    var part := name + [EQUALS] + tail;
    assert part[..|name|] == name && part[|name| + 1..] == tail;
  }

  lemma TakePair(name: Text, printed: Text, part: Text)
    requires part <= name + [EQUALS] + printed && |part| > |name|
    ensures var tail := part[|name| + 1..]; part == name + [EQUALS] + tail && tail <= printed
    ensures part != name + [EQUALS] + printed ==> |part| - |name| - 1 < |printed|
  {}

  lemma TakeName(name: Text, printed: Text, part: Text)
    requires part <= name + [EQUALS] + printed && |part| <= |name|
    ensures part <= name
  {}

  /** The beginning of a pair with a plain name is read with the name or a beginning of it; a plain
      value that is not all there is read shorter. */
  lemma CutPair(name: Text, value: Text, part: seq<Byte>)
    requires AllPlain(name) && part <= PrintPair(Pair(name, value))
    ensures ReadPair(part).name <= name
    ensures AllPlain(value) && part != PrintPair(Pair(name, value)) && value != [] ==> |ReadPair(part).value| < |value|
  {
    PlainIsPrinted(name);
    var printed := PrintBytes(Encode(value));
    assert PrintPair(Pair(name, value)) == name + [EQUALS] + printed;
    hide PrintPair, PrintBytes, Encode, ReadPair, ReadPart;
    if |part| <= |name| {
      TakeName(name, printed, part);
      CutInName(name, part);
    } else {
      TakePair(name, printed, part);
      var tail := part[|name| + 1..];
      CutInValue(name, tail);
      if AllPlain(value) {
        PlainIsPrinted(value);
        PlainIsRead(tail);
      }
    }
  }

  // -------------------------------------------------------------- the cut address

  lemma {:induction false} LookupOfParts(parts: seq<seq<Byte>>, wanted: Text, limit: nat)
    requires forall i :: 0 <= i < |parts| ==>
      parts[i] == [] || ReadPair(parts[i]).name != wanted || |ReadPair(parts[i]).value| < limit
    requires limit > 0
    ensures |Lookup(ReadParts(parts), wanted)| < limit
  {
    if parts != [] {
      LookupOfParts(parts[1..], wanted, limit);
      hide ReadPair;
      var head := if parts[0] == [] then [] else [ReadPair(parts[0])];
      LookupOfTwo(head, ReadParts(parts[1..]), wanted);
    }
  }

  lemma {:induction false} LookupOfTwo(a: seq<Pair>, b: seq<Pair>, wanted: Text)
    ensures Lookup(a + b, wanted) == Lookup(b, wanted) || Lookup(a + b, wanted) == Lookup(a, wanted)
  {
    if b == [] {
      assert a + b == a;
    } else {
      assert (a + b)[..|a + b| - 1] == a + b[..|b| - 1];
      LookupOfTwo(a, b[..|b| - 1], wanted);
    }
  }

  lemma IdIsPlain(route: Route)
    requires Normal(route) && route.id != []
    ensures AllPlain(route.id) && |route.id| == 36
  {}

  lemma NamesArePlain()
    ensures AllPlain(Lit("folder")) && AllPlain(Lit("mailbox")) && AllPlain(Lit("q")) && AllPlain(Lit("id"))
  {}

  /** The names of a route's parameters: only the last can begin like "id". */
  lemma ParamNames(route: Route, k: nat)
    requires route.id != [] && k < |Params(route)|
    ensures k == |Params(route)| - 1 ==> Params(route)[k] == Pair(Lit("id"), route.id)
    ensures k < |Params(route)| - 1 ==> Params(route)[k].name in [Lit("folder"), Lit("mailbox"), Lit("q")]
  {
    hide Lit, Default;
  }

  lemma NotId(name: Text, part: Text)
    requires name in [Lit("folder"), Lit("mailbox"), Lit("q")] && part <= name
    ensures part != Lit("id")
  {
    assert part != [] ==> part[0] == name[0];
  }

  /** A part of a cut query never brings a whole id. */
  lemma CutPartHasNoId(route: Route, n: nat)
    requires Normal(route) && route.id != [] && n < |Print(Params(route))|
    ensures Ascii(Print(Params(route))[..n])
    ensures |Lookup(ReadParts(Split(Print(Params(route))[..n])), Lit("id"))| < 36
  {
    var pairs := Params(route);
    hide Print, Params, Split, ReadParts, Lookup, Normal, PrintPair, ReadPair, Lit;
    var k, part := CutQuery(pairs, n);
    var parts := Split(Print(pairs)[..n]);
    forall i | 0 <= i < |parts| ensures ReadPair(parts[i]).name != Lit("id") || |ReadPair(parts[i]).value| < 36 {
      OnePartHasNoId(route, k, part, parts, i);
    }
    LookupOfParts(parts, Lit("id"), 36);
  }

  lemma OnePartHasNoId(route: Route, k: nat, part: Text, parts: seq<seq<Byte>>, i: nat)
    requires Normal(route) && route.id != [] && i < |parts| && CutParts(Params(route), k, part, parts)
    requires k == |Params(route)| - 1 ==> part != PrintPair(Params(route)[k])
    ensures ReadPair(parts[i]).name != Lit("id") || |ReadPair(parts[i]).value| < 36
  {
    hide Params, PrintPair, ReadPair, Lit, Normal, AllPlain, Default;
    var pairs := Params(route);
    NamesArePlain();
    IdIsPlain(route);
    ParamNames(route, i);
    assert AllPlain(pairs[i].name);
    CutPair(pairs[i].name, pairs[i].value, parts[i]);
    if i < |pairs| - 1 {
      NotId(pairs[i].name, ReadPair(parts[i]).name);
    }
  }

  /** An address over the limit that names a conversation is read without it. */
  lemma LongAddressLosesId(input: Route)
    requires |Serialize(input)| > ADDRESS_LIMIT && Normalize(input).id != []
    ensures ParseRoute(Serialize(input)).id == []
  {
    var route := Normalize(input);
    NormalizeIsNormal(input);
    var query := Print(Params(route));
    PrintIsVisible(Params(route));
    var n := ADDRESS_LIMIT - 7;
    CutAddress(query, n);
    CutPartHasNoId(route, n);
    EncodeAscii(query[..n]);
    hide Normalize, Print, Params, ParseRoute, Lookup, Split, ReadParts, Lit, Normal, Visible, Encode;
    ShortIdIsNone(FromPairs(Parse(query[..n])));
  }

  /** A search for a thousand slashes does it, whatever the conversation: each is printed as three
      units. */
  lemma SlashesLoseId(id: Text)
    requires IsUuid(id)
    ensures var input := Route([], [], Slashes(1000), id);
      && Normalize(input).id == Lower(id) && |Lower(id)| == 36
      && |Serialize(input)| > ADDRESS_LIMIT && ParseRoute(Serialize(input)).id == []
  {
    hide Print, ParseRoute, Lit, PrintPair;
    var input := Route([], [], Slashes(1000), id);
    TrimmedIsTrim(Slashes(1000));
    UuidIsTrimmed(id);
    var route := Normalize(input);
    var pairs := Params(route);
    assert route.q == Slashes(1000) && route.id == Lower(id);
    SlashesParams(route);
    PrintUnfolds(pairs);
    SlashesPair(1000);
    LongAddressLosesId(input);
  }

  function Slashes(n: nat): (text: Text)
    ensures |text| == n && forall i :: 0 <= i < n ==> text[i] == 0x2F
  {
    seq(n, _ => 0x2F)
  }

  lemma UuidIsTrimmed(id: Text)
    requires IsUuid(id)
    ensures Trim(Cut(id, ID_LIMIT)) == id
  {
    TrimmedIsTrim(id);
  }

  lemma SlashesParams(route: Route)
    requires route.folder == Default() && route.mailbox == [] && route.q != [] && route.id != []
    ensures Params(route) == [Pair(Lit("q"), route.q), Pair(Lit("id"), route.id)]
  {}

  lemma SlashesPair(n: nat)
    ensures |PrintPair(Pair(Lit("q"), Slashes(n)))| >= 3 * n
  {
    EncodeAscii(Slashes(n));
    SlashesPrinted(n);
  }

  lemma {:induction false} SlashesPrinted(n: nat)
    ensures |PrintBytes(Slashes(n))| == 3 * n
  {
    if n > 0 {
      assert Slashes(n)[1..] == Slashes(n - 1);
      SlashesPrinted(n - 1);
    }
  }

  lemma ShortIdIsNone(route: Route)
    requires |route.id| < 36
    ensures Normalize(route).id == []
  {
    TrimTrims(Cut(route.id, ID_LIMIT));
  }

  /** An address over the limit is read as the query cut to what is left of the limit. */
  lemma CutAddress(query: Text, n: nat)
    requires Visible(query) && |query| > n == ADDRESS_LIMIT - 7
    ensures ParseRoute(Address(query)) == Normalize(FromPairs(Parse(query[..n])))
  {
    assert Address(query)[..ADDRESS_LIMIT] == Lit("browse?") + query[..n];
    QueryAddress(query[..n]);
    TrimmedIsTrim(Lit("browse?") + query[..n]);
    NoMark(query[..n]);
    hide Parse, Normalize, FromPairs, Trim, Lit, Visible, StartsWith, Trimmed, WithoutMark, IsUuid;
  }

  /** For a route that names a conversation: its address reads back to its normal route exactly when
      it is within the limit and the route holds no lone surrogate. */
  lemma ConversationRoundTripExactly(input: Route)
    requires Normalize(input).id != []
    ensures ParseRoute(Serialize(input)) == Normalize(input)
      <==> |Serialize(input)| <= ADDRESS_LIMIT && WellFormedRoute(Normalize(input))
  {
    hide ParseRoute, Serialize, Normalize, WellFormedRoute;
    if |Serialize(input)| <= ADDRESS_LIMIT {
      RoundTripExactly(input);
    } else {
      LongAddressLosesId(input);
    }
  }
}
