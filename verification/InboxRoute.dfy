/** The address of a Master Inbox screen (master-inbox-route.js): normalizing a route, printing it,
    and reading it back. */
module InboxRoute {
  import opened Utf8
  import opened Urlencoded

  /** The units of an ASCII literal. */
  function Lit(s: string): (text: Text)
    requires forall i :: 0 <= i < |s| ==> s[i] as int < 0x80
    ensures |text| == |s| && Ascii(text) && forall i :: 0 <= i < |s| ==> text[i] == s[i] as int
  {
    seq(|s|, i requires 0 <= i < |s| => s[i] as int)
  }

  const FOLDER_LIMIT: nat := 40
  const MAILBOX_LIMIT: nat := 200
  const QUERY_LIMIT: nat := 1000
  const ID_LIMIT: nat := 80
  const ADDRESS_LIMIT: nat := 2000

  datatype Route = Route(folder: Text, mailbox: Text, q: Text, id: Text)

  // ------------------------------------------------------------------ the pieces

  function Cut(text: Text, limit: nat): Text { if |text| <= limit then text else text[..limit] }

  /** White space and line terminators of the language. */
  predicate Space(u: int) {
    || 9 <= u <= 13 || u == 0x20 || u == 0xA0 || u == 0x1680 || 0x2000 <= u <= 0x200A
    || u == 0x2028 || u == 0x2029 || u == 0x202F || u == 0x205F || u == 0x3000 || u == 0xFEFF
  }

  function TrimStart(text: Text): Text {
    if text != [] && Space(text[0]) then TrimStart(text[1..]) else text
  }

  function TrimEnd(text: Text): Text {
    if text != [] && Space(text[|text| - 1]) then TrimEnd(text[..|text| - 1]) else text
  }

  function Trim(text: Text): Text { TrimEnd(TrimStart(text)) }

  function LowerUnit(u: Unit): Unit { if 0x41 <= u <= 0x5A then u + 0x20 else u }

  /** Lower case of ASCII letters. No other letter's lower case is a letter of a folder name. */
  function Lower(text: Text): (lower: Text)
    ensures |lower| == |text| && forall i :: 0 <= i < |text| ==> lower[i] == LowerUnit(text[i])
  {
    seq(|text|, i requires 0 <= i < |text| => LowerUnit(text[i]))
  }

  predicate IsFolder(text: Text) {
    || text == Lit("all") || text == Lit("inbox") || text == Lit("starred") || text == Lit("snoozed")
      || text == Lit("sent")
    || text == Lit("drafts") || text == Lit("spam") || text == Lit("trash") || text == Lit("all-mail")
  }

  predicate Hex(u: int) { 0x30 <= u <= 0x39 || 0x41 <= u <= 0x46 || 0x61 <= u <= 0x66 }

  predicate IsUuid(text: Text) {
    |text| == 36 && forall i :: 0 <= i < 36 ==> if i in {8, 13, 18, 23} then text[i] == 0x2D else Hex(text[i])
  }

  function Default(): Text { Lit("all") }

  function NormalFolder(text: Text): Text {
    var folder := Lower(Trim(Cut(text, FOLDER_LIMIT)));
    if IsFolder(folder) then folder else Default()
  }

  function NormalId(text: Text): Text {
    var id := Trim(Cut(text, ID_LIMIT));
    if IsUuid(id) then Lower(id) else []
  }

  /** A field that the caller left out is the empty text. */
  function Normalize(input: Route): Route {
    Route(NormalFolder(input.folder), Trim(Cut(input.mailbox, MAILBOX_LIMIT)), Trim(Cut(input.q, QUERY_LIMIT)),
      NormalId(input.id))
  }

  // ------------------------------------------------------- printing and reading

  function Param(name: string, value: Text): seq<Pair>
    requires forall i :: 0 <= i < |name| ==> name[i] as int < 0x80
  {
    if value == [] then [] else [Pair(Lit(name), value)]
  }

  function ParamsOf(folder: Text, mailbox: Text, q: Text, id: Text): seq<Pair> {
    Param("folder", folder) + Param("mailbox", mailbox) + Param("q", q) + Param("id", id)
  }

  function Params(route: Route): seq<Pair> {
    ParamsOf(if route.folder == Default() then [] else route.folder, route.mailbox, route.q, route.id)
  }

  function Address(query: Text): Text { if query == [] then Lit("browse") else Lit("browse?") + query }

  function Serialize(input: Route): Text { Address(Print(Params(Normalize(input)))) }

  predicate StartsWith(text: Text, prefix: Text) { |prefix| <= |text| && text[..|prefix|] == prefix }

  function WithoutMark(text: Text): Text { if StartsWith(text, Lit("?")) then text[1..] else text }

  /** The value of the last pair of a name, the empty text when there is none. */
  function Lookup(pairs: seq<Pair>, name: Text): Text {
    if pairs == [] then []
    else
      var last := pairs[|pairs| - 1];
      if last.name == name then last.value else Lookup(pairs[..|pairs| - 1], name)
  }

  function FromPairs(pairs: seq<Pair>): Route {
    Route(Lookup(pairs, Lit("folder")), Lookup(pairs, Lit("mailbox")), Lookup(pairs, Lit("q")),
      Lookup(pairs, Lit("id")))
  }

  function OnlyId(id: Text): Route { Route([], [], [], id) }

  function ParseRoute(address: Text): Route {
    var raw := Trim(Cut(address, ADDRESS_LIMIT));
    if raw == [] || raw == Lit("browse") then Normalize(OnlyId([]))
    else if StartsWith(raw, Lit("conversation=")) then Normalize(OnlyId(raw[13..]))
    else if 0x3F !in raw && IsUuid(raw) then Normalize(OnlyId(raw))
    else
      var query := if StartsWith(raw, Lit("browse?")) then raw[7..] else WithoutMark(raw);
      Normalize(FromPairs(Parse(WithoutMark(query))))
  }

  predicate SameRoute(a: Route, b: Route) { Serialize(a) == Serialize(b) }

  // ----------------------------------------------------------------- normal routes

  predicate Trimmed(text: Text) { text == [] || (!Space(text[0]) && !Space(text[|text| - 1])) }

  predicate Normal(route: Route) {
    && IsFolder(route.folder)
    && |route.mailbox| <= MAILBOX_LIMIT && Trimmed(route.mailbox)
    && |route.q| <= QUERY_LIMIT && Trimmed(route.q)
    && (route.id == [] || (IsUuid(route.id) && Lower(route.id) == route.id))
  }

  lemma {:induction false} TrimStartSuffix(text: Text)
    ensures var t := TrimStart(text); |t| <= |text| && t == text[|text| - |t|..] && (t == [] || !Space(t[0]))
  {
    if text != [] && Space(text[0]) {
      TrimStartSuffix(text[1..]);
    }
  }

  lemma {:induction false} TrimEndPrefix(text: Text)
    ensures var t := TrimEnd(text); |t| <= |text| && t == text[..|t|] && (t == [] || !Space(t[|t| - 1]))
  {
    if text != [] && Space(text[|text| - 1]) {
      TrimEndPrefix(text[..|text| - 1]);
    }
  }

  lemma TrimTrims(text: Text)
    ensures Trimmed(Trim(text)) && |Trim(text)| <= |text|
  {
    TrimStartSuffix(text);
    TrimEndPrefix(TrimStart(text));
    if Trim(text) != [] {
      assert Trim(text)[0] == TrimStart(text)[0];
    }
  }

  lemma TrimmedIsTrim(text: Text)
    requires Trimmed(text)
    ensures Trim(text) == text
  {}

  lemma NameIsLower(name: string)
    requires 0 < |name| <= FOLDER_LIMIT && forall i :: 0 <= i < |name| ==> name[i] == '-' || 'a' <= name[i] <= 'z'
    ensures Lower(Lit(name)) == Lit(name) && Trimmed(Lit(name)) && |Lit(name)| <= FOLDER_LIMIT && Lit(name) != []
  {}

  lemma FoldersAreLower(text: Text)
    requires IsFolder(text)
    ensures Lower(text) == text && Trimmed(text) && |text| <= FOLDER_LIMIT && Ascii(text) && text != []
  {
    hide Lower, Lit, Trimmed;
    NameIsLower("all");
    NameIsLower("inbox");
    NameIsLower("starred");
    NameIsLower("snoozed");
    NameIsLower("sent");
    NameIsLower("drafts");
    NameIsLower("spam");
    NameIsLower("trash");
    NameIsLower("all-mail");
  }

  /** What normalizing gives is normal, and normal routes are left alone. */
  lemma NormalizeIsNormal(input: Route)
    ensures Normal(Normalize(input))
  {
    TrimTrims(Cut(input.mailbox, MAILBOX_LIMIT));
    TrimTrims(Cut(input.q, QUERY_LIMIT));
    hide Trim, Trimmed, IsFolder;
    assert IsFolder(Default()) by { DefaultIsFolder(); }
    var id := Trim(Cut(input.id, ID_LIMIT));
    if IsUuid(id) {
      LowerUuid(id);
    }
  }

  lemma DefaultIsFolder()
    ensures IsFolder(Default())
  {}

  lemma LowerUuid(id: Text)
    requires IsUuid(id)
    ensures IsUuid(Lower(id)) && Lower(Lower(id)) == Lower(id)
  {}

  lemma UuidIsTrimmed(id: Text)
    requires IsUuid(id)
    ensures Trimmed(id) && Ascii(id) && id != []
  {}

  lemma NormalIsKept(route: Route)
    requires Normal(route)
    ensures Normalize(route) == route
  {
    FoldersAreLower(route.folder);
    TrimmedIsTrim(route.folder);
    TrimmedIsTrim(route.mailbox);
    TrimmedIsTrim(route.q);
    if route.id != [] {
      UuidIsTrimmed(route.id);
    }
    TrimmedIsTrim(route.id);
    hide Trim, Trimmed, IsFolder, IsUuid;
  }

  /** Normalizing twice is normalizing once. */
  lemma NormalizeIdempotent(input: Route)
    ensures Normalize(Normalize(input)) == Normalize(input)
  {
    NormalizeIsNormal(input);
    hide Normalize, Normal;
    NormalIsKept(Normalize(input));
  }

  // ------------------------------------------------------------------ the round trip

  /** The route with every lone surrogate replaced. */
  function RepairedRoute(route: Route): Route {
    Route(route.folder, Repaired(route.mailbox), Repaired(route.q), route.id)
  }

  predicate WellFormedRoute(route: Route) { WellFormed(route.mailbox) && WellFormed(route.q) }

  lemma RepairedRouteIsSame(route: Route)
    ensures RepairedRoute(route) == route <==> WellFormedRoute(route)
  {
    RepairedText(route.mailbox);
    RepairedText(route.q);
  }

  lemma {:induction false} AsciiIsRepaired(text: Text)
    requires Ascii(text)
    ensures Repaired(text) == text
  {
    if text != [] {
      AsciiIsRepaired(text[1..]);
      assert text == [text[0]] + text[1..];
      assert Scalars(text)[1..] == Scalars(text[1..]);
    }
  }

  lemma RepairedTrimmed(text: Text)
    requires Trimmed(text)
    ensures Trimmed(Repaired(text)) && |Repaired(text)| == |text|
  {
    RepairedText(text);
    hide Repaired;
  }

  lemma NormalRepaired(route: Route)
    requires Normal(route)
    ensures Normal(RepairedRoute(route))
  {
    RepairedTrimmed(route.mailbox);
    RepairedTrimmed(route.q);
    hide Repaired, Trimmed, IsFolder, IsUuid;
  }

  lemma ParamRepaired(name: string, value: Text)
    requires forall i :: 0 <= i < |name| ==> name[i] as int < 0x80
    ensures RepairedPairs(Param(name, value)) == Param(name, Repaired(value))
  {
    AsciiIsRepaired(Lit(name));
    RepairedText(value);
    hide Repaired, Lit;
    if value != [] {
      assert Param(name, value)[1..] == [];
    }
  }

  lemma {:induction false} RepairedPairsConcat(a: seq<Pair>, b: seq<Pair>)
    ensures RepairedPairs(a + b) == RepairedPairs(a) + RepairedPairs(b)
  {
    if a == [] {
      assert a + b == b;
    } else {
      assert (a + b)[1..] == a[1..] + b;
      RepairedPairsConcat(a[1..], b);
    }
  }

  lemma FourRepaired(a: seq<Pair>, b: seq<Pair>, c: seq<Pair>, d: seq<Pair>)
    ensures RepairedPairs(a + b + c + d) == RepairedPairs(a) + RepairedPairs(b) + RepairedPairs(c) + RepairedPairs(d)
  {
    RepairedPairsConcat(a, b);
    RepairedPairsConcat(a + b, c);
    RepairedPairsConcat(a + b + c, d);
  }

  /** The parts of a normal route that are ASCII. */
  lemma AsciiParts(route: Route)
    requires Normal(route)
    ensures Repaired(route.folder) == route.folder && Repaired([]) == [] && Repaired(route.id) == route.id
  {
    FoldersAreLower(route.folder);
    AsciiIsRepaired(route.folder);
    if route.id != [] {
      UuidIsTrimmed(route.id);
    }
    AsciiIsRepaired(route.id);
  }

  lemma ParamsOfRepaired(folder: Text, mailbox: Text, q: Text, id: Text)
    ensures RepairedPairs(ParamsOf(folder, mailbox, q, id))
      == ParamsOf(Repaired(folder), Repaired(mailbox), Repaired(q), Repaired(id))
  {
    hide Repaired, Param, RepairedPairs, Lit;
    ParamRepaired("folder", folder);
    ParamRepaired("mailbox", mailbox);
    ParamRepaired("q", q);
    ParamRepaired("id", id);
    FourRepaired(Param("folder", folder), Param("mailbox", mailbox), Param("q", q), Param("id", id));
  }

  lemma ParamsRepaired(route: Route)
    requires Normal(route)
    ensures RepairedPairs(Params(route)) == Params(RepairedRoute(route))
  {
    AsciiParts(route);
    hide Repaired, Normal, ParamsOf, Default, RepairedPairs;
    ParamsOfRepaired(if route.folder == Default() then [] else route.folder, route.mailbox, route.q, route.id);
  }

  lemma LookupParam(pairs: seq<Pair>, name: string, value: Text, wanted: string)
    requires (forall i :: 0 <= i < |name| ==> name[i] as int < 0x80)
      && (forall i :: 0 <= i < |wanted| ==> wanted[i] as int < 0x80)
    requires |name| != |wanted| || name == wanted
    ensures Lookup(pairs + Param(name, value), Lit(wanted))
      == if name == wanted && value != [] then value else Lookup(pairs, Lit(wanted))
  {
    if value == [] {
      assert pairs + Param(name, value) == pairs;
    } else {
      assert (pairs + Param(name, value))[..|pairs|] == pairs;
    }
  }

  /** Looking the parameters of a route up by name. */
  lemma ParamsLookUp(route: Route)
    ensures FromPairs(Params(route)) == route.(folder := if route.folder == Default() then [] else route.folder)
  {
    hide Lookup, Param, Lit, Default;
    var folder := if route.folder == Default() then [] else route.folder;
    var a := Param("folder", folder);
    var b := a + Param("mailbox", route.mailbox);
    var c := b + Param("q", route.q);
    assert [] + a == a;
    forall wanted | wanted in {"folder", "mailbox", "q", "id"}
      ensures Lookup(Params(route), Lit(wanted)) ==
        if wanted == "folder" then folder else if wanted == "mailbox" then route.mailbox
        else if wanted == "q" then route.q else route.id
    {
      NothingToFind(wanted);
      LookupParam([], "folder", folder, wanted);
      LookupParam(a, "mailbox", route.mailbox, wanted);
      LookupParam(b, "q", route.q, wanted);
      LookupParam(c, "id", route.id, wanted);
    }
  }

  lemma NothingToFind(wanted: string)
    requires forall i :: 0 <= i < |wanted| ==> wanted[i] as int < 0x80
    ensures Lookup([], Lit(wanted)) == []
  {}

  /** Normalizing the parameters of a normal route gives the route: an absent folder is the default. */
  lemma ParamsNormalize(route: Route)
    requires Normal(route)
    ensures Normalize(FromPairs(Params(route))) == route
  {
    ParamsLookUp(route);
    NormalIsKept(route);
    NoFolder();
    hide Params, Normal, FromPairs, NormalFolder, NormalId, Trim;
  }

  lemma NoFolder()
    ensures NormalFolder([]) == Default()
  {}

  /** Units that printing makes: none is a space, a question mark or outside ASCII. */
  predicate Visible(text: Text) { forall i :: 0 <= i < |text| ==> 0x20 < text[i] < 0x80 && text[i] != 0x3F }

  lemma {:induction false} BytesAreVisible(bytes: seq<Byte>)
    ensures Visible(PrintBytes(bytes))
  {
    if bytes != [] {
      BytesAreVisible(bytes[1..]);
      assert Visible(PrintByte(bytes[0]));
    }
  }

  lemma {:induction false} PrintIsVisible(pairs: seq<Pair>)
    ensures Visible(Print(pairs)) && (pairs != [] ==> Print(pairs) != [])
  {
    hide PrintBytes, Encode;
    if pairs != [] {
      BytesAreVisible(Encode(pairs[0].name));
      BytesAreVisible(Encode(pairs[0].value));
      PrintIsVisible(pairs[1..]);
    }
  }

  lemma NoMark(query: Text)
    requires Visible(query) && query != []
    ensures WithoutMark(query) == query
  {
    assert query[..1][0] == query[0];
  }

  /** How an address with a query begins and ends. */
  lemma QueryAddress(query: Text)
    requires Visible(query) && query != []
    ensures var address := Lit("browse?") + query;
      && Trimmed(address) && address != [] && 0x3F in address && address[7..] == query && address != Lit("browse")
      && StartsWith(address, Lit("browse?")) && !StartsWith(address, Lit("conversation="))
  {
    var address := Lit("browse?") + query;
    assert address[6] == 0x3F && |address| > 7;
    assert |address| >= 13 ==> address[..13][0] == address[0];
    assert address[..7] == Lit("browse?");
  }

  /** An address with a query is read as its query. */
  lemma QueryIsRead(query: Text)
    requires Visible(query) && query != [] && |query| + 7 <= ADDRESS_LIMIT
    ensures ParseRoute(Lit("browse?") + query) == Normalize(FromPairs(Parse(query)))
  {
    QueryAddress(query);
    TrimmedIsTrim(Lit("browse?") + query);
    NoMark(query);
    assert |Lit("browse?")| == 7;
    hide Parse, Normalize, FromPairs, Trim, Lit, Visible, StartsWith, Trimmed, WithoutMark, IsUuid;
  }

  lemma NothingIsRead()
    ensures ParseRoute(Lit("browse")) == Normalize(OnlyId([]))
  {
    TrimmedIsTrim(Lit("browse"));
    hide Parse, Normalize, FromPairs, Trim;
  }

  /** Reading an address within the limit gives the normal route back, lone surrogates repaired. */
  lemma SerializedIsRead(input: Route)
    requires |Serialize(input)| <= ADDRESS_LIMIT
    ensures ParseRoute(Serialize(input)) == RepairedRoute(Normalize(input))
  {
    var route := Normalize(input);
    var params := Params(route);
    NormalizeIsNormal(input);
    NormalRepaired(route);
    ParamsRepaired(route);
    ParamsNormalize(RepairedRoute(route));
    PrintIsVisible(params);
    ParseInvertsPrint(params);
    hide Normalize, Params, Print, Parse, FromPairs, RepairedRoute, Normal, Visible, Lit, ParseRoute;
    if params == [] {
      NothingIsRead();
      NothingPrinted();
    } else {
      QueryIsRead(Print(params));
    }
  }

  lemma NothingPrinted()
    ensures Print([]) == [] && RepairedPairs([]) == [] && FromPairs([]) == OnlyId([])
  {}

  /** The round trip, within the address limit: reading gives the normalized route back exactly when
      that route holds no lone surrogate. */
  lemma RoundTripExactly(input: Route)
    requires |Serialize(input)| <= ADDRESS_LIMIT
    ensures ParseRoute(Serialize(input)) == Normalize(input) <==> WellFormedRoute(Normalize(input))
  {
    hide ParseRoute, Serialize, Normalize, RepairedRoute, WellFormedRoute;
    SerializedIsRead(input);
    RepairedRouteIsSame(Normalize(input));
  }

  // ------------------------------------------------------------------- same screen

  lemma {:induction false} FlattenScalars(cs: seq<int>)
    requires forall c :: c in cs ==> Scalar(c)
    ensures Scalars(Flatten(cs)) == cs
  {
    if cs != [] {
      FlattenScalars(cs[1..]);
      var units, rest := UnitsOf(cs[0]), Flatten(cs[1..]);
      if cs[0] < 0x1_0000 {
        assert (units + rest)[1..] == rest;
      } else {
        assert (units + rest)[2..] == rest;
        assert Joined(units[0], units[1]) == cs[0];
      }
    }
  }

  lemma EncodeRepaired(text: Text)
    ensures Encode(Repaired(text)) == Encode(text)
  {
    FlattenScalars(Scalars(text));
  }

  lemma {:induction false} PrintRepaired(pairs: seq<Pair>)
    ensures Print(RepairedPairs(pairs)) == Print(pairs)
  {
    if pairs != [] {
      EncodeRepaired(pairs[0].name);
      EncodeRepaired(pairs[0].value);
      hide Encode, Repaired, PrintBytes;
      assert PrintPair(RepairedPair(pairs[0])) == PrintPair(pairs[0]);
      hide PrintPair;
      PrintRepaired(pairs[1..]);
      assert |RepairedPairs(pairs[1..])| == |pairs| - 1 by { RepairedCount(pairs[1..]); }
    }
  }

  lemma {:induction false} RepairedCount(pairs: seq<Pair>)
    ensures |RepairedPairs(pairs)| == |pairs|
  {
    if pairs != [] {
      RepairedCount(pairs[1..]);
    }
  }

  lemma AddressIsInjective(a: Text, b: Text)
    requires Address(a) == Address(b)
    ensures a == b
  {
    assert |Lit("browse")| == 6 && |Lit("browse?")| == 7;
    if a != [] && b != [] {
      assert Address(a)[7..] == a && Address(b)[7..] == b;
    }
  }

  /** Two routes have the same address exactly when they normalize to the same route, up to lone
      surrogates; without any, exactly when their normal routes are equal. */
  lemma SameRouteExactly(a: Route, b: Route)
    ensures SameRoute(a, b) <==> RepairedRoute(Normalize(a)) == RepairedRoute(Normalize(b))
    ensures WellFormedRoute(Normalize(a)) && WellFormedRoute(Normalize(b))
      ==> (SameRoute(a, b) <==> Normalize(a) == Normalize(b))
  {
    var m, n := Normalize(a), Normalize(b);
    NormalizeIsNormal(a);
    NormalizeIsNormal(b);
    hide Normalize;
    RouteFromQuery(m);
    RouteFromQuery(n);
    RepairedRouteIsSame(m);
    RepairedRouteIsSame(n);
    hide RepairedRoute, WellFormedRoute, Normal, Params, Print, Parse, FromPairs, Address;
    if SameRoute(a, b) {
      AddressIsInjective(Print(Params(m)), Print(Params(n)));
    }
  }

  /** The query of a normal route determines it up to lone surrogates, and depends on nothing else. */
  lemma RouteFromQuery(route: Route)
    requires Normal(route)
    ensures Normalize(FromPairs(Parse(Print(Params(route))))) == RepairedRoute(route)
    ensures Print(Params(route)) == Print(Params(RepairedRoute(route)))
  {
    ParamsRepaired(route);
    NormalRepaired(route);
    ParamsNormalize(RepairedRoute(route));
    ParseInvertsPrint(Params(route));
    PrintRepaired(Params(route));
  }

  /** Cutting a search text at its limit can split a surrogate pair, and then a well-formed route
      does not come back. */
  lemma CutCanSplitPair(id: Text)
    ensures var q := seq(999, _ => 0x61) + [0xD83D, 0xDE00];
      WellFormed(q) && !WellFormedRoute(Normalize(Route([], [], q, id)))
  {
    var a := seq(999, _ => 0x61);
    var q: Text := a + [0xD83D, 0xDE00];
    PlainThen(a, [0xD83D, 0xDE00]);
    PlainThen(a, [0xD83D]);
    assert Cut(q, QUERY_LIMIT) == a + [0xD83D];
    TrimmedIsTrim(a + [0xD83D]);
    assert WellFormed([0xD83D, 0xDE00][2..]);
  }

  lemma {:induction false} PlainThen(plain: Text, rest: Text)
    requires forall i :: 0 <= i < |plain| ==> !High(plain[i]) && !Low(plain[i])
    ensures WellFormed(plain + rest) == WellFormed(rest)
  {
    if plain == [] {
      assert plain + rest == rest;
    } else {
      assert (plain + rest)[1..] == plain[1..] + rest;
      PlainThen(plain[1..], rest);
    }
  }
}
