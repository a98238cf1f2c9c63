/** The walk of validate_ast as it is written (resume-renderer-v2/app.py): one context, updated node
    by node, and the first failed check ends it. */
module AstContext {
  import opened Basics
  import opened Resume
  import opened AstRules
  import opened AstValidation

  // ---------------------------------------------------------------------- emphasis

  predicate Nonempty(ranges: seq<Range>) { forall i :: 0 <= i < |ranges| ==> ranges[i].start < ranges[i].end }

  predicate Ordered(ranges: seq<Range>) { forall i, j :: 0 <= i < j < |ranges| ==> ranges[i].start <= ranges[j].start }

  function Inserted(a: seq<Range>, k: nat, x: Range): seq<Range>
    requires k <= |a|
  {
    a[..k] + [x] + a[k..]
  }

  predicate ApartFrom(a: seq<Range>, x: Range) { forall i :: 0 <= i < |a| ==> Apart(a[i], x) }

  /** Where a range goes in the list does not matter to what overlaps. */
  lemma InsertedApart(a: seq<Range>, k: nat, x: Range)
    requires k <= |a|
    ensures AllApart(Inserted(a, k, x)) <==> AllApart(a) && ApartFrom(a, x)
  {
    var c := Inserted(a, k, x);
    assert c[k] == x && forall i :: 0 <= i < |a| ==> a[i] == c[if i < k then i else i + 1];
    if AllApart(c) {
      forall i, j | 0 <= i < j < |a| ensures Apart(a[i], a[j]) {
        assert Apart(c[if i < k then i else i + 1], c[if j < k then j else j + 1]);
      }
      forall i | 0 <= i < |a| ensures Apart(a[i], x) {
        assert if i < k then Apart(c[i], c[k]) else Apart(c[k], c[i + 1]);
      }
    }
    if AllApart(a) && ApartFrom(a, x) {
      forall i, j | 0 <= i < j < |c| ensures Apart(c[i], c[j]) {
      }
    }
  }

  /** The ranges by start and then end; the same ranges overlap. */
  method SortRanges(ranges: seq<Range>) returns (sorted: seq<Range>)
    requires Nonempty(ranges)
    ensures Nonempty(sorted) && Ordered(sorted) && (AllApart(sorted) <==> AllApart(ranges))
  {
    sorted := [];
    for n := 0 to |ranges|
      invariant Nonempty(sorted) && Ordered(sorted) && (AllApart(sorted) <==> AllApart(ranges[..n]))
      invariant forall x :: ApartFrom(sorted, x) <==> ApartFrom(ranges[..n], x)
    {
      var x := ranges[n];
      var k := 0;
      while k < |sorted| && (sorted[k].start < x.start || (sorted[k].start == x.start && sorted[k].end <= x.end))
        invariant k <= |sorted| && forall i :: 0 <= i < k ==> sorted[i].start <= x.start
      {
        k := k + 1;
      }
      assert ranges[..n + 1] == Inserted(ranges[..n], n, x);
      InsertedApart(sorted, k, x);
      InsertedApart(ranges[..n], n, x);
      InsertedOrdered(sorted, k, x);
      SameFriends(sorted, ranges[..n], k, x);
      sorted := Inserted(sorted, k, x);
    }
    assert ranges[..|ranges|] == ranges;
  }

  lemma InsertedOrdered(a: seq<Range>, k: nat, x: Range)
    requires k <= |a| && Nonempty(a) && Ordered(a) && x.start < x.end
    requires (forall i :: 0 <= i < k ==> a[i].start <= x.start) && (k < |a| ==> x.start <= a[k].start)
    ensures Nonempty(Inserted(a, k, x)) && Ordered(Inserted(a, k, x))
  {}

  lemma SameFriends(a: seq<Range>, b: seq<Range>, k: nat, x: Range)
    requires k <= |a| && forall y :: ApartFrom(a, y) <==> ApartFrom(b, y)
    ensures forall y :: ApartFrom(Inserted(a, k, x), y) <==> ApartFrom(Inserted(b, |b|, x), y)
  {
    forall y ensures ApartFrom(Inserted(a, k, x), y) <==> ApartFrom(Inserted(b, |b|, x), y) {
      InsertedFriends(a, k, x, y);
      InsertedFriends(b, |b|, x, y);
    }
  }

  lemma InsertedFriends(a: seq<Range>, k: nat, x: Range, y: Range)
    requires k <= |a|
    ensures ApartFrom(Inserted(a, k, x), y) <==> ApartFrom(a, y) && Apart(x, y)
  {
    var c := Inserted(a, k, x);
    assert c[k] == x && forall i :: 0 <= i < |a| ==> a[i] == c[if i < k then i else i + 1];
  }

  /** In sorted ranges an overlap anywhere is an overlap of neighbours. */
  method NeighboursApart(sorted: seq<Range>) returns (apart: bool)
    requires Nonempty(sorted) && Ordered(sorted)
    ensures apart == AllApart(sorted)
  {
    if sorted == [] {
      return true;
    }
    for n := 1 to |sorted|
      invariant AllApart(sorted[..n])
    {
      if sorted[n].start < sorted[n - 1].end {
        assert !Apart(sorted[n - 1], sorted[n]);
        return false;
      }
      ApartFromAll(sorted, n);
    }
    assert sorted[..|sorted|] == sorted;
    return true;
  }

  lemma ApartFromAll(sorted: seq<Range>, n: nat)
    requires 1 <= n < |sorted| && AllApart(sorted[..n]) && sorted[n - 1].end <= sorted[n].start
    requires Nonempty(sorted) && Ordered(sorted)
    ensures AllApart(sorted[..n + 1])
  {
    forall i | 0 <= i < n ensures Apart(sorted[i], sorted[n]) {
      if i < n - 1 {
        assert Apart(sorted[..n][i], sorted[..n][n - 1]);
      }
    }
    assert sorted[..n + 1] == sorted[..n] + [sorted[n]];
  }

  lemma PhraseRanges(text: string, phrases: seq<string>)
    requires forall phrase :: phrase in phrases ==> phrase != "" && FirstFrom(text, phrase, 0) >= 0
    ensures Nonempty(Ranges(text, phrases))
  {
    forall i | 0 <= i < |phrases| ensures Ranges(text, phrases)[i].start < Ranges(text, phrases)[i].end {
      assert phrases[i] in phrases;
    }
  }

  method CheckEmphasis(r: Rules, text: string, raws: seq<string>) returns (good: bool)
    ensures good == EmphasisGood(r, text, raws)
  {
    var phrases := Clean(r, raws);
    if |raws| > 3 || exists i :: 0 <= i < |raws| && !StrictText(r, raws[i], 200) {
      return false;
    }
    if !NoRepeats(phrases) || exists i :: 0 <= i < |phrases| && FirstFrom(text, phrases[i], 0) < 0 {
      return false;
    }
    PhraseRanges(text, phrases);
    var sorted := SortRanges(Ranges(text, phrases));
    good := NeighboursApart(sorted);
  }

  // ----------------------------------------------------------------------- the walk

  lemma TakenIsRefused(r: Rules, c: Context, node: Node, tag: Option<Label>)
    requires node.id in c.ids
    ensures Step(r, c, Text(node, tag)).None?
  {}

  class Walker {
    const r: Rules
    const validated: set<string>
    var ids: set<string>
    var visibleCopy: map<string, seq<Option<Label>>>
    var used: set<string>
    var emphasisCount: nat
    var emphasisCharacters: nat
    var visibleCharacters: nat
    var nodeCount: nat

    constructor (r: Rules, validated: set<string>)
      ensures Value() == EMPTY && this.r == r && this.validated == validated
    {
      this.r, this.validated := r, validated;
      ids, visibleCopy, used := {}, map[], {};
      emphasisCount, emphasisCharacters, visibleCharacters, nodeCount := 0, 0, 0, 0;
    }

    ghost function Value(): Context
      reads this
    {
      Context(ids, visibleCopy, used, emphasisCount, emphasisCharacters, visibleCharacters, nodeCount)
    }

    predicate FinalChecks()
      reads this
      ensures FinalChecks() == FinalGood(Value(), validated)
    {
      && emphasisCount <= 18
      && 5 * emphasisCharacters <= (if visibleCharacters == 0 then 1 else visibleCharacters)
      && validated <= used
    }

    /** The id of a section or an entry. */
    method TakeId(raw: string) returns (id: Option<string>)
      modifies this
      ensures id.Some? <==> Identifier(r, raw) && Step(r, old(Value()), Id(r.normalize(raw))).Some?
      ensures id.Some? ==> id.value == r.normalize(raw) && Step(r, old(Value()), Id(id.value)) == Some(Value())
    {
      if !Identifier(r, raw) || r.normalize(raw) in ids {
        return None;
      }
      ids := ids + {r.normalize(raw)};
      return Some(r.normalize(raw));
    }

    /** The second half of content_node: the copy and the sizes.  The id is in the record already. */
    method RecordCopy(node: Node, tag: Option<Label>, ghost before: Context) returns (ok: bool)
      requires node.id !in before.ids && Value() == before.(ids := before.ids + {node.id})
      modifies `visibleCopy, `used, `emphasisCount, `emphasisCharacters, `visibleCharacters, `nodeCount
      ensures ok == Step(r, before, Text(node, tag)).Some?
      ensures ok ==> Step(r, before, Text(node, tag)) == Some(Value())
    {
      hide PermittedRepeat, Lengths, Set;
      var key := r.casefold(node.text);
      var prior := if key in visibleCopy then visibleCopy[key] else [];
      if prior != [] && !PermittedRepeat(prior, tag) {
        return false;
      }
      visibleCopy := visibleCopy[key := prior + [tag]];
      used := used + Set(node.claimIds);
      emphasisCount := emphasisCount + |node.emphasis|;
      emphasisCharacters := emphasisCharacters + Lengths(node.emphasis);
      visibleCharacters := visibleCharacters + |node.text|;
      nodeCount := nodeCount + 1;
      ok := nodeCount <= MAX_AST_NODES && visibleCharacters <= MAX_AST_VISIBLE_CHARS;
    }

    /** content_node. */
    method ContentNode(raw: RawNode, maximum: nat, tag: Option<Label>) returns (node: Option<Node>)
      modifies this
      ensures node.Some? <==>
        NodeGood(r, raw, maximum, validated) && Step(r, old(Value()), Text(CleanNode(r, raw), tag)).Some?
      ensures node.Some? ==>
        node.value == CleanNode(r, raw) && Step(r, old(Value()), Text(node.value, tag)) == Some(Value())
    {
      hide Identifier, StrictText, ClaimsGood, EmphasisGood, Clean;
      ghost var before := Value();
      if !Identifier(r, raw.id) {
        return None;
      }
      var id := r.normalize(raw.id);
      if id in ids {
        TakenIsRefused(r, before, CleanNode(r, raw), tag);
        return None;
      }
      hide Step;
      ids := ids + {id};
      if !StrictText(r, raw.text, maximum) {
        return None;
      }
      var value := r.normalize(raw.text);
      var claims := Clean(r, raw.claimIds);
      if !ClaimsGood(r, raw.claimIds, validated) {
        return None;
      }
      var restrained := CheckEmphasis(r, value, raw.emphasis);
      if !restrained {
        return None;
      }
      var clean := Node(id, value, claims, Clean(r, raw.emphasis));
      var recorded := RecordCopy(clean, tag, before);
      return if recorded then Some(clean) else None;
    }

    /** A list of nodes; `first` is the label of the first. */
    method ContentNodes(raws: seq<RawNode>, maximum: nat, first: Option<Label>) returns (nodes: Option<seq<Node>>)
      modifies this
      ensures nodes.Some? <==>
        NodesGood(r, raws, maximum, validated) && Run(r, old(Value()), NodeItems(CleanNodes(r, raws), first)).Some?
      ensures nodes.Some? ==>
        nodes.value == CleanNodes(r, raws) && Run(r, old(Value()), NodeItems(nodes.value, first)) == Some(Value())
    {
      hide NodeGood, Step, CleanNode, NodesGood;
      ghost var start := Value();
      ghost var items := NodeItems(CleanNodes(r, raws), first);
      NoNodes(r, validated, maximum);
      var checked: seq<Node> := [];
      for n := 0 to |raws|
        invariant checked == CleanNodes(r, raws)[..n]
        invariant NodesGood(r, raws[..n], maximum, validated) && Run(r, start, items[..n]) == Some(Value())
      {
        NodesStep(r, validated, start, raws, maximum, first, n);
        var node := ContentNode(raws[n], maximum, if n == 0 then first else None);
        if node.None? {
          NodesStop(r, validated, start, raws, maximum, first, n + 1);
          return None;
        }
        checked := checked + [node.value];
      }
      assert raws[..|raws|] == raws && items[..|items|] == items;
      return Some(checked);
    }

    method CheckEntry(raw: RawEntry, kind: Kind, placement: Placement) returns (entry: Option<Entry>)
      modifies this
      ensures entry.Some? <==>
        EntryGood(r, raw, validated) && Run(r, old(Value()), EntryItems(CleanEntry(r, raw), kind, placement)).Some?
      ensures entry.Some? ==>
        entry.value == CleanEntry(r, raw) && Run(r, old(Value()), EntryItems(entry.value, kind, placement))
          == Some(Value())
    {
      EntryInParts(r, Value(), CleanEntry(r, raw), kind, placement);
      hide Identifier, NodesGood, Run, Step, EntryItems;
      var id := TakeId(raw.id);
      if id.None? || !(1 <= |raw.header| <= 5) || |raw.body| > 12 {
        return None;
      }
      var header := ContentNodes(raw.header, 500, LabelAt(kind, placement));
      if header.None? {
        return None;
      }
      var body := ContentNodes(raw.body, 1_200, None);
      if body.None? {
        return None;
      }
      return Some(Entry(id.value, header.value, body.value));
    }

    method CheckEntries(raws: seq<RawEntry>, kind: Kind, placement: Placement) returns (entries: Option<seq<Entry>>)
      modifies this
      ensures entries.Some? <==>
        (forall raw :: raw in raws ==> EntryGood(r, raw, validated))
        && Run(r, old(Value()), EntriesItems(CleanEntries(r, raws), kind, placement)).Some?
      ensures entries.Some? ==>
        entries.value == CleanEntries(r, raws)
          && Run(r, old(Value()), EntriesItems(entries.value, kind, placement)) == Some(Value())
    {
      hide EntryGood, CleanEntry, EntryItems, EntriesItems, CleanEntries, Run, Step;
      ghost var start := Value();
      var checked: seq<Entry> := [];
      NoEntries(r, start, kind, placement);
      assert raws[..0] == [];
      for n := 0 to |raws|
        invariant checked == CleanEntries(r, raws[..n])
        invariant forall i :: 0 <= i < n ==> EntryGood(r, raws[i], validated)
        invariant Run(r, start, EntriesItems(checked, kind, placement)) == Some(Value())
      {
        EntriesStep(r, start, raws, kind, placement, n);
        var entry := CheckEntry(raws[n], kind, placement);
        if entry.None? {
          assert raws[n] in raws;
          EntriesStop(r, start, raws, kind, placement, n + 1);
          return None;
        }
        checked := checked + [entry.value];
      }
      assert raws[..|raws|] == raws;
      return Some(checked);
    }

    method CheckSection(raw: RawSection) returns (section: Option<Section>)
      modifies this
      ensures section.Some? <==>
        SectionGood(r, raw, validated) && Run(r, old(Value()), SectionItems(CleanSection(r, raw))).Some?
      ensures section.Some? ==>
        section.value == CleanSection(r, raw) && Run(r, old(Value()), SectionItems(section.value)) == Some(Value())
    {
      hide Identifier, StrictText, EntryGood, Step, EntriesItems, CleanEntry;
      ghost var start := Value();
      var id := TakeId(raw.id);
      if id.None? {
        if Placeable(r, raw) {
          SectionInParts(r, start, CleanSection(r, raw));
        }
        return None;
      }
      if !StrictText(r, raw.title, 120) || !StrictText(r, raw.kind, 40) || !StrictText(r, raw.placement, 40) {
        return None;
      }
      var kind, placement := KindOf(r.normalize(raw.kind)), PlacementOf(r.normalize(raw.placement));
      if kind.None? || placement.None? || !(1 <= |raw.entries| <= 20) {
        return None;
      }
      SectionInParts(r, start, CleanSection(r, raw));
      var entries := CheckEntries(raw.entries, kind.value, placement.value);
      if entries.None? {
        return None;
      }
      var checked := Section(id.value, r.normalize(raw.title), kind.value, placement.value, entries.value);
      StructureIsWellFormed(r, raw, validated);
      hide WellFormedSection, StructureGood;
      if !StructureGood(checked) {
        return None;
      }
      return Some(checked);
    }

    method CheckSections(raws: seq<RawSection>) returns (sections: Option<seq<Section>>)
      modifies this
      ensures sections.Some? ==> SectionsGood(r, raws, validated)
      ensures SectionsGood(r, raws, validated) ==> forall raw :: raw in raws ==> Placeable(r, raw)
      ensures sections.None? && SectionsGood(r, raws, validated) ==>
        Run(r, old(Value()), SectionsItems(CleanSections(r, raws))).None?
      ensures sections.Some? ==>
        sections.value == CleanSections(r, raws) && Run(r, old(Value()), SectionsItems(sections.value)) == Some(Value())
    {
      hide Step, SectionItems, CleanSection, SectionGood;
      ghost var start := Value();
      var checked: seq<Section> := [];
      for n := 0 to |raws|
        invariant SectionsGood(r, raws[..n], validated) && (forall raw :: raw in raws[..n] ==> Placeable(r, raw))
        invariant checked == CleanSections(r, raws[..n])
        invariant Run(r, start, SectionsItems(checked)) == Some(Value())
      {
        SectionsStep(r, start, raws, validated, n);
        var section := CheckSection(raws[n]);
        if section.None? {
          SectionsStop(r, start, raws, validated, n + 1);
          return None;
        }
        checked := checked + [section.value];
      }
      assert raws[..|raws|] == raws;
      return Some(checked);
    }
  }

  lemma StructureIsWellFormed(r: Rules, raw: RawSection, validated: set<string>)
    requires Placeable(r, raw) && 1 <= |raw.entries| <= 20
      && forall entry :: entry in raw.entries ==> EntryGood(r, entry, validated)
    ensures WellFormedSection(CleanSection(r, raw)) <==> StructureGood(CleanSection(r, raw))
  {
    hide Identifier, NodesGood, KindOf, PlacementOf;
    var s := CleanSection(r, raw);
    forall i | 0 <= i < |s.entries| ensures WellFormedEntry(s.entries[i]) {
      assert raw.entries[i] in raw.entries;
    }
    assert forall i :: 0 <= i < |s.entries| ==> s.entries[i] in s.entries;
  }

  lemma SectionsStep(r: Rules, start: Context, raws: seq<RawSection>, validated: set<string>, n: nat)
    requires n < |raws|
    ensures SectionsGood(r, raws[..n + 1], validated)
      <==> SectionsGood(r, raws[..n], validated) && SectionGood(r, raws[n], validated)
    ensures SectionsGood(r, raws[..n + 1], validated) ==>
      && Placeable(r, raws[n]) && (forall raw :: raw in raws[..n + 1] ==> Placeable(r, raw))
      && CleanSections(r, raws[..n + 1]) == CleanSections(r, raws[..n]) + [CleanSection(r, raws[n])]
      && var before := Run(r, start, SectionsItems(CleanSections(r, raws[..n])));
         Run(r, start, SectionsItems(CleanSections(r, raws[..n + 1])))
         == if before.None? then None else Run(r, before.value, SectionItems(CleanSection(r, raws[n])))
  {
    assert raws[..n + 1] == raws[..n] + [raws[n]];
    if SectionsGood(r, raws[..n + 1], validated) {
      PartsArePlaceable(r, raws[..n + 1], validated);
      assert raws[n] in raws[..n + 1];
      hide SectionGood, CleanSection, SectionItems, Placeable, Step;
      var a, b := CleanSections(r, raws[..n]), CleanSections(r, raws[..n + 1]);
      assert b == a + [CleanSection(r, raws[n])];
      assert b[..|b| - 1] == a;
      RunConcat(r, start, SectionsItems(a), SectionItems(CleanSection(r, raws[n])));
    }
  }

  lemma GoodBeginning(r: Rules, raws: seq<RawSection>, validated: set<string>, n: nat)
    requires n <= |raws| && SectionsGood(r, raws, validated)
    ensures SectionsGood(r, raws[..n], validated) && forall raw :: raw in raws[..n] ==> Placeable(r, raw)
  {}

  /** Sections whose beginning is refused are refused. */
  lemma {:induction false} SectionsStop(r: Rules, start: Context, raws: seq<RawSection>, validated: set<string>, n: nat)
    requires n <= |raws|
    ensures SectionsGood(r, raws, validated) ==>
      && SectionsGood(r, raws[..n], validated) && (forall raw :: raw in raws ==> Placeable(r, raw))
      && (Run(r, start, SectionsItems(CleanSections(r, raws[..n]))).None?
          ==> Run(r, start, SectionsItems(CleanSections(r, raws))).None?)
    decreases |raws| - n
  {
    if SectionsGood(r, raws, validated) {
      GoodBeginning(r, raws, validated, |raws|);
      GoodBeginning(r, raws, validated, n);
      if n == |raws| {
        assert raws[..n] == raws;
      } else {
        GoodBeginning(r, raws, validated, n + 1);
        hide SectionsItems, CleanSections, Run, SectionGood, Placeable;
        SectionsStep(r, start, raws, validated, n);
        SectionsStop(r, start, raws, validated, n + 1);
      }
    }
  }

  /** The rules for experience entries and metric cards. */
  predicate StructureGood(s: Section) {
    && (s.kind == Experience && s.placement == Main ==>
          !exists i :: 0 <= i < |s.entries| && (|s.entries[i].header| != 2 || |s.entries[i].body| > 3))
    && (s.kind == Metrics ==>
          !(s.placement != Sidebar || !(2 <= |s.entries| <= 4)
            || exists i :: 0 <= i < |s.entries| && (|s.entries[i].header| != 1 || |s.entries[i].body| != 1)))
  }

  lemma RunThree(r: Rules, c: Context, item: Item, b: seq<Item>, d: seq<Item>)
    ensures Run(r, c, [item] + b + d) ==
      if Step(r, c, item).None? then None
      else if Run(r, Step(r, c, item).value, b).None? then None
      else Run(r, Run(r, Step(r, c, item).value, b).value, d)
  {
    RunConcat(r, c, [item], b);
    RunConcat(r, c, [item] + b, d);
    RunOne(r, c, item);
  }

  lemma EntryInParts(r: Rules, c: Context, e: Entry, kind: Kind, placement: Placement)
    ensures var header, body := NodeItems(e.header, LabelAt(kind, placement)), NodeItems(e.body, None);
      Run(r, c, EntryItems(e, kind, placement)) ==
        if Step(r, c, Id(e.id)).None? then None
        else if Run(r, Step(r, c, Id(e.id)).value, header).None? then None
        else Run(r, Run(r, Step(r, c, Id(e.id)).value, header).value, body)
  {
    RunThree(r, c, Id(e.id), NodeItems(e.header, LabelAt(kind, placement)), NodeItems(e.body, None));
  }

  lemma SectionInParts(r: Rules, c: Context, s: Section)
    ensures Run(r, c, SectionItems(s)) ==
      if Step(r, c, Id(s.id)).None? then None
        else Run(r, Step(r, c, Id(s.id)).value, EntriesItems(s.entries, s.kind, s.placement))
  {
    RunConcat(r, c, [Id(s.id)], EntriesItems(s.entries, s.kind, s.placement));
    RunOne(r, c, Id(s.id));
  }

  lemma EntriesStep(r: Rules, start: Context, raws: seq<RawEntry>, kind: Kind, placement: Placement, n: nat)
    requires n < |raws|
    ensures CleanEntries(r, raws[..n + 1]) == CleanEntries(r, raws[..n]) + [CleanEntry(r, raws[n])]
    ensures var before := Run(r, start, EntriesItems(CleanEntries(r, raws[..n]), kind, placement));
      Run(r, start, EntriesItems(CleanEntries(r, raws[..n + 1]), kind, placement)) ==
        if before.None? then None else Run(r, before.value, EntryItems(CleanEntry(r, raws[n]), kind, placement))
  {
    hide CleanEntry, EntryItems, Step;
    var a, b := CleanEntries(r, raws[..n]), CleanEntries(r, raws[..n + 1]);
    assert b == a + [CleanEntry(r, raws[n])];
    assert b[..|b| - 1] == a;
    RunConcat(r, start, EntriesItems(a, kind, placement), EntryItems(CleanEntry(r, raws[n]), kind, placement));
  }

  /** Entries whose beginning is refused are refused. */
  lemma {:induction false} EntriesStop(r: Rules, start: Context, raws: seq<RawEntry>, kind: Kind, placement: Placement,
      n: nat)
    requires n <= |raws|
    ensures Run(r, start, EntriesItems(CleanEntries(r, raws[..n]), kind, placement)).None?
      ==> Run(r, start, EntriesItems(CleanEntries(r, raws), kind, placement)).None?
    decreases |raws| - n
  {
    if n == |raws| {
      assert raws[..n] == raws;
    } else {
      hide EntriesItems, CleanEntries, Run;
      EntriesStep(r, start, raws, kind, placement, n);
      EntriesStop(r, start, raws, kind, placement, n + 1);
    }
  }

  lemma NoEntries(r: Rules, start: Context, kind: Kind, placement: Placement)
    ensures CleanEntries(r, []) == [] && Run(r, start, EntriesItems([], kind, placement)) == Some(start)
  {}

  lemma NoNodes(r: Rules, validated: set<string>, maximum: nat)
    ensures NodesGood(r, [], maximum, validated)
  {}

  /** One more node of a list. */
  lemma NodesStep(r: Rules, validated: set<string>, start: Context, raws: seq<RawNode>, maximum: nat,
      first: Option<Label>, n: nat)
    requires n < |raws|
    ensures var items := NodeItems(CleanNodes(r, raws), first);
      && (NodesGood(r, raws[..n + 1], maximum, validated) <==>
            NodesGood(r, raws[..n], maximum, validated) && NodeGood(r, raws[n], maximum, validated))
      && items[n] == Text(CleanNode(r, raws[n]), if n == 0 then first else None)
      && Run(r, start, items[..n + 1]) ==
           if Run(r, start, items[..n]).None? then None else Step(r, Run(r, start, items[..n]).value, items[n])
  {
    hide NodesGood, NodeGood, Run, Step, CleanNode;
    NodesGoodMore(r, validated, raws, maximum, n);
    RunMore(r, start, NodeItems(CleanNodes(r, raws), first), n);
  }

  lemma NodesGoodMore(r: Rules, validated: set<string>, raws: seq<RawNode>, maximum: nat, n: nat)
    requires n < |raws|
    ensures NodesGood(r, raws[..n + 1], maximum, validated)
      <==> NodesGood(r, raws[..n], maximum, validated) && NodeGood(r, raws[n], maximum, validated)
  {
    hide NodeGood;
    assert raws[..n + 1] == raws[..n] + [raws[n]];
  }

  lemma RunMore(r: Rules, start: Context, items: seq<Item>, n: nat)
    requires n < |items|
    ensures Run(r, start, items[..n + 1]) ==
      if Run(r, start, items[..n]).None? then None else Step(r, Run(r, start, items[..n]).value, items[n])
  {
    hide Step;
    assert items[..n + 1][..n] == items[..n];
  }

  /** A list that fails early fails. */
  lemma NodesStop(r: Rules, validated: set<string>, start: Context, raws: seq<RawNode>, maximum: nat,
      first: Option<Label>, n: nat)
    requires n <= |raws|
    requires !(NodesGood(r, raws[..n], maximum, validated)
      && Run(r, start, NodeItems(CleanNodes(r, raws), first)[..n]).Some?)
    ensures !(NodesGood(r, raws, maximum, validated) && Run(r, start, NodeItems(CleanNodes(r, raws), first)).Some?)
  {
    var items := NodeItems(CleanNodes(r, raws), first);
    assert items == items[..n] + items[n..];
    RunConcat(r, start, items[..n], items[n..]);
    hide NodeGood, Step, CleanNode;
  }

  // -------------------------------------------------------------------- the document

  lemma DocumentInParts(r: Rules, ast: Ast)
    ensures Run(r, EMPTY, AstItems(ast)) ==
      if Run(r, EMPTY, NodeItems(FrontNodes(ast), None)).None? then None
      else Run(r, Run(r, EMPTY, NodeItems(FrontNodes(ast), None)).value, SectionsItems(ast.sections))
  {
    RunConcat(r, EMPTY, NodeItems(FrontNodes(ast), None), SectionsItems(ast.sections));
  }

  function SummaryRaws(raw: RawAst): seq<RawNode> { if raw.summary.Some? then [raw.summary.value] else [] }

  /** The nodes ahead of the sections. */
  function CleanFront(r: Rules, raw: RawAst): seq<Node> {
    [CleanNode(r, raw.name), CleanNode(r, raw.headline)] + CleanNodes(r, raw.contact) + CleanNodes(r, SummaryRaws(raw))
  }

  predicate FrontNodesGood(r: Rules, raw: RawAst, validated: set<string>) {
    && NodeGood(r, raw.name, 240, validated) && NodeGood(r, raw.headline, 320, validated)
    && NodesGood(r, raw.contact, 320, validated) && NodesGood(r, SummaryRaws(raw), 1_200, validated)
  }

  /** One list after the other. */
  lemma FrontInParts(r: Rules, c: Context, raw: RawAst)
    ensures Run(r, c, NodeItems(CleanFront(r, raw), None)) ==
      Run4(r, c, Text(CleanNode(r, raw.name), None), Text(CleanNode(r, raw.headline), None),
           NodeItems(CleanNodes(r, raw.contact), None), NodeItems(CleanNodes(r, SummaryRaws(raw)), None))
  {
    hide CleanNode, Run, Step;
    var a, b := Text(CleanNode(r, raw.name), None), Text(CleanNode(r, raw.headline), None);
    var contact, summary := NodeItems(CleanNodes(r, raw.contact), None),
      NodeItems(CleanNodes(r, SummaryRaws(raw)), None);
    assert NodeItems(CleanFront(r, raw), None) == [a] + [b] + contact + summary;
    RunThree(r, c, a, [b], contact + summary);
    assert [a] + [b] + (contact + summary) == [a] + [b] + contact + summary;
    if Step(r, c, a).Some? {
      var next := Step(r, c, a).value;
      RunOne(r, next, b);
      if Step(r, next, b).Some? {
        RunConcat(r, Step(r, next, b).value, contact, summary);
      }
    }
  }

  function Run4(r: Rules, c: Context, a: Item, b: Item, d: seq<Item>, e: seq<Item>): Option<Context> {
    var one := Step(r, c, a);
    if one.None? then None
    else
      var two := Step(r, one.value, b);
      if two.None? then None
      else
        var three := Run(r, two.value, d);
        if three.None? then None else Run(r, three.value, e)
  }

  method CheckFront(walker: Walker, raw: RawAst) returns (front: Option<(Candidate, Option<Node>)>)
    modifies walker
    ensures front.Some? <==>
      FrontNodesGood(walker.r, raw, walker.validated)
      && Run(walker.r, old(walker.Value()), NodeItems(CleanFront(walker.r, raw), None)).Some?
    ensures front.Some? ==>
      && front.value.0 == Candidate(CleanNode(walker.r, raw.name), CleanNode(walker.r, raw.headline),
        CleanNodes(walker.r, raw.contact))
      && front.value.1 == (if raw.summary.Some? then Some(CleanNode(walker.r, raw.summary.value)) else None)
      && Run(walker.r, old(walker.Value()), NodeItems(CleanFront(walker.r, raw), None)) == Some(walker.Value())
  {
    FrontInParts(walker.r, walker.Value(), raw);
    hide NodeGood, NodesGood, CleanFront, Run, Step, CleanNode;
    var name := walker.ContentNode(raw.name, 240, None);
    if name.None? {
      return None;
    }
    var headline := walker.ContentNode(raw.headline, 320, None);
    if headline.None? {
      return None;
    }
    var contact := walker.ContentNodes(raw.contact, 320, None);
    if contact.None? {
      return None;
    }
    var summary := walker.ContentNodes(SummaryRaws(raw), 1_200, None);
    if summary.None? {
      return None;
    }
    return Some((Candidate(name.value, headline.value, contact.value),
                 if raw.summary.Some? then Some(summary.value[0]) else None));
  }

  lemma FrontGoodInParts(r: Rules, raw: RawAst, validated: set<string>)
    ensures FrontGood(r, raw, validated) <==>
      && raw.version == VERSION && raw.pagePreference in {1, 2} && |raw.contact| <= 5 && 1 <= |raw.sections| <= 12
      && FrontNodesGood(r, raw, validated)
  {
    hide NodeGood;
    assert raw.summary.Some? ==> raw.summary.value in SummaryRaws(raw);
  }

  lemma FrontOfAst(r: Rules, raw: RawAst)
    requires forall section :: section in raw.sections ==> Placeable(r, section)
    ensures FrontNodes(CleanAst(r, raw)) == CleanFront(r, raw)
  {
    hide CleanNode, CleanSections, Placeable;
  }

  /** The whole walk: the nodes ahead of the sections, then the sections. */
  lemma WalkInParts(r: Rules, raw: RawAst, validated: set<string>)
    requires SectionsGood(r, raw.sections, validated)
    ensures forall section :: section in raw.sections ==> Placeable(r, section)
    ensures var front := Run(r, EMPTY, NodeItems(CleanFront(r, raw), None));
      Run(r, EMPTY, AstItems(CleanAst(r, raw))) ==
        if front.None? then None else Run(r, front.value, SectionsItems(CleanSections(r, raw.sections)))
  {
    PartsArePlaceable(r, raw.sections, validated);
    hide Run, CleanSections, CleanFront, NodeItems, SectionsItems, AstItems, SectionGood, Placeable, CleanNode,
      CleanNodes, FrontNodes;
    FrontOfAst(r, raw);
    DocumentInParts(r, CleanAst(r, raw));
  }

  /** validate_ast: None stands for any of its errors. */
  method ValidateAst(r: Rules, raw: RawAst, claims: seq<string>) returns (ast: Option<Ast>)
    ensures ast == Validated(r, raw, claims)
  {
    hide FrontNodesGood, FrontGood, SectionsGood, Run, BodyGood, SectionsItems, CleanNode, CleanNodes, Placeable,
      ClaimListGood, CleanFront, AstItems, Set, FinalGood;
    if !ClaimListGood(r, claims) {
      return None;
    }
    var validated := Set(Clean(r, claims));
    FrontGoodInParts(r, raw, validated);
    if raw.version != VERSION || raw.pagePreference !in {1, 2} || |raw.contact| > 5 {
      return None;
    }
    var walker := new Walker(r, validated);
    if SectionsGood(r, raw.sections, validated) {
      WalkInParts(r, raw, validated);
    }
    var front := CheckFront(walker, raw);
    if front.None? || !(1 <= |raw.sections| <= 12) {
      return None;
    }
    var sections := walker.CheckSections(raw.sections);
    if sections.None? || !BodyGood(sections.value) {
      return None;
    }
    if !walker.FinalChecks() {
      return None;
    }
    return Some(Ast(front.value.0, front.value.1, sections.value, raw.pagePreference));
  }
}
