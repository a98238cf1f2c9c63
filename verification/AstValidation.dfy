/** validate_ast (resume-renderer-v2/app.py): the tree walked node by node with one running
    context, and what an accepted tree is. */
module AstValidation {
  import opened Basics
  import opened Resume
  import opened AstRules

  const VERSION: string := "raydar.resume.ast.v1"

  function KindOf(text: string): Option<Kind> {
    if text == "experience" then Some(Experience) else if text == "projects" then Some(Projects)
    else if text == "education" then Some(Education) else if text == "skills" then Some(Skills)
    else if text == "details" then Some(Details) else if text == "metrics" then Some(Metrics)
    else if text == "custom" then Some(Custom) else None
  }

  function PlacementOf(text: string): Option<Placement> {
    if text == "main" then Some(Main) else if text == "sidebar" then Some(Sidebar) else None
  }

  /** The label of an entry's first header node. */
  function LabelAt(kind: Kind, placement: Placement): Option<Label> {
    if kind == Experience && placement == Main then Some(Employer)
    else if kind == Education then Some(School)
    else None
  }

  // -------------------------------------------------------- the document in order

  function NodeItems(nodes: seq<Node>, first: Option<Label>): (items: seq<Item>)
    ensures |items| == |nodes|
    ensures forall i :: 0 <= i < |nodes| ==> items[i] == Text(nodes[i], if i == 0 then first else None)
  {
    seq(|nodes|, i requires 0 <= i < |nodes| => Text(nodes[i], if i == 0 then first else None))
  }

  function EntryItems(e: Entry, kind: Kind, placement: Placement): seq<Item> {
    [Id(e.id)] + NodeItems(e.header, LabelAt(kind, placement)) + NodeItems(e.body, None)
  }

  function EntriesItems(entries: seq<Entry>, kind: Kind, placement: Placement): seq<Item> {
    if entries == [] then []
    else EntriesItems(entries[..|entries| - 1], kind, placement) + EntryItems(entries[|entries| - 1], kind, placement)
  }

  function SectionItems(s: Section): seq<Item> { [Id(s.id)] + EntriesItems(s.entries, s.kind, s.placement) }

  function SectionsItems(sections: seq<Section>): seq<Item> {
    if sections == [] then [] else SectionsItems(sections[..|sections| - 1]) + SectionItems(sections[|sections| - 1])
  }

  function FrontNodes(ast: Ast): seq<Node> {
    [ast.candidate.name, ast.candidate.headline] + ast.candidate.contact
      + if ast.summary.Some? then [ast.summary.value] else []
  }

  function AstItems(ast: Ast): seq<Item> { NodeItems(FrontNodes(ast), None) + SectionsItems(ast.sections) }

  // ----------------------------------------------------------------- the cleaned tree

  function CleanNodes(r: Rules, raws: seq<RawNode>): (nodes: seq<Node>)
    ensures |nodes| == |raws| && forall i :: 0 <= i < |raws| ==> nodes[i] == CleanNode(r, raws[i])
  {
    seq(|raws|, i requires 0 <= i < |raws| => CleanNode(r, raws[i]))
  }

  function CleanEntry(r: Rules, raw: RawEntry): Entry {
    Entry(r.normalize(raw.id), CleanNodes(r, raw.header), CleanNodes(r, raw.body))
  }

  function CleanEntries(r: Rules, raws: seq<RawEntry>): (entries: seq<Entry>)
    ensures |entries| == |raws| && forall i :: 0 <= i < |raws| ==> entries[i] == CleanEntry(r, raws[i])
  {
    seq(|raws|, i requires 0 <= i < |raws| => CleanEntry(r, raws[i]))
  }

  predicate Placeable(r: Rules, raw: RawSection) {
    KindOf(r.normalize(raw.kind)).Some? && PlacementOf(r.normalize(raw.placement)).Some?
  }

  function CleanSection(r: Rules, raw: RawSection): Section
    requires Placeable(r, raw)
  {
    Section(r.normalize(raw.id), r.normalize(raw.title), KindOf(r.normalize(raw.kind)).value,
            PlacementOf(r.normalize(raw.placement)).value, CleanEntries(r, raw.entries))
  }

  function CleanSections(r: Rules, raws: seq<RawSection>): (sections: seq<Section>)
    requires forall raw :: raw in raws ==> Placeable(r, raw)
    ensures |sections| == |raws| && forall i :: 0 <= i < |raws| ==> sections[i] == CleanSection(r, raws[i])
  {
    seq(|raws|, i requires 0 <= i < |raws| => CleanSection(r, raws[i]))
  }

  function CleanAst(r: Rules, raw: RawAst): Ast
    requires forall section :: section in raw.sections ==> Placeable(r, section)
  {
    Ast(Candidate(CleanNode(r, raw.name), CleanNode(r, raw.headline), CleanNodes(r, raw.contact)),
        if raw.summary.Some? then Some(CleanNode(r, raw.summary.value)) else None,
        CleanSections(r, raw.sections), raw.pagePreference)
  }

  // ------------------------------------------------------- the checks part by part

  predicate NodesGood(r: Rules, raws: seq<RawNode>, maximum: nat, validated: set<string>) {
    forall raw :: raw in raws ==> NodeGood(r, raw, maximum, validated)
  }

  predicate EntryGood(r: Rules, raw: RawEntry, validated: set<string>) {
    && Identifier(r, raw.id) && 1 <= |raw.header| <= 5 && |raw.body| <= 12
    && NodesGood(r, raw.header, 500, validated) && NodesGood(r, raw.body, 1_200, validated)
  }

  predicate SectionGood(r: Rules, raw: RawSection, validated: set<string>) {
    && Identifier(r, raw.id) && StrictText(r, raw.title, 120) && StrictText(r, raw.kind, 40)
      && StrictText(r, raw.placement, 40)
    && Placeable(r, raw)
    && 1 <= |raw.entries| <= 20
    && (forall entry :: entry in raw.entries ==> EntryGood(r, entry, validated))
    && WellFormedSection(CleanSection(r, raw))
  }

  function ExperienceEntries(sections: seq<Section>): nat {
    if sections == [] then 0
    else
      var last := sections[|sections| - 1];
      ExperienceEntries(sections[..|sections| - 1])
      + if last.kind == Experience && last.placement == Main then |last.entries| else 0
  }

  predicate FrontGood(r: Rules, raw: RawAst, validated: set<string>) {
    && raw.version == VERSION && raw.pagePreference in {1, 2} && |raw.contact| <= 5
    && NodeGood(r, raw.name, 240, validated) && NodeGood(r, raw.headline, 320, validated)
    && NodesGood(r, raw.contact, 320, validated)
    && (raw.summary.Some? ==> NodeGood(r, raw.summary.value, 1_200, validated))
    && 1 <= |raw.sections| <= 12
  }

  predicate SectionsGood(r: Rules, raws: seq<RawSection>, validated: set<string>) {
    forall raw :: raw in raws ==> SectionGood(r, raw, validated)
  }

  predicate BodyGood(sections: seq<Section>) {
    (exists s :: s in sections && s.placement == Main) && ExperienceEntries(sections) <= 10
  }

  predicate ClaimListGood(r: Rules, claims: seq<string>) {
    claims != [] && (forall raw :: raw in claims ==> Identifier(r, raw)) && NoRepeats(Clean(r, claims))
  }

  /** The checks made when the whole tree has been seen: emphasis stays restrained, every validated
      claim is used. */
  predicate FinalGood(c: Context, validated: set<string>) {
    && c.emphasisCount <= 18
    && 5 * c.emphasisCharacters <= (if c.visibleCharacters == 0 then 1 else c.visibleCharacters)
    && validated <= c.used
  }

  function Validated(r: Rules, raw: RawAst, claims: seq<string>): Option<Ast> {
    var validated := Set(Clean(r, claims));
    if !ClaimListGood(r, claims) || !FrontGood(r, raw, validated) || !SectionsGood(r, raw.sections, validated) then None
    else
      var ast := CleanAst(r, raw);
      var seen := Run(r, EMPTY, AstItems(ast));
      if seen.None? || !BodyGood(ast.sections) || !FinalGood(seen.value, validated) then None else Some(ast)
  }

  // ----------------------------------------------------------- what is accepted

  function AstNodes(ast: Ast): seq<Node> { Nodes(AstItems(ast)) }

  /** A tree is accepted exactly when its parts are good one by one, its ids are all different, no
      copy repeats but for one employer and one school, its size and emphasis stay within bounds, and
      its nodes claim exactly what was validated. */
  lemma AcceptedExactly(r: Rules, raw: RawAst, claims: seq<string>)
    ensures var validated := Set(Clean(r, claims));
      Validated(r, raw, claims).Some? <==>
        && ClaimListGood(r, claims) && FrontGood(r, raw, validated) && SectionsGood(r, raw.sections, validated)
        && var ast := CleanAst(r, raw); var nodes := AstNodes(ast);
        && BodyGood(ast.sections)
        && NoRepeats(AllIds(AstItems(ast)))
        && AllCopiesGood(r, AstItems(ast))
        && |nodes| <= MAX_AST_NODES && VisibleCharacters(nodes) <= MAX_AST_VISIBLE_CHARS
        && EmphasisCount(nodes) <= 18
        && 5 * EmphasisCharacters(nodes) <= (if VisibleCharacters(nodes) == 0 then 1 else VisibleCharacters(nodes))
        && Claims(nodes) >= validated
    ensures Validated(r, raw, claims).Some? ==> Validated(r, raw, claims).value == CleanAst(r, raw)
  {
    var validated := Set(Clean(r, claims));
    hide ClaimListGood, FrontGood, BodyGood, AllIds, AllCopiesGood, NoRepeats, Claims, VisibleCharacters,
      EmphasisCount, EmphasisCharacters, AstItems, Nodes, Run, SectionGood;
    if SectionsGood(r, raw.sections, validated) {
      PartsArePlaceable(r, raw.sections, validated);
      RunExactly(r, AstItems(CleanAst(r, raw)));
    }
  }

  lemma PartsArePlaceable(r: Rules, raws: seq<RawSection>, validated: set<string>)
    requires SectionsGood(r, raws, validated)
    ensures forall raw :: raw in raws ==> Placeable(r, raw)
  {}

  /** What layout relies on. */
  lemma AcceptedIsWellFormed(r: Rules, raw: RawAst, claims: seq<string>)
    requires Validated(r, raw, claims).Some?
    ensures WellFormed(Validated(r, raw, claims).value)
  {
    var ast := Validated(r, raw, claims).value;
    var validated := Set(Clean(r, claims));
    hide WellFormedSection, Run, AstItems, FinalGood, ClaimListGood, NodeGood;
    forall s | s in ast.sections ensures WellFormedSection(s) {
      var i :| 0 <= i < |ast.sections| && ast.sections[i] == s;
      assert raw.sections[i] in raw.sections;
      assert SectionGood(r, raw.sections[i], validated);
    }
  }

  // ------------------------------------------------------------- claims, exactly

  /** Every node of a list of items claims validated claims only. */
  ghost predicate Within(items: seq<Item>, validated: set<string>) {
    forall item :: item in items && item.Text? ==> Set(item.node.claimIds) <= validated
  }

  lemma GoodNodesAreWithin(r: Rules, raws: seq<RawNode>, maximum: nat, first: Option<Label>, validated: set<string>)
    requires NodesGood(r, raws, maximum, validated)
    ensures Within(NodeItems(CleanNodes(r, raws), first), validated)
  {
    hide StrictText, Identifier, EmphasisGood;
    forall item | item in NodeItems(CleanNodes(r, raws), first) ensures Set(item.node.claimIds) <= validated {
      var i :| 0 <= i < |raws| && NodeItems(CleanNodes(r, raws), first)[i] == item;
      assert raws[i] in raws;
    }
  }

  lemma GoodEntryIsWithin(r: Rules, raw: RawEntry, kind: Kind, placement: Placement, validated: set<string>)
    requires EntryGood(r, raw, validated)
    ensures Within(EntryItems(CleanEntry(r, raw), kind, placement), validated)
  {
    GoodNodesAreWithin(r, raw.header, 500, LabelAt(kind, placement), validated);
    GoodNodesAreWithin(r, raw.body, 1_200, None, validated);
    hide NodesGood, CleanNodes, NodeItems;
  }

  lemma {:induction false} GoodEntriesAreWithin(r: Rules, raws: seq<RawEntry>, kind: Kind, placement: Placement,
      validated: set<string>)
    requires forall raw :: raw in raws ==> EntryGood(r, raw, validated)
    ensures Within(EntriesItems(CleanEntries(r, raws), kind, placement), validated)
  {
    if raws != [] {
      var n := |raws| - 1;
      GoodEntriesAreWithin(r, raws[..n], kind, placement, validated);
      GoodEntryIsWithin(r, raws[n], kind, placement, validated);
      hide EntryGood, EntryItems, CleanEntry;
      assert CleanEntries(r, raws)[..n] == CleanEntries(r, raws[..n]);
    }
  }

  lemma {:induction false} GoodSectionsAreWithin(r: Rules, raws: seq<RawSection>, validated: set<string>)
    requires SectionsGood(r, raws, validated) && forall raw :: raw in raws ==> Placeable(r, raw)
    ensures Within(SectionsItems(CleanSections(r, raws)), validated)
  {
    hide SectionGood, SectionItems, CleanSection, Placeable, Within;
    if raws == [] {
      NoSectionsWithin(r, validated);
    } else {
      var n := |raws| - 1;
      GoodSectionsAreWithin(r, raws[..n], validated);
      assert raws[n] in raws;
      OneSectionIsWithin(r, raws[n], validated);
      assert CleanSections(r, raws)[..n] == CleanSections(r, raws[..n]);
      BothWithin(SectionsItems(CleanSections(r, raws[..n])), SectionItems(CleanSection(r, raws[n])), validated);
    }
  }

  lemma NoSectionsWithin(r: Rules, validated: set<string>)
    ensures Within(SectionsItems(CleanSections(r, [])), validated)
  {}

  lemma BothWithin(a: seq<Item>, b: seq<Item>, validated: set<string>)
    requires Within(a, validated) && Within(b, validated)
    ensures Within(a + b, validated)
  {}

  lemma OneSectionIsWithin(r: Rules, raw: RawSection, validated: set<string>)
    requires SectionGood(r, raw, validated)
    ensures Within(SectionItems(CleanSection(r, raw)), validated)
  {
    var s := CleanSection(r, raw);
    hide WellFormedSection, EntryGood;
    GoodEntriesAreWithin(r, raw.entries, s.kind, s.placement, validated);
  }

  lemma FrontIsWithin(r: Rules, raw: RawAst, validated: set<string>)
    requires FrontGood(r, raw, validated) && forall section :: section in raw.sections ==> Placeable(r, section)
    ensures Within(NodeItems(FrontNodes(CleanAst(r, raw)), None), validated)
  {
    var raws := [raw.name, raw.headline] + raw.contact + if raw.summary.Some? then [raw.summary.value] else [];
    assert FrontNodes(CleanAst(r, raw)) == CleanNodes(r, raws);
    hide StrictText, Identifier, EmphasisGood;
    forall item | item in NodeItems(CleanNodes(r, raws), None) ensures Set(item.node.claimIds) <= validated {
      var i :| 0 <= i < |raws| && NodeItems(CleanNodes(r, raws), None)[i] == item;
      assert raws[i] in raws;
      assert exists maximum :: NodeGood(r, raws[i], maximum, validated);
    }
  }

  lemma {:induction false} WithinBounds(items: seq<Item>, validated: set<string>)
    requires Within(items, validated)
    ensures Claims(Nodes(items)) <= validated
  {
    if items != [] {
      var n := |items| - 1;
      WithinBounds(items[..n], validated);
      assert items[n] in items;
      if items[n].Text? {
        SumsOfMore(Nodes(items[..n]), items[n].node);
      }
    }
  }

  /** The claims of an accepted tree are exactly the validated claims. */
  lemma ClaimsAreExact(r: Rules, raw: RawAst, claims: seq<string>)
    requires Validated(r, raw, claims).Some?
    ensures Claims(AstNodes(Validated(r, raw, claims).value)) == Set(Clean(r, claims))
  {
    var validated := Set(Clean(r, claims));
    AcceptedExactly(r, raw, claims);
    PartsArePlaceable(r, raw.sections, validated);
    FrontIsWithin(r, raw, validated);
    GoodSectionsAreWithin(r, raw.sections, validated);
    var ast := CleanAst(r, raw);
    assert Within(AstItems(ast), validated);
    WithinBounds(AstItems(ast), validated);
  }
}
