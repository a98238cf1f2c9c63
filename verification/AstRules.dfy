/** What validate_ast asks of a resume tree (resume-renderer-v2/app.py): the checks on each node by
    itself, the running record of what has been seen, and what passing them all amounts to. */
module AstRules {
  import opened Basics
  import opened Resume

  const MAX_AST_NODES: nat := 500
  const MAX_AST_VISIBLE_CHARS: nat := 80_000

  /** Unicode normalization, banned copy and case folding are given. */
  datatype Rules = Rules(normalize: string -> string, banned: string -> bool, casefold: string -> string)

  datatype RawNode = RawNode(id: string, text: string, claimIds: seq<string>, emphasis: seq<string>)

  datatype RawEntry = RawEntry(id: string, header: seq<RawNode>, body: seq<RawNode>)

  datatype RawSection = RawSection(id: string, title: string, kind: string, placement: string, entries: seq<RawEntry>)

  datatype RawAst = RawAst(
    version: string, name: RawNode, headline: RawNode, contact: seq<RawNode>,
    summary: Option<RawNode>, sections: seq<RawSection>, pagePreference: int)

  datatype Label = Employer | School

  // ------------------------------------------------------------------ single texts

  predicate StrictText(r: Rules, raw: string, maximum: nat) {
    r.normalize(raw) != "" && |r.normalize(raw)| <= maximum && !r.banned(r.normalize(raw))
  }

  predicate Letter(c: char) { 'A' <= c <= 'Z' || 'a' <= c <= 'z' || '0' <= c <= '9' }

  predicate IdText(s: string) {
    s != "" && Letter(s[0]) && forall c :: c in s ==> Letter(c) || c == '.' || c == '_' || c == ':' || c == '-'
  }

  predicate Identifier(r: Rules, raw: string) { StrictText(r, raw, 200) && IdText(r.normalize(raw)) }

  function Clean(r: Rules, raws: seq<string>): (texts: seq<string>)
    ensures |texts| == |raws| && forall i :: 0 <= i < |raws| ==> texts[i] == r.normalize(raws[i])
  {
    seq(|raws|, i requires 0 <= i < |raws| => r.normalize(raws[i]))
  }

  function Set(texts: seq<string>): set<string> { set t | t in texts }

  // ---------------------------------------------------------------------- emphasis

  predicate At(text: string, phrase: string, i: nat) { i + |phrase| <= |text| && text[i..i + |phrase|] == phrase }

  /** The first place of a phrase at or after `from`, -1 when there is none. */
  function FirstFrom(text: string, phrase: string, from: nat): (i: int)
    ensures -1 <= i && (i >= 0 ==>
      from <= i && At(text, phrase, i) && forall j :: from <= j < i ==> !At(text, phrase, j))
    ensures i < 0 ==> forall j :: from <= j ==> !At(text, phrase, j)
    decreases |text| - from
  {
    if from + |phrase| > |text| then -1
    else if At(text, phrase, from) then from
    else FirstFrom(text, phrase, from + 1)
  }

  datatype Range = Range(start: int, end: int)

  function RangeOf(text: string, phrase: string): Range {
    var i := FirstFrom(text, phrase, 0);
    Range(i, i + |phrase|)
  }

  predicate Apart(a: Range, b: Range) { a.end <= b.start || b.end <= a.start }

  predicate AllApart(ranges: seq<Range>) { forall i, j :: 0 <= i < j < |ranges| ==> Apart(ranges[i], ranges[j]) }

  function Ranges(text: string, phrases: seq<string>): (ranges: seq<Range>)
    ensures |ranges| == |phrases| && forall i :: 0 <= i < |phrases| ==> ranges[i] == RangeOf(text, phrases[i])
  {
    seq(|phrases|, i requires 0 <= i < |phrases| => RangeOf(text, phrases[i]))
  }

  predicate EmphasisGood(r: Rules, text: string, raws: seq<string>) {
    var phrases := Clean(r, raws);
    && |raws| <= 3
    && (forall raw :: raw in raws ==> StrictText(r, raw, 200))
    && NoRepeats(phrases)
    && (forall phrase :: phrase in phrases ==> FirstFrom(text, phrase, 0) >= 0)
    && AllApart(Ranges(text, phrases))
  }

  // -------------------------------------------------------------- one node by itself

  predicate ClaimsGood(r: Rules, raws: seq<string>, validated: set<string>) {
    && raws != []
    && (forall raw :: raw in raws ==> Identifier(r, raw))
    && NoRepeats(Clean(r, raws))
    && Set(Clean(r, raws)) <= validated
  }

  predicate NodeGood(r: Rules, raw: RawNode, maximum: nat, validated: set<string>) {
    && Identifier(r, raw.id)
    && StrictText(r, raw.text, maximum)
    && ClaimsGood(r, raw.claimIds, validated)
    && EmphasisGood(r, r.normalize(raw.text), raw.emphasis)
  }

  function CleanNode(r: Rules, raw: RawNode): Node {
    Node(r.normalize(raw.id), r.normalize(raw.text), Clean(r, raw.claimIds), Clean(r, raw.emphasis))
  }

  // ----------------------------------------------------------------------- the record

  /** What is met in document order: the id of a section or entry, or a node with its label. */
  datatype Item = Id(id: string) | Text(node: Node, tag: Option<Label>)

  datatype Context = Context(
    ids: set<string>, copies: map<string, seq<Option<Label>>>, used: set<string>,
    emphasisCount: nat, emphasisCharacters: nat, visibleCharacters: nat, nodeCount: nat)

  const EMPTY: Context := Context({}, map[], {}, 0, 0, 0, 0)

  function Prior(c: Context, key: string): seq<Option<Label>> { if key in c.copies then c.copies[key] else [] }

  /** A repeat stands only when one is an employer label and the other a school label. */
  predicate PermittedRepeat(previous: seq<Option<Label>>, current: Option<Label>) {
    |previous| == 1 && current.Some? && previous[0].Some? && previous[0].value != current.value
  }

  function Lengths(texts: seq<string>): nat {
    if texts == [] then 0 else Lengths(texts[..|texts| - 1]) + |texts[|texts| - 1]|
  }

  /** Recording one item; None when the record refuses it. */
  function Step(r: Rules, c: Context, item: Item): Option<Context> {
    match item
    case Id(id) => if id in c.ids then None else Some(c.(ids := c.ids + {id}))
    case Text(node, tag) =>
      var key := r.casefold(node.text);
      var next := Context(
        c.ids + {node.id}, c.copies[key := Prior(c, key) + [tag]], c.used + Set(node.claimIds),
        c.emphasisCount + |node.emphasis|, c.emphasisCharacters + Lengths(node.emphasis),
        c.visibleCharacters + |node.text|, c.nodeCount + 1);
      if node.id in c.ids then None
      else if Prior(c, key) != [] && !PermittedRepeat(Prior(c, key), tag) then None
      else if next.nodeCount > MAX_AST_NODES || next.visibleCharacters > MAX_AST_VISIBLE_CHARS then None
      else Some(next)
  }

  function Run(r: Rules, c: Context, items: seq<Item>): Option<Context> {
    if items == [] then Some(c)
    else
      var before := Run(r, c, items[..|items| - 1]);
      if before.None? then None else Step(r, before.value, items[|items| - 1])
  }

  lemma {:induction false} RunConcat(r: Rules, c: Context, a: seq<Item>, b: seq<Item>)
    ensures Run(r, c, a + b) == if Run(r, c, a).None? then None else Run(r, Run(r, c, a).value, b)
  {
    if b == [] {
      assert a + b == a;
    } else {
      assert (a + b)[..|a + b| - 1] == a + b[..|b| - 1];
      RunConcat(r, c, a, b[..|b| - 1]);
    }
  }

  lemma RunOne(r: Rules, c: Context, item: Item)
    ensures Run(r, c, [item]) == Step(r, c, item)
  {
    assert [item][..0] == [];
    assert Run(r, c, []) == Some(c);
  }

  // ----------------------------------------------------------- sums over the document

  function ItemId(item: Item): string { if item.Id? then item.id else item.node.id }

  /** The ids of the document, in order. */
  function AllIds(items: seq<Item>): (ids: seq<string>)
    ensures |ids| == |items| && forall i :: 0 <= i < |items| ==> ids[i] == ItemId(items[i])
  {
    seq(|items|, i requires 0 <= i < |items| => ItemId(items[i]))
  }

  /** The labels under which one visible copy occurs, in order. */
  function Labels(r: Rules, items: seq<Item>, key: string): seq<Option<Label>> {
    if items == [] then []
    else
      var last := items[|items| - 1];
      Labels(r, items[..|items| - 1], key) + if last.Text? && r.casefold(last.node.text) == key then [last.tag] else []
  }

  function Nodes(items: seq<Item>): seq<Node> {
    if items == [] then []
    else
      var last := items[|items| - 1];
      Nodes(items[..|items| - 1]) + if last.Text? then [last.node] else []
  }

  function Claims(nodes: seq<Node>): set<string> {
    set node, claim | node in nodes && claim in node.claimIds :: claim
  }

  function VisibleCharacters(nodes: seq<Node>): nat {
    if nodes == [] then 0 else VisibleCharacters(nodes[..|nodes| - 1]) + |nodes[|nodes| - 1].text|
  }

  function EmphasisCount(nodes: seq<Node>): nat {
    if nodes == [] then 0 else EmphasisCount(nodes[..|nodes| - 1]) + |nodes[|nodes| - 1].emphasis|
  }

  function EmphasisCharacters(nodes: seq<Node>): nat {
    if nodes == [] then 0 else EmphasisCharacters(nodes[..|nodes| - 1]) + Lengths(nodes[|nodes| - 1].emphasis)
  }

  /** A copy occurs once, or twice as one employer and one school. */
  predicate CopiesGood(labels: seq<Option<Label>>) {
    |labels| <= 1 || (|labels| == 2 && {labels[0], labels[1]} == {Some(Employer), Some(School)})
  }

  ghost predicate AllCopiesGood(r: Rules, items: seq<Item>) { forall key :: CopiesGood(Labels(r, items, key)) }

  ghost predicate Good(r: Rules, items: seq<Item>) {
    && NoRepeats(AllIds(items))
    && AllCopiesGood(r, items)
    && |Nodes(items)| <= MAX_AST_NODES && VisibleCharacters(Nodes(items)) <= MAX_AST_VISIBLE_CHARS
  }

  /** The record agrees with the document so far. */
  ghost predicate Tallies(r: Rules, items: seq<Item>, c: Context) {
    && c.ids == Set(AllIds(items))
    && (forall key :: Prior(c, key) == Labels(r, items, key))
    && c.used == Claims(Nodes(items))
    && c.nodeCount == |Nodes(items)| && c.visibleCharacters == VisibleCharacters(Nodes(items))
    && c.emphasisCount == EmphasisCount(Nodes(items)) && c.emphasisCharacters == EmphasisCharacters(Nodes(items))
  }

  lemma PermittedExactly(previous: seq<Option<Label>>, current: Option<Label>)
    ensures CopiesGood(previous + [current]) <==> previous == [] || PermittedRepeat(previous, current)
  {
    if |previous| == 1 {
      assert {previous[0], current} == {Some(Employer), Some(School)} <==>
        current.Some? && previous[0].Some? && previous[0].value != current.value;
    }
  }

  lemma IdsOfMore(items: seq<Item>, item: Item)
    ensures Set(AllIds(items + [item])) == Set(AllIds(items)) + {ItemId(item)}
    ensures NoRepeats(AllIds(items + [item])) <==> NoRepeats(AllIds(items)) && ItemId(item) !in Set(AllIds(items))
  {
    var ids, more := AllIds(items), AllIds(items + [item]);
    assert more == ids + [ItemId(item)];
    assert forall i :: 0 <= i < |ids| ==> more[i] == ids[i];
    if NoRepeats(more) {
      forall i | 0 <= i < |ids| ensures ids[i] != ItemId(item) {
        assert more[i] != more[|ids|];
      }
    }
  }

  lemma LabelsOfMore(r: Rules, items: seq<Item>, item: Item, key: string)
    ensures Labels(r, items + [item], key)
      == if item.Text? && r.casefold(item.node.text) == key then Labels(r, items, key) + [item.tag]
        else Labels(r, items, key)
    ensures Nodes(items + [item]) == if item.Text? then Nodes(items) + [item.node] else Nodes(items)
  {
    assert (items + [item])[..|items|] == items;
  }

  lemma SumsOfMore(nodes: seq<Node>, node: Node)
    ensures VisibleCharacters(nodes + [node]) == VisibleCharacters(nodes) + |node.text|
    ensures EmphasisCount(nodes + [node]) == EmphasisCount(nodes) + |node.emphasis|
    ensures EmphasisCharacters(nodes + [node]) == EmphasisCharacters(nodes) + Lengths(node.emphasis)
    ensures Claims(nodes + [node]) == Claims(nodes) + Set(node.claimIds)
  {
    assert (nodes + [node])[..|nodes|] == nodes;
  }

  lemma CopiesOfMore(r: Rules, items: seq<Item>, item: Item)
    ensures AllCopiesGood(r, items + [item]) <==>
      && AllCopiesGood(r, items)
      && (item.Text? ==> CopiesGood(Labels(r, items, r.casefold(item.node.text)) + [item.tag]))
  {
    hide Labels;
    if AllCopiesGood(r, items + [item]) {
      forall key ensures CopiesGood(Labels(r, items, key)) {
        LabelsOfMore(r, items, item, key);
        assert CopiesGood(Labels(r, items + [item], key));
      }
      if item.Text? {
        LabelsOfMore(r, items, item, r.casefold(item.node.text));
        assert CopiesGood(Labels(r, items + [item], r.casefold(item.node.text)));
      }
    }
    if AllCopiesGood(r, items)
      && (item.Text? ==> CopiesGood(Labels(r, items, r.casefold(item.node.text)) + [item.tag])) {
      forall key ensures CopiesGood(Labels(r, items + [item], key)) {
        LabelsOfMore(r, items, item, key);
        assert CopiesGood(Labels(r, items, key));
      }
    }
  }

  lemma GoodOfMore(r: Rules, items: seq<Item>, item: Item)
    ensures Good(r, items + [item]) <==>
      && Good(r, items) && ItemId(item) !in Set(AllIds(items))
      && (item.Text? ==>
            && CopiesGood(Labels(r, items, r.casefold(item.node.text)) + [item.tag])
            && |Nodes(items)| + 1 <= MAX_AST_NODES
            && VisibleCharacters(Nodes(items)) + |item.node.text| <= MAX_AST_VISIBLE_CHARS)
  {
    hide NoRepeats, AllIds, Set, Labels, Nodes, VisibleCharacters, CopiesGood, AllCopiesGood;
    IdsOfMore(items, item);
    LabelsOfMore(r, items, item, "");
    if item.Text? {
      SumsOfMore(Nodes(items), item.node);
    }
    CopiesOfMore(r, items, item);
  }

  lemma StepExactly(r: Rules, items: seq<Item>, c: Context, item: Item)
    requires Good(r, items) && Tallies(r, items, c)
    ensures Step(r, c, item).Some? <==> Good(r, items + [item])
    ensures Step(r, c, item).Some? ==> Tallies(r, items + [item], Step(r, c, item).value)
  {
    StepAllowed(r, items, c, item);
    hide Good, Tallies, Step;
    if Step(r, c, item).Some? {
      StepTallies(r, items, c, item);
    }
  }

  lemma StepAllowed(r: Rules, items: seq<Item>, c: Context, item: Item)
    requires Good(r, items) && Tallies(r, items, c)
    ensures Step(r, c, item).Some? <==> Good(r, items + [item])
  {
    hide Good, CopiesGood, PermittedRepeat, AllIds, Set, Labels, Nodes, VisibleCharacters, EmphasisCount,
      EmphasisCharacters, Claims, Prior, Lengths;
    GoodOfMore(r, items, item);
    if item.Text? {
      PermittedExactly(Labels(r, items, r.casefold(item.node.text)), item.tag);
    }
  }

  lemma PriorAfter(r: Rules, c: Context, item: Item, key: string)
    requires Step(r, c, item).Some?
    ensures Prior(Step(r, c, item).value, key)
      == if item.Text? && r.casefold(item.node.text) == key then Prior(c, key) + [item.tag] else Prior(c, key)
  {}

  lemma StepTallies(r: Rules, items: seq<Item>, c: Context, item: Item)
    requires Tallies(r, items, c) && Step(r, c, item).Some?
    ensures Tallies(r, items + [item], Step(r, c, item).value)
  {
    hide AllIds, Labels, Nodes, VisibleCharacters, EmphasisCount, EmphasisCharacters, Claims, PermittedRepeat, Prior;
    IdsOfMore(items, item);
    LabelsOfMore(r, items, item, "");
    if item.Text? {
      SumsOfMore(Nodes(items), item.node);
    }
    var next := Step(r, c, item).value;
    forall key ensures Prior(next, key) == Labels(r, items + [item], key) {
      LabelsOfMore(r, items, item, key);
      PriorAfter(r, c, item, key);
    }
  }

  /** Recording a whole document succeeds exactly when it is good, and then the record is its sums. */
  lemma {:induction false} RunExactly(r: Rules, items: seq<Item>)
    ensures Run(r, EMPTY, items).Some? <==> Good(r, items)
    ensures Run(r, EMPTY, items).Some? ==> Tallies(r, items, Run(r, EMPTY, items).value)
  {
    if items == [] {
      EmptyIsGood(r);
    } else {
      var n := |items| - 1;
      RunExactly(r, items[..n]);
      assert items == items[..n] + [items[n]];
      GoodOfMore(r, items[..n], items[n]);
      hide Good, Tallies, Step;
      if Run(r, EMPTY, items[..n]).Some? {
        StepExactly(r, items[..n], Run(r, EMPTY, items[..n]).value, items[n]);
      }
    }
  }

  lemma EmptyIsGood(r: Rules)
    ensures Good(r, []) && Tallies(r, [], EMPTY) && Run(r, EMPTY, []) == Some(EMPTY)
  {}
}
