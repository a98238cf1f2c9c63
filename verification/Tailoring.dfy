/** What a resume may say (resume-renderer/app.py): an untrusted selection of fact ids is checked,
    or replaced by the plain order, and the document takes every job and the text of chosen facts. */
module Tailoring {
  import opened Basics
  import opened Facts
  import opened ResumeLines

  /** A decoded selection; `Other` stands for numbers, booleans and null. */
  datatype Json = Text(value: string) | Array(items: seq<Json>) | Object(fields: map<string, Json>) | Other(code: int)

  datatype Chosen = Chosen(jobId: string, factIds: seq<string>)

  datatype Selection = Selection(summary: seq<string>, jobs: seq<Chosen>)

  /** Checking a selection can also raise an error, which fails the whole request. */
  datatype Verdict = Rejected | Crashed | Accepted(selection: Selection)

  /** The text a value is cleaned to; a missing field reads as the empty text. */
  type Reading = Json -> string

  const LIMIT: nat := 3

  // ------------------------------------------------------------ reading a selection

  function Field(row: Json, name: string, read: Reading): string
    requires row.Object?
  {
    if name in row.fields then read(row.fields[name]) else ""
  }

  /** The list under a name; anything else reads as an empty list. */
  function Items(row: Json, name: string): seq<Json>
    requires row.Object?
  {
    if name in row.fields && row.fields[name].Array? then row.fields[name].items else []
  }

  function FirstThree(ids: seq<string>): seq<string> { if |ids| <= LIMIT then ids else ids[..LIMIT] }

  /** The texts of a list of ids, when each is allowed and none is repeated. */
  function Choose(items: seq<Json>, allowed: set<string>, read: Reading): (chosen: Option<seq<string>>)
    ensures chosen.Some? ==>
      && |chosen.value| == |items|
      && (forall i :: 0 <= i < |items| ==> chosen.value[i] == read(items[i]) && chosen.value[i] in allowed)
      && (forall i, j :: 0 <= i < j < |items| ==> chosen.value[i] != chosen.value[j])
    ensures chosen.None? ==>
      || (exists i :: 0 <= i < |items| && read(items[i]) !in allowed)
      || (exists i, j :: 0 <= i < j < |items| && read(items[i]) == read(items[j]))
  {
    if items == [] then Some([])
    else
      var n := |items| - 1;
      var before := Choose(items[..n], allowed, read);
      if before.None? then None
      else if read(items[n]) !in allowed || read(items[n]) in before.value then None
      else Some(before.value + [read(items[n])])
  }

  // ---------------------------------------------------------------- lookups by id

  /** Building a dictionary row by row, the last row of an id stays. */
  function LastJob(jobs: seq<Job>, id: string): (i: int)
    ensures -1 <= i < |jobs| && (i >= 0 ==> jobs[i].id == id) && (i < 0 <==> forall job :: job in jobs ==> job.id != id)
  {
    if jobs == [] then -1
    else if jobs[|jobs| - 1].id == id then |jobs| - 1
    else LastJob(jobs[..|jobs| - 1], id)
  }

  function LastFact(facts: seq<Fact>, id: string): (i: int)
    ensures -1 <= i < |facts| && (i >= 0 ==> facts[i].id == id) && (i < 0 <==> forall f :: f in facts ==> f.id != id)
  {
    if facts == [] then -1
    else if facts[|facts| - 1].id == id then |facts| - 1
    else LastFact(facts[..|facts| - 1], id)
  }

  function LastChosen(jobs: seq<Chosen>, id: string): (i: int)
    ensures -1 <= i < |jobs| && (i >= 0 ==> jobs[i].jobId == id && forall j :: i < j < |jobs| ==> jobs[j].jobId != id)
    ensures i < 0 <==> forall c :: c in jobs ==> c.jobId != id
  {
    if jobs == [] then -1
    else if jobs[|jobs| - 1].jobId == id then |jobs| - 1
    else LastChosen(jobs[..|jobs| - 1], id)
  }

  function JobIds(jobs: seq<Job>): set<string> { set job | job in jobs :: job.id }

  function FactIds(facts: seq<Fact>): set<string> { set f | f in facts :: f.id }

  function Allowed(jobs: seq<Job>, id: string): set<string> {
    var i := LastJob(jobs, id);
    if i < 0 then {} else set fact | fact in jobs[i].facts
  }

  // -------------------------------------------------------------- checking a selection

  /** The ids named by the rows that are objects. */
  function Named(rows: seq<Json>, read: Reading): set<string> {
    set row | row in rows && row.Object? :: Field(row, "jobId", read)
  }

  /** The first n rows, in order: the first bad one decides. */
  function CheckRows(rows: seq<Json>, n: nat, jobs: seq<Job>, read: Reading): Verdict
    requires n <= |rows|
  {
    if n == 0 then Accepted(Selection([], []))
    else
      var before := CheckRows(rows, n - 1, jobs, read);
      var row := rows[n - 1];
      if !before.Accepted? then before
      else if !row.Object? then Crashed
      else
        var id := Field(row, "jobId", read);
        var chosen := Choose(Items(row, "factIds"), Allowed(jobs, id), read);
        if chosen.None? then Rejected
        else Accepted(Selection([], before.selection.jobs + [Chosen(id, FirstThree(chosen.value))]))
  }

  function Validate(raw: Json, facts: seq<Fact>, jobs: seq<Job>, read: Reading): Verdict {
    if !raw.Object? then Rejected
    else
      var rows := Items(raw, "jobs");
      if Named(rows, read) != JobIds(jobs) then Rejected
      else
        var checked := CheckRows(rows, |rows|, jobs, read);
        if !checked.Accepted? then checked
        else
          var summary := Choose(Items(raw, "summaryFactIds"), FactIds(facts), read);
          if summary.None? then Rejected else Accepted(Selection(FirstThree(summary.value), checked.selection.jobs))
  }

  method ChooseIds(items: seq<Json>, allowed: set<string>, read: Reading) returns (chosen: Option<seq<string>>)
    ensures chosen == Choose(items, allowed, read)
  {
    var ids: seq<string> := [];
    for i := 0 to |items|
      invariant Choose(items[..i], allowed, read) == Some(ids)
    {
      assert items[..i + 1][..i] == items[..i];
      var id := read(items[i]);
      if id !in allowed || id in ids {
        NeverRecovers(items, i + 1, allowed, read);
        return None;
      }
      ids := ids + [id];
    }
    assert items[..|items|] == items;
    return Some(ids);
  }

  lemma {:induction false} NeverRecovers(items: seq<Json>, n: nat, allowed: set<string>, read: Reading)
    requires n <= |items| && Choose(items[..n], allowed, read).None?
    ensures Choose(items, allowed, read).None?
    decreases |items|
  {
    if n == |items| {
      assert items[..n] == items;
    } else {
      var front := items[..|items| - 1];
      assert front[..n] == items[..n];
      NeverRecovers(front, n, allowed, read);
    }
  }

  method ValidateSelection(raw: Json, facts: seq<Fact>, jobs: seq<Job>, read: Reading) returns (verdict: Verdict)
    ensures verdict == Validate(raw, facts, jobs, read)
  {
    if !raw.Object? {
      return Rejected;
    }
    var rows := Items(raw, "jobs");
    if Named(rows, read) != JobIds(jobs) {
      return Rejected;
    }
    var normalized: seq<Chosen> := [];
    for n := 0 to |rows|
      invariant CheckRows(rows, n, jobs, read) == Accepted(Selection([], normalized))
    {
      if !rows[n].Object? {
        FirstBadDecides(rows, n + 1, |rows|, jobs, read);
        return Crashed;
      }
      var id := Field(rows[n], "jobId", read);
      var chosen := ChooseIds(Items(rows[n], "factIds"), Allowed(jobs, id), read);
      if chosen.None? {
        FirstBadDecides(rows, n + 1, |rows|, jobs, read);
        return Rejected;
      }
      normalized := normalized + [Chosen(id, FirstThree(chosen.value))];
    }
    var summary := ChooseIds(Items(raw, "summaryFactIds"), FactIds(facts), read);
    if summary.None? {
      return Rejected;
    }
    return Accepted(Selection(FirstThree(summary.value), normalized));
  }

  lemma {:induction false} FirstBadDecides(rows: seq<Json>, n: nat, m: nat, jobs: seq<Job>, read: Reading)
    requires n <= m <= |rows| && !CheckRows(rows, n, jobs, read).Accepted?
    ensures CheckRows(rows, m, jobs, read) == CheckRows(rows, n, jobs, read)
    decreases m
  {
    if n < m {
      FirstBadDecides(rows, n, m - 1, jobs, read);
    }
  }

  // ------------------------------------------------------------------ the plain order

  function Concatenated(jobs: seq<Job>): seq<string> {
    if jobs == [] then [] else Concatenated(jobs[..|jobs| - 1]) + FirstThree(jobs[|jobs| - 1].facts)
  }

  function Plain(jobs: seq<Job>): (selection: Selection)
    ensures |selection.jobs| == |jobs|
    ensures forall i :: 0 <= i < |jobs| ==> selection.jobs[i] == Chosen(jobs[i].id, FirstThree(jobs[i].facts))
  {
    Selection(FirstThree(Concatenated(jobs)),
      seq(|jobs|, i requires 0 <= i < |jobs| => Chosen(jobs[i].id, FirstThree(jobs[i].facts))))
  }

  lemma FirstThreeOfMore(ids: seq<string>, more: seq<string>)
    ensures FirstThree(FirstThree(ids) + more) == FirstThree(ids + more)
  {}

  /** The inner loop: ids are added to the summary while there is room. */
  method TopUp(summary: seq<string>, ids: seq<string>) returns (filled: seq<string>)
    requires |summary| <= LIMIT
    ensures filled == FirstThree(summary + ids)
  {
    filled := summary;
    for k := 0 to |ids|
      invariant filled == FirstThree(summary + ids[..k])
    {
      assert summary + ids[..k + 1] == summary + ids[..k] + [ids[k]];
      if |filled| < LIMIT {
        filled := filled + [ids[k]];
      }
    }
    assert ids[..|ids|] == ids;
  }

  method PlainSelection(jobs: seq<Job>) returns (selection: Selection)
    ensures selection == Plain(jobs)
  {
    var summary: seq<string>, selected: seq<Chosen> := [], [];
    for n := 0 to |jobs|
      invariant summary == FirstThree(Concatenated(jobs[..n]))
      invariant |selected| == n
        && forall i :: 0 <= i < n ==> selected[i] == Chosen(jobs[i].id, FirstThree(jobs[i].facts))
    {
      assert jobs[..n + 1][..n] == jobs[..n];
      var ids := FirstThree(jobs[n].facts);
      selected := selected + [Chosen(jobs[n].id, ids)];
      FirstThreeOfMore(Concatenated(jobs[..n]), ids);
      summary := TopUp(summary, ids);
    }
    assert jobs[..|jobs|] == jobs;
    return Selection(summary, selected);
  }

  // ---------------------------------------------------------------------- the document

  datatype Experience = Experience(id: string, title: string, company: string, location: string, dates: string,
    bullets: seq<string>)

  datatype Document = Document(summary: seq<string>, experiences: seq<Experience>)

  /** Every id a job lists is the id of a fact. */
  predicate Listed(facts: seq<Fact>, jobs: seq<Job>) {
    forall job :: job in jobs ==> forall id :: id in job.facts ==> id in FactIds(facts)
  }

  predicate Known(selection: Selection, facts: seq<Fact>) {
    && (forall id :: id in selection.summary ==> id in FactIds(facts))
    && (forall chosen :: chosen in selection.jobs ==> forall id :: id in chosen.factIds ==> id in FactIds(facts))
  }

  function TextOf(facts: seq<Fact>, id: string): string
    requires id in FactIds(facts)
  {
    facts[LastFact(facts, id)].text
  }

  function Texts(facts: seq<Fact>, ids: seq<string>): (texts: seq<string>)
    requires forall id :: id in ids ==> id in FactIds(facts)
    ensures |texts| == |ids| && forall i :: 0 <= i < |ids| ==> texts[i] == TextOf(facts, ids[i])
  {
    seq(|ids|, i requires 0 <= i < |ids| => TextOf(facts, ids[i]))
  }

  /** What was chosen for a job: its last row, or nothing. */
  function ChosenFor(selection: Selection, id: string): seq<string> {
    var i := LastChosen(selection.jobs, id);
    if i < 0 then [] else selection.jobs[i].factIds
  }

  function Compose(facts: seq<Fact>, jobs: seq<Job>, selection: Selection): (document: Document)
    requires Known(selection, facts)
    ensures |document.experiences| == |jobs|
    ensures forall i :: 0 <= i < |jobs| ==>
      document.experiences[i] == Experience(jobs[i].id, jobs[i].title, jobs[i].company, jobs[i].location, jobs[i].dates,
                                            Texts(facts, ChosenFor(selection, jobs[i].id)))
  {
    Document(Texts(facts, selection.summary),
             seq(|jobs|, i requires 0 <= i < |jobs| =>
               Experience(jobs[i].id, jobs[i].title, jobs[i].company, jobs[i].location, jobs[i].dates,
                          Texts(facts, ChosenFor(selection, jobs[i].id)))))
  }

  datatype Outcome = NoCareerHistory | PlainLines(lines: seq<string>) | Failed
    | Written(document: Document, tailored: bool)

  /** The facts and jobs a resume is written from. */
  function Sources(history: seq<RawJob>, lines: seq<string>, r: Reader): (sources: (seq<Fact>, seq<Job>)) {
    var filed := Filed(r, lines, |lines|, Jobs(history, Read(history), r.clean));
    (filed.facts + HistoryFacts(history, Read(history), r.clean), filed.jobs)
  }

  lemma ListedMore(facts: seq<Fact>, more: seq<Fact>)
    ensures forall id :: id in FactIds(facts) || id in FactIds(more) ==> id in FactIds(facts + more)
  {
    forall id | id in FactIds(facts) ensures id in FactIds(facts + more) {
      var f :| f in facts && f.id == id;
      assert f in facts + more;
    }
    forall id | id in FactIds(more) ensures id in FactIds(facts + more) {
      var f :| f in more && f.id == id;
      assert f in facts + more;
    }
  }

  lemma IdsAreListed(facts: seq<Fact>)
    ensures forall id :: id in Ids(facts) ==> id in FactIds(facts)
  {
    forall id | id in Ids(facts) ensures id in FactIds(facts) {
      var i :| 0 <= i < |facts| && Ids(facts)[i] == id;
      assert facts[i] in facts;
    }
  }

  lemma {:induction false} HistoryIsListed(history: seq<RawJob>, n: nat, clean: Cleaner)
    requires n <= |history|
    ensures Listed(HistoryFacts(history, n, clean), Jobs(history, n, clean))
  {
    if n > 0 {
      HistoryIsListed(history, n - 1, clean);
      var more := FactsOfJob(history[n - 1], n - 1, clean);
      IdsAreListed(more);
      ListedMore(HistoryFacts(history, n - 1, clean), more);
      hide FactIds, FactsOfJob, JobId, Skipped;
    }
  }

  lemma {:induction false} FilingIsListed(r: Reader, lines: seq<string>, n: nat, jobs: seq<Job>, facts: seq<Fact>)
    requires n <= |lines| && Listed(facts, jobs)
    ensures var filed := Filed(r, lines, n, jobs); Listed(filed.facts + facts, filed.jobs)
  {
    if n == 0 {
      assert [] + facts == facts;
    } else {
      FilingIsListed(r, lines, n - 1, jobs, facts);
      LineIsListed(r, Filed(r, lines, n - 1, jobs), lines[n - 1], n - 1, facts);
    }
  }

  lemma LineIsListed(r: Reader, s: Filing, line: string, index: nat, facts: seq<Fact>)
    requires InRange(s) && Listed(s.facts + facts, s.jobs)
    ensures Listed(FileLine(r, s, line, index).facts + facts, FileLine(r, s, line, index).jobs)
  {
    var t := FileLine(r, s, line, index);
    if t.facts != s.facts {
      var f := t.facts[|s.facts|];
      assert t.facts == s.facts + [f];
      forall id | id in FactIds(s.facts + facts) || id == f.id ensures id in FactIds(t.facts + facts) {
        if id == f.id {
          assert f in t.facts + facts;
        } else {
          var g :| g in s.facts + facts && g.id == id;
          assert g in t.facts + facts;
        }
      }
      hide FactIds, BestJob;
    }
  }

  lemma SourcesListed(history: seq<RawJob>, lines: seq<string>, r: Reader)
    ensures Listed(Sources(history, lines, r).0, Sources(history, lines, r).1)
  {
    HistoryIsListed(history, Read(history), r.clean);
    FilingIsListed(r, lines, |lines|, Jobs(history, Read(history), r.clean),
      HistoryFacts(history, Read(history), r.clean));
  }

  /** What a checked row may choose: distinct facts its job lists, three at most. */
  predicate Within(chosen: Chosen, jobs: seq<Job>) {
    && |chosen.factIds| <= LIMIT
    && (forall id :: id in chosen.factIds ==> id in Allowed(jobs, chosen.jobId))
    && (forall i, j :: 0 <= i < j < |chosen.factIds| ==> chosen.factIds[i] != chosen.factIds[j])
  }

  lemma {:induction false} CheckedRowsAreWithin(rows: seq<Json>, n: nat, jobs: seq<Job>, read: Reading)
    requires n <= |rows| && CheckRows(rows, n, jobs, read).Accepted?
    ensures forall chosen :: chosen in CheckRows(rows, n, jobs, read).selection.jobs ==> Within(chosen, jobs)
  {
    if n > 0 {
      CheckedRowsAreWithin(rows, n - 1, jobs, read);
      var id := Field(rows[n - 1], "jobId", read);
      var chosen := Choose(Items(rows[n - 1], "factIds"), Allowed(jobs, id), read).value;
      assert forall x :: x in FirstThree(chosen) ==> x in chosen;
      assert Within(Chosen(id, FirstThree(chosen)), jobs);
      hide Allowed, Within, Choose;
    }
  }

  lemma WithinIsKnown(chosen: Chosen, facts: seq<Fact>, jobs: seq<Job>)
    requires Within(chosen, jobs) && Listed(facts, jobs)
    ensures forall id :: id in chosen.factIds ==> id in FactIds(facts)
  {
    hide FactIds;
  }

  /** No accepted selection names a fact that is not there. */
  lemma AcceptedIsKnown(raw: Json, facts: seq<Fact>, jobs: seq<Job>, read: Reading)
    requires Validate(raw, facts, jobs, read).Accepted? && Listed(facts, jobs)
    ensures Known(Validate(raw, facts, jobs, read).selection, facts)
  {
    var rows := Items(raw, "jobs");
    CheckedRowsAreWithin(rows, |rows|, jobs, read);
    hide CheckRows, Within, Listed, FactIds;
    var selection := Validate(raw, facts, jobs, read).selection;
    forall chosen | chosen in selection.jobs ensures forall id :: id in chosen.factIds ==> id in FactIds(facts) {
      WithinIsKnown(chosen, facts, jobs);
    }
  }

  lemma {:induction false} ConcatenatedIsKnown(facts: seq<Fact>, jobs: seq<Job>)
    requires Listed(facts, jobs)
    ensures forall id :: id in Concatenated(jobs) ==> id in FactIds(facts)
  {
    if jobs != [] {
      ConcatenatedIsKnown(facts, jobs[..|jobs| - 1]);
      hide FactIds;
      var last := jobs[|jobs| - 1];
      assert last in jobs;
      assert forall id :: id in FirstThree(last.facts) ==> id in last.facts;
    }
  }

  lemma PlainIsKnown(facts: seq<Fact>, jobs: seq<Job>)
    requires Listed(facts, jobs)
    ensures Known(Plain(jobs), facts)
  {
    ConcatenatedIsKnown(facts, jobs);
    hide FactIds, Concatenated;
    forall chosen | chosen in Plain(jobs).jobs ensures forall id :: id in chosen.factIds ==> id in FactIds(facts) {
      var i :| 0 <= i < |jobs| && Plain(jobs).jobs[i] == chosen;
      assert jobs[i] in jobs;
    }
  }

  function Made(history: seq<RawJob>, lines: seq<string>, r: Reader, raw: Json, read: Reading): Outcome {
    var (facts, jobs) := Sources(history, lines, r);
    if jobs == [] then (if lines == [] then NoCareerHistory else PlainLines(lines))
    else
      SourcesListed(history, lines, r);
      match Validate(raw, facts, jobs, read)
      case Crashed => Failed
      case Accepted(selection) =>
        AcceptedIsKnown(raw, facts, jobs, read);
        Written(Compose(facts, jobs, selection), true)
      case Rejected => PlainIsKnown(facts, jobs); Written(Compose(facts, jobs, Plain(jobs)), false)
  }

  method MakeDocument(history: seq<RawJob>, lines: seq<string>, r: Reader, raw: Json, read: Reading)
      returns (outcome: Outcome)
    ensures outcome == Made(history, lines, r, raw, read)
  {
    hide Validate, Compose, Plain, Listed, Known;
    var facts, jobs := HistoryFactRows(history, r.clean);
    if jobs == [] && lines == [] {
      return NoCareerHistory;
    }
    if jobs == [] {
      return PlainLines(lines);
    }
    var resumeFacts, matched;
    resumeFacts, jobs, matched := ResumeFactRows(r, lines, jobs);
    facts := resumeFacts + facts;
    SourcesListed(history, lines, r);
    var verdict := ValidateSelection(raw, facts, jobs, read);
    match verdict {
      case Crashed => return Failed;
      case Accepted(selection) =>
        AcceptedIsKnown(raw, facts, jobs, read);
        return Written(Compose(facts, jobs, selection), true);
      case Rejected =>
        var plain := PlainSelection(jobs);
        PlainIsKnown(facts, jobs);
        return Written(Compose(facts, jobs, plain), false);
    }
  }
}
