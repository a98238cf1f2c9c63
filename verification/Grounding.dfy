/** The guarantee of the tailoring pipeline: whatever the selector answers, a resume lists every
    job of the history once and in order, and says of a job only what a fact of that job says. */
module Grounding {
  import opened Basics
  import opened Facts
  import opened ResumeLines
  import opened Tailoring

  // ------------------------------------------------------------------- all the facts

  lemma {:induction false} LineFactsAreNumbered(r: Reader, lines: seq<string>, n: nat, jobs: seq<Job>)
    requires n <= |lines|
    ensures var facts := LineFacts(r, lines, n, jobs);
      (forall f :: f in facts ==> exists k :: 1 <= k <= n && f.id == LineId(k)) && UniqueFacts(facts)
  {
    if n > 0 {
      LineFactsAreNumbered(r, lines, n - 1, jobs);
      hide BestJob;
      var facts := LineFacts(r, lines, n - 1, jobs);
      forall i | 0 <= i < |facts| ensures facts[i].id != LineId(n) {
        assert facts[i] in facts;
        var k :| 1 <= k <= n - 1 && facts[i].id == LineId(k);
        if facts[i].id == LineId(n) {
          LineIdInjective(k, n);
        }
      }
    }
  }

  lemma UniqueTogether(a: seq<Fact>, b: seq<Fact>)
    requires UniqueFacts(a) && UniqueFacts(b) && forall f, g :: f in a && g in b ==> f.id != g.id
    ensures UniqueFacts(a + b)
  {
    forall i, j | 0 <= i < j < |a + b| ensures (a + b)[i].id != (a + b)[j].id {
      if i < |a| <= j {
        assert a[i] in a && b[j - |a|] in b;
      }
    }
  }

  /** Every job lists exactly the facts filed under it, in order, and no two facts share an id. */
  predicate Exact(facts: seq<Fact>, jobs: seq<Job>) {
    UniqueFacts(facts) && forall job :: job in jobs ==> job.facts == OwnIds(facts, job.id)
  }

  lemma LinesApartFromHistory(r: Reader, lines: seq<string>, n: nat, jobs: seq<Job>, facts: seq<Fact>)
    requires n <= |lines| && forall f :: f in facts ==> FromStatement(f)
    ensures forall f, g :: f in LineFacts(r, lines, n, jobs) && g in facts ==> f.id != g.id
  {
    LineFactsAreNumbered(r, lines, n, jobs);
    forall f, g | f in LineFacts(r, lines, n, jobs) && g in facts ensures f.id != g.id {
      var k :| 1 <= k <= n && f.id == LineId(k);
      var m: nat :| g.id == FactId(g.jobId, m);
      LineIdIsNoFactId(g.jobId, k, m);
    }
  }

  lemma FiledJobs(r: Reader, lines: seq<string>, jobs: seq<Job>, facts: seq<Fact>)
    requires UniqueJobs(jobs) && Owned(facts, jobs)
    ensures var filed := Filed(r, lines, |lines|, jobs);
      && SameJobs(jobs, filed.jobs) && filed.facts == LineFacts(r, lines, |lines|, jobs)
      && (forall job :: job in filed.jobs ==> job.facts == OwnIds(filed.facts + facts, job.id))
  {
    FiledTidily(r, lines, |lines|, jobs);
    var filed := Filed(r, lines, |lines|, jobs);
    hide Filed, LineFacts, Open, OwnIds, UniqueFacts, UniqueJobs;
    forall job | job in filed.jobs ensures job.facts == OwnIds(filed.facts + facts, job.id) {
      var i :| 0 <= i < |jobs| && filed.jobs[i] == job;
      assert jobs[i] in jobs;
      OwnIdsConcat(filed.facts, facts, job.id);
    }
  }

  /** With unique job ids: each job's list is its resume facts in line order followed by its facts
      of the history, and a fact's id tells it from all others. */
  lemma SourcesAreExact(history: seq<RawJob>, lines: seq<string>, r: Reader)
    requires UniqueJobs(Jobs(history, Read(history), r.clean))
    ensures var (facts, jobs) := Sources(history, lines, r);
      Exact(facts, jobs) && SameJobs(Jobs(history, Read(history), r.clean), jobs)
  {
    var given, facts := Jobs(history, Read(history), r.clean), HistoryFacts(history, Read(history), r.clean);
    HistoryIsOwned(history, Read(history), r.clean);
    FiledJobs(r, lines, given, facts);
    LineFactsAreNumbered(r, lines, |lines|, given);
    LinesApartFromHistory(r, lines, |lines|, given, facts);
    hide Jobs, HistoryFacts, Filed, LineFacts, FromStatement, OwnIds, UniqueFacts, UniqueJobs, SameJobs;
    UniqueTogether(LineFacts(r, lines, |lines|, given), facts);
  }

  // ---------------------------------------------------------------------- the document

  /** The bullets are the texts of distinct facts of one job. */
  ghost predicate Grounded(bullets: seq<string>, facts: seq<Fact>, jobId: string) {
    exists from: seq<nat> ::
      && |from| == |bullets| <= LIMIT
      && (forall i :: 0 <= i < |from| ==>
        from[i] < |facts| && facts[from[i]].text == bullets[i] && facts[from[i]].jobId == jobId)
      && (forall i, j :: 0 <= i < j < |from| ==> from[i] != from[j])
  }

  lemma {:induction false} OwnIdIsOfOwnFact(facts: seq<Fact>, jobId: string, id: string) returns (i: nat)
    requires id in OwnIds(facts, jobId)
    ensures i < |facts| && facts[i].id == id && facts[i].jobId == jobId
  {
    var n := |facts| - 1;
    if facts[n].jobId == jobId && facts[n].id == id {
      i := n;
    } else {
      i := OwnIdIsOfOwnFact(facts[..n], jobId, id);
    }
  }

  /** With unique facts, the text looked up by an id a job lists is the text of its own fact. */
  lemma LookupIsOwn(facts: seq<Fact>, jobId: string, id: string)
    requires UniqueFacts(facts) && id in OwnIds(facts, jobId)
    ensures var i := LastFact(facts, id); i >= 0 && facts[i].jobId == jobId
  {
    var i := OwnIdIsOfOwnFact(facts, jobId, id);
    assert facts[i] in facts;
  }

  lemma TextsAreGrounded(facts: seq<Fact>, jobId: string, ids: seq<string>)
    requires UniqueFacts(facts) && |ids| <= LIMIT
    requires forall id :: id in ids ==> id in OwnIds(facts, jobId)
    requires forall id :: id in ids ==> id in FactIds(facts)
    requires forall i, j :: 0 <= i < j < |ids| ==> ids[i] != ids[j]
    ensures Grounded(Texts(facts, ids), facts, jobId)
  {
    forall i | 0 <= i < |ids|
      ensures LastFact(facts, ids[i]) >= 0 && facts[LastFact(facts, ids[i])].jobId == jobId
    {
      assert ids[i] in ids;
      LookupIsOwn(facts, jobId, ids[i]);
    }
    var from: seq<nat> := seq(|ids|, i requires 0 <= i < |ids| => LastFact(facts, ids[i]));
    hide OwnIds, UniqueFacts, FactIds;
    assert forall i :: 0 <= i < |ids| ==> facts[from[i]].id == ids[i];
  }

  lemma LastJobOfUnique(jobs: seq<Job>, i: nat)
    requires UniqueJobs(jobs) && i < |jobs|
    ensures LastJob(jobs, jobs[i].id) == i
  {
    assert jobs[i] in jobs;
  }

  lemma {:induction false} OwnIdsDistinct(facts: seq<Fact>, jobId: string)
    requires UniqueFacts(facts)
    ensures var ids := OwnIds(facts, jobId); forall i, j :: 0 <= i < j < |ids| ==> ids[i] != ids[j]
  {
    if facts != [] {
      var n := |facts| - 1;
      OwnIdsDistinct(facts[..n], jobId);
      var ids := OwnIds(facts[..n], jobId);
      forall k | 0 <= k < |ids| ensures ids[k] != facts[n].id {
        var i := OwnIdIsOfOwnFact(facts[..n], jobId, ids[k]);
      }
    }
  }

  /** What is chosen for a job, by an accepted selection or in the plain order, is its own. */
  predicate Own(ids: seq<string>, facts: seq<Fact>, jobId: string) {
    && |ids| <= LIMIT
    && (forall id :: id in ids ==> id in OwnIds(facts, jobId))
    && (forall i, j :: 0 <= i < j < |ids| ==> ids[i] != ids[j])
  }

  lemma AcceptedIsOwn(raw: Json, facts: seq<Fact>, jobs: seq<Job>, read: Reading, i: nat)
    requires Exact(facts, jobs) && UniqueJobs(jobs) && i < |jobs|
    requires Validate(raw, facts, jobs, read).Accepted?
    ensures Own(ChosenFor(Validate(raw, facts, jobs, read).selection, jobs[i].id), facts, jobs[i].id)
  {
    var rows := Items(raw, "jobs");
    CheckedRowsAreWithin(rows, |rows|, jobs, read);
    hide CheckRows, OwnIds;
    var selection := Validate(raw, facts, jobs, read).selection;
    var k := LastChosen(selection.jobs, jobs[i].id);
    if k >= 0 {
      assert Within(selection.jobs[k], jobs);
      LastJobOfUnique(jobs, i);
      assert jobs[i] in jobs;
    }
  }

  lemma FirstThreeAreOwn(facts: seq<Fact>, jobId: string)
    requires UniqueFacts(facts)
    ensures Own(FirstThree(OwnIds(facts, jobId)), facts, jobId)
  {
    OwnIdsDistinct(facts, jobId);
  }

  lemma PlainIsOwn(facts: seq<Fact>, jobs: seq<Job>, i: nat)
    requires Exact(facts, jobs) && UniqueJobs(jobs) && i < |jobs|
    ensures Own(ChosenFor(Plain(jobs), jobs[i].id), facts, jobs[i].id)
  {
    var plain := Plain(jobs);
    assert jobs[i] in jobs && plain.jobs[i] in plain.jobs;
    FirstThreeAreOwn(facts, jobs[i].id);
    hide Concatenated, UniqueFacts, FirstThree, Own;
    var k := LastChosen(plain.jobs, jobs[i].id);
    assert k >= 0 && plain.jobs[k].jobId == jobs[k].id;
    assert k == i;
  }

  /** The selection a document is written from. */
  function Used(raw: Json, facts: seq<Fact>, jobs: seq<Job>, read: Reading): Selection {
    var verdict := Validate(raw, facts, jobs, read);
    if verdict.Accepted? then verdict.selection else Plain(jobs)
  }

  lemma UsedIsKnown(raw: Json, facts: seq<Fact>, jobs: seq<Job>, read: Reading)
    requires Listed(facts, jobs)
    ensures Known(Used(raw, facts, jobs, read), facts)
  {
    hide Validate, Plain, Listed, Known;
    if Validate(raw, facts, jobs, read).Accepted? {
      AcceptedIsKnown(raw, facts, jobs, read);
    } else {
      PlainIsKnown(facts, jobs);
    }
  }

  lemma UsedIsGrounded(raw: Json, facts: seq<Fact>, jobs: seq<Job>, read: Reading, i: nat)
    requires Exact(facts, jobs) && UniqueJobs(jobs) && i < |jobs| && Known(Used(raw, facts, jobs, read), facts)
    ensures var ids := ChosenFor(Used(raw, facts, jobs, read), jobs[i].id);
      && (forall id :: id in ids ==> id in FactIds(facts))
      && Grounded(Texts(facts, ids), facts, jobs[i].id)
  {
    var ids := ChosenFor(Used(raw, facts, jobs, read), jobs[i].id);
    assert forall id :: id in ids ==> id in FactIds(facts);
    if Validate(raw, facts, jobs, read).Accepted? {
      AcceptedIsOwn(raw, facts, jobs, read, i);
    } else {
      PlainIsOwn(facts, jobs, i);
    }
    hide Used, ChosenFor, OwnIds, FactIds, UniqueFacts, Grounded, Texts;
    TextsAreGrounded(facts, jobs[i].id, ids);
  }

  lemma WrittenFromUsed(history: seq<RawJob>, lines: seq<string>, r: Reader, raw: Json, read: Reading)
    requires Made(history, lines, r, raw, read).Written?
    ensures var (facts, jobs) := Sources(history, lines, r);
      Known(Used(raw, facts, jobs, read), facts)
      && Made(history, lines, r, raw, read).document == Compose(facts, jobs, Used(raw, facts, jobs, read))
  {
    SourcesListed(history, lines, r);
    UsedIsKnown(raw, Sources(history, lines, r).0, Sources(history, lines, r).1, read);
    hide Sources, Validate, Plain, Listed, Known, Compose;
  }

  /** For every answer of the selector: a document written has one experience for each job of the
      history, in order, and each experience is grounded in the facts of that job. */
  lemma EveryDocumentIsGrounded(history: seq<RawJob>, lines: seq<string>, r: Reader, raw: Json, read: Reading)
    requires UniqueJobs(Jobs(history, Read(history), r.clean))
    requires Made(history, lines, r, raw, read).Written?
    ensures var given := Jobs(history, Read(history), r.clean);
      var experiences := Made(history, lines, r, raw, read).document.experiences;
      && |experiences| == |given|
      && forall i :: 0 <= i < |given| ==>
          && experiences[i].id == given[i].id && experiences[i].title == given[i].title
          && experiences[i].company == given[i].company && experiences[i].location == given[i].location
          && experiences[i].dates == given[i].dates
          && Grounded(experiences[i].bullets, Sources(history, lines, r).0, given[i].id)
  {
    var (facts, jobs) := Sources(history, lines, r);
    SourcesAreExact(history, lines, r);
    WrittenFromUsed(history, lines, r, raw, read);
    hide Sources, Jobs, Made, Used, Known, Exact, Grounded;
    assert UniqueJobs(jobs);
    forall i | 0 <= i < |jobs|
      ensures var ids := ChosenFor(Used(raw, facts, jobs, read), jobs[i].id);
        (forall id :: id in ids ==> id in FactIds(facts)) && Grounded(Texts(facts, ids), facts, jobs[i].id)
    {
      UsedIsGrounded(raw, facts, jobs, read, i);
    }
  }

  // ---------------------------------------------------------------------- the summary

  /** The lines are the texts of distinct facts, three at most. */
  ghost predicate Stated(lines: seq<string>, facts: seq<Fact>) {
    exists from: seq<nat> ::
      && |from| == |lines| <= LIMIT
      && (forall i :: 0 <= i < |from| ==> from[i] < |facts| && facts[from[i]].text == lines[i])
      && (forall i, j :: 0 <= i < j < |from| ==> from[i] != from[j])
  }

  lemma TextsAreStated(facts: seq<Fact>, ids: seq<string>)
    requires |ids| <= LIMIT && NoRepeats(ids) && forall id :: id in ids ==> id in FactIds(facts)
    ensures Stated(Texts(facts, ids), facts)
  {
    forall i | 0 <= i < |ids| ensures LastFact(facts, ids[i]) >= 0 {
      assert ids[i] in ids;
    }
    var from: seq<nat> := seq(|ids|, i requires 0 <= i < |ids| => LastFact(facts, ids[i]));
    hide FactIds;
    assert forall i :: 0 <= i < |ids| ==> facts[from[i]].id == ids[i];
  }

  /** No id is on the lists of two jobs. */
  lemma ListsApart(facts: seq<Fact>, a: string, b: string, id: string)
    requires UniqueFacts(facts) && id in OwnIds(facts, a) && id in OwnIds(facts, b)
    ensures a == b
  {
    var i := OwnIdIsOfOwnFact(facts, a, id);
    var j := OwnIdIsOfOwnFact(facts, b, id);
  }

  /** The plain summary is drawn from lists that have no id in common. */
  lemma {:induction false} ConcatenatedDistinct(facts: seq<Fact>, jobs: seq<Job>)
    requires Exact(facts, jobs) && UniqueJobs(jobs)
    ensures NoRepeats(Concatenated(jobs))
    ensures forall id :: id in Concatenated(jobs) ==> exists job :: job in jobs && id in OwnIds(facts, job.id)
  {
    if jobs != [] {
      var n := |jobs| - 1;
      var last := jobs[n];
      assert last in jobs && Exact(facts, jobs[..n]);
      ConcatenatedDistinct(facts, jobs[..n]);
      FirstThreeAreOwn(facts, last.id);
      var before, three := Concatenated(jobs[..n]), FirstThree(last.facts);
      hide OwnIds, UniqueFacts, FirstThree;
      forall i, j | 0 <= i < |before| && 0 <= j < |three| ensures before[i] != three[j] {
        assert before[i] in before && three[j] in three;
        var job :| job in jobs[..n] && before[i] in OwnIds(facts, job.id);
        if before[i] == three[j] {
          ListsApart(facts, job.id, last.id, three[j]);
        }
      }
    }
  }

  lemma UsedSummaryIsDistinct(raw: Json, facts: seq<Fact>, jobs: seq<Job>, read: Reading)
    requires Exact(facts, jobs) && UniqueJobs(jobs)
    ensures |Used(raw, facts, jobs, read).summary| <= LIMIT && NoRepeats(Used(raw, facts, jobs, read).summary)
  {
    hide CheckRows, OwnIds, Named, JobIds, Exact;
    if !Validate(raw, facts, jobs, read).Accepted? {
      ConcatenatedDistinct(facts, jobs);
    }
  }

  /** For every answer of the selector: the summary of a document written is the texts of
      distinct facts, three at most. */
  lemma SummaryIsStated(history: seq<RawJob>, lines: seq<string>, r: Reader, raw: Json, read: Reading)
    requires UniqueJobs(Jobs(history, Read(history), r.clean))
    requires Made(history, lines, r, raw, read).Written?
    ensures Stated(Made(history, lines, r, raw, read).document.summary, Sources(history, lines, r).0)
  {
    var (facts, jobs) := Sources(history, lines, r);
    SourcesAreExact(history, lines, r);
    WrittenFromUsed(history, lines, r, raw, read);
    hide Sources, Jobs, Made, Used, Exact, Stated;
    assert UniqueJobs(jobs);
    UsedSummaryIsDistinct(raw, facts, jobs, read);
    TextsAreStated(facts, Used(raw, facts, jobs, read).summary);
  }

  // ------------------------------------------------------- which answers are taken

  /** A row that can be used. */
  predicate RowGood(row: Json, jobs: seq<Job>, read: Reading) {
    row.Object? && Choose(Items(row, "factIds"), Allowed(jobs, Field(row, "jobId", read)), read).Some?
  }

  lemma CheckStep(rows: seq<Json>, n: nat, jobs: seq<Job>, read: Reading)
    requires n < |rows|
    ensures var before, after := CheckRows(rows, n, jobs, read), CheckRows(rows, n + 1, jobs, read);
      && (after.Accepted? <==> before.Accepted? && RowGood(rows[n], jobs, read))
      && (after.Crashed? <==> before.Crashed? || (before.Accepted? && !rows[n].Object?))
  {}

  lemma CheckNone(rows: seq<Json>, jobs: seq<Job>, read: Reading)
    ensures CheckRows(rows, 0, jobs, read).Accepted?
  {}

  lemma {:induction false} AcceptedRows(rows: seq<Json>, n: nat, jobs: seq<Job>, read: Reading)
    requires n <= |rows|
    ensures CheckRows(rows, n, jobs, read).Accepted? <==> forall k :: 0 <= k < n ==> RowGood(rows[k], jobs, read)
  {
    hide CheckRows, RowGood;
    CheckNone(rows, jobs, read);
    if n > 0 {
      AcceptedRows(rows, n - 1, jobs, read);
      CheckStep(rows, n - 1, jobs, read);
    }
  }

  /** The rows before `k` are usable and row `k` is not an object. */
  predicate Stops(rows: seq<Json>, k: nat, jobs: seq<Job>, read: Reading)
    requires k < |rows|
  {
    !rows[k].Object? && forall j :: 0 <= j < k ==> RowGood(rows[j], jobs, read)
  }

  lemma {:induction false} CrashedRows(rows: seq<Json>, n: nat, jobs: seq<Job>, read: Reading)
    requires n <= |rows|
    ensures CheckRows(rows, n, jobs, read).Crashed? <==> exists k :: 0 <= k < n && Stops(rows, k, jobs, read)
  {
    hide CheckRows, RowGood;
    CheckNone(rows, jobs, read);
    if n > 0 {
      CrashedRows(rows, n - 1, jobs, read);
      AcceptedRows(rows, n - 1, jobs, read);
      CheckStep(rows, n - 1, jobs, read);
      assert Stops(rows, n - 1, jobs, read) <==>
        !rows[n - 1].Object? && CheckRows(rows, n - 1, jobs, read).Accepted?;
    }
  }

  /** The pipeline fails exactly when the rows that are objects name every job and no other, and
      the first row that is not usable is not an object at all. */
  lemma FailsExactly(history: seq<RawJob>, lines: seq<string>, r: Reader, raw: Json, read: Reading)
    ensures var (_, jobs) := Sources(history, lines, r);
      Made(history, lines, r, raw, read).Failed?
      <==> jobs != [] && raw.Object? && Named(Items(raw, "jobs"), read) == JobIds(jobs)
           && exists k :: 0 <= k < |Items(raw, "jobs")| && Stops(Items(raw, "jobs"), k, jobs, read)
  {
    var (facts, jobs) := Sources(history, lines, r);
    hide Sources, CheckRows, RowGood, Compose, Choose, Stops;
    if raw.Object? {
      CrashedRows(Items(raw, "jobs"), |Items(raw, "jobs")|, jobs, read);
    }
  }

  /** What the selector answers for a job it chooses nothing for. */
  function BareRow(id: string): Json { Object(map["jobId" := Text(id)]) }

  function BareRows(jobs: seq<Job>): (rows: seq<Json>) {
    seq(|jobs|, i requires 0 <= i < |jobs| => BareRow(jobs[i].id))
  }

  /** Such an answer exists for every history with a job: a row for each job, and a number behind
      them. */
  lemma NumberBehindRowsFails(history: seq<RawJob>, lines: seq<string>, r: Reader, read: Reading)
    requires var jobs := Sources(history, lines, r).1;
      jobs != [] && forall job :: job in jobs ==> read(Text(job.id)) == job.id
    ensures var raw := Object(map["jobs" := Array(BareRows(Sources(history, lines, r).1) + [Other(0)])]);
      Made(history, lines, r, raw, read).Failed?
  {
    hide Sources, Made, RowGood, Choose, JobIds, Named;
    var jobs := Sources(history, lines, r).1;
    var rows := BareRows(jobs) + [Other(0)];
    BareRowsName(jobs, read);
    forall k | 0 <= k < |jobs| ensures RowGood(rows[k], jobs, read) {
      BareRowIsGood(jobs, jobs[k].id, read);
    }
    assert Stops(rows, |jobs|, jobs, read);
    FailsExactly(history, lines, r, Object(map["jobs" := Array(rows)]), read);
  }

  lemma BareRowIsGood(jobs: seq<Job>, id: string, read: Reading)
    ensures RowGood(BareRow(id), jobs, read)
  {}

  lemma BareRowsName(jobs: seq<Job>, read: Reading)
    requires forall job :: job in jobs ==> read(Text(job.id)) == job.id
    ensures Named(BareRows(jobs) + [Other(0)], read) == JobIds(jobs)
  {
    var rows := BareRows(jobs) + [Other(0)];
    forall id | id in JobIds(jobs) ensures id in Named(rows, read) {
      var i :| 0 <= i < |jobs| && jobs[i].id == id;
      assert jobs[i] in jobs;
      assert rows[i] == BareRow(id) && rows[i] in rows && Field(rows[i], "jobId", read) == id;
    }
    forall id | id in Named(rows, read) ensures id in JobIds(jobs) {
      var row :| row in rows && row.Object? && Field(row, "jobId", read) == id;
      var i :| 0 <= i < |rows| && rows[i] == row;
      assert jobs[i] in jobs && row == BareRow(jobs[i].id);
    }
  }

  /** A selection is used exactly when its rows name every job and no other, each row chooses
      distinct facts of its own job, and the summary distinct facts. */
  lemma TakenExactly(raw: Json, facts: seq<Fact>, jobs: seq<Job>, read: Reading)
    ensures Validate(raw, facts, jobs, read).Accepted?
      <==> raw.Object? && Named(Items(raw, "jobs"), read) == JobIds(jobs)
           && (forall k :: 0 <= k < |Items(raw, "jobs")| ==> RowGood(Items(raw, "jobs")[k], jobs, read))
           && Choose(Items(raw, "summaryFactIds"), FactIds(facts), read).Some?
  {
    hide CheckRows, RowGood, Choose;
    if raw.Object? {
      AcceptedRows(Items(raw, "jobs"), |Items(raw, "jobs")|, jobs, read);
    }
  }
}
