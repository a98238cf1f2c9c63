/** The facts a resume may be written from (resume-renderer/app.py): the jobs and statements of the
    career history, and the lines of the candidate's own resume filed under the job they follow. */
module Facts {
  /** An entry of the history as it is read; `statements` are its facts, or the sentences of its
      description when it has none. */
  datatype RawJob = RawJob(id: string, title: string, company: string, location: string, dates: string,
    statements: seq<string>)

  /** A job owns the facts whose ids it lists. */
  datatype Job = Job(id: string, title: string, company: string, location: string, dates: string, facts: seq<string>)

  datatype Fact = Fact(id: string, text: string, jobId: string)

  const MAX_JOBS: nat := 80
  const MAX_STATEMENTS: nat := 30

  // ---------------------------------------------------------------------- fact ids

  function Digit(d: nat): char
    requires d < 10
  {
    '0' + d as char
  }

  function Decimal(n: nat): (s: string)
    ensures s != [] && forall i :: 0 <= i < |s| ==> '0' <= s[i] <= '9'
  {
    if n < 10 then [Digit(n)] else Decimal(n / 10) + [Digit(n % 10)]
  }

  lemma {:induction false} DecimalInjective(m: nat, n: nat)
    requires Decimal(m) == Decimal(n)
    ensures m == n
  {
    var a, b := Decimal(m), Decimal(n);
    assert a[|a| - 1] == Digit(m % 10) && b[|b| - 1] == Digit(n % 10);
    if m >= 10 && n >= 10 {
      assert a[..|a| - 1] == Decimal(m / 10) && b[..|b| - 1] == Decimal(n / 10);
      DecimalInjective(m / 10, n / 10);
    }
  }

  function FactId(jobId: string, n: nat): string { jobId + ":fact-" + Decimal(n) }

  function LineId(n: nat): string { "resume:line-" + Decimal(n) }

  predicate IsDigit(c: char) { '0' <= c <= '9' }

  function TrailingDigits(s: string): (n: nat)
    ensures n <= |s|
  {
    if s == [] || !IsDigit(s[|s| - 1]) then 0 else 1 + TrailingDigits(s[..|s| - 1])
  }

  /** Digits contain no separator, so the number at the end of an id can be read back. */
  lemma {:induction false} DigitsReadBack(prefix: string, digits: string)
    requires prefix != [] && !IsDigit(prefix[|prefix| - 1])
    requires forall i :: 0 <= i < |digits| ==> IsDigit(digits[i])
    ensures TrailingDigits(prefix + digits) == |digits|
  {
    var s := prefix + digits;
    if digits == [] {
      assert s == prefix;
    } else {
      var n := |digits| - 1;
      assert s[..|s| - 1] == prefix + digits[..n];
      DigitsReadBack(prefix, digits[..n]);
    }
  }

  lemma FactIdInjective(a: string, b: string, m: nat, n: nat)
    requires FactId(a, m) == FactId(b, n)
    ensures a == b && m == n
  {
    var s := FactId(a, m);
    DigitsReadBack(a + ":fact-", Decimal(m));
    DigitsReadBack(b + ":fact-", Decimal(n));
    var k := |s| - TrailingDigits(s);
    assert s[k..] == Decimal(m) && s[k..] == Decimal(n);
    DecimalInjective(m, n);
    assert s[..k - 6] == a && s[..k - 6] == b;
  }

  /** An id made from a line is never an id made from a job. */
  lemma LineIdIsNoFactId(jobId: string, m: nat, n: nat)
    ensures LineId(m) != FactId(jobId, n)
  {
    DigitsReadBack("resume:line-", Decimal(m));
    DigitsReadBack(jobId + ":fact-", Decimal(n));
    assert LineId(m)[|LineId(m)| - TrailingDigits(LineId(m)) - 2] == 'e';
    assert FactId(jobId, n)[|FactId(jobId, n)| - TrailingDigits(FactId(jobId, n)) - 2] == 't';
  }

  lemma LineIdInjective(m: nat, n: nat)
    requires LineId(m) == LineId(n)
    ensures m == n
  {
    assert LineId(m)[12..] == Decimal(m) && LineId(n)[12..] == Decimal(n);
    DecimalInjective(m, n);
  }

  // --------------------------------------------------------------- career history

  /** `clean` collapses spaces and cuts to a length; its result depends on its argument alone. */
  type Cleaner = string -> string

  predicate Skipped(raw: RawJob, clean: Cleaner) { clean(raw.title) == "" && clean(raw.company) == "" }

  function Or(s: string, fallback: string): string { if s == "" then fallback else s }

  function JobId(raw: RawJob, index: nat, clean: Cleaner): string { Or(clean(raw.id), "job-" + Decimal(index + 1)) }

  /** The facts of the first n statements of a job; their numbers count the empty statements too. */
  function StatementFacts(jobId: string, statements: seq<string>, n: nat, clean: Cleaner): seq<Fact>
    requires n <= |statements|
  {
    if n == 0 then []
    else
      var text := clean(statements[n - 1]);
      StatementFacts(jobId, statements, n - 1, clean) + if text == "" then [] else [Fact(FactId(jobId, n), text, jobId)]
  }

  function Ids(facts: seq<Fact>): (ids: seq<string>)
    ensures |ids| == |facts| && forall i :: 0 <= i < |facts| ==> ids[i] == facts[i].id
  {
    seq(|facts|, i requires 0 <= i < |facts| => facts[i].id)
  }

  function Kept(statements: seq<string>): nat { if |statements| < MAX_STATEMENTS then |statements| else MAX_STATEMENTS }

  function FactsOfJob(raw: RawJob, index: nat, clean: Cleaner): seq<Fact> {
    StatementFacts(JobId(raw, index, clean), raw.statements, Kept(raw.statements), clean)
  }

  function JobOf(raw: RawJob, index: nat, clean: Cleaner): Job {
    Job(JobId(raw, index, clean), Or(clean(raw.title), "Role"), Or(clean(raw.company), "Company"),
        clean(raw.location), clean(raw.dates), Ids(FactsOfJob(raw, index, clean)))
  }

  function Jobs(history: seq<RawJob>, n: nat, clean: Cleaner): seq<Job>
    requires n <= |history|
  {
    if n == 0 then []
    else
      Jobs(history, n - 1, clean)
      + if Skipped(history[n - 1], clean) then [] else [JobOf(history[n - 1], n - 1, clean)]
  }

  function HistoryFacts(history: seq<RawJob>, n: nat, clean: Cleaner): seq<Fact>
    requires n <= |history|
  {
    if n == 0 then []
    else
      HistoryFacts(history, n - 1, clean)
      + if Skipped(history[n - 1], clean) then [] else FactsOfJob(history[n - 1], n - 1, clean)
  }

  function Read(history: seq<RawJob>): nat { if |history| < MAX_JOBS then |history| else MAX_JOBS }

  method StatementRows(jobId: string, statements: seq<string>, clean: Cleaner) returns (facts: seq<Fact>)
    ensures facts == StatementFacts(jobId, statements, Kept(statements), clean)
  {
    facts := [];
    for n := 0 to Kept(statements)
      invariant facts == StatementFacts(jobId, statements, n, clean)
    {
      var statement := clean(statements[n]);
      if statement != "" {
        facts := facts + [Fact(FactId(jobId, n + 1), statement, jobId)];
      }
    }
  }

  method HistoryFactRows(history: seq<RawJob>, clean: Cleaner) returns (facts: seq<Fact>, jobs: seq<Job>)
    ensures facts == HistoryFacts(history, Read(history), clean)
    ensures jobs == Jobs(history, Read(history), clean)
  {
    facts, jobs := [], [];
    for index := 0 to Read(history)
      invariant facts == HistoryFacts(history, index, clean)
      invariant jobs == Jobs(history, index, clean)
    {
      var raw := history[index];
      var title, company := clean(raw.title), clean(raw.company);
      if title != "" || company != "" {
        var id := Or(clean(raw.id), "job-" + Decimal(index + 1));
        var rows := StatementRows(id, raw.statements, clean);
        facts := facts + rows;
        jobs := jobs + [Job(id, Or(title, "Role"), Or(company, "Company"), clean(raw.location), clean(raw.dates),
          Ids(rows))];
      }
    }
  }

  // ------------------------------------------------------------------ who owns what

  predicate UniqueJobs(jobs: seq<Job>) {
    forall i, j :: 0 <= i < j < |jobs| ==> jobs[i].id != jobs[j].id
  }

  predicate UniqueFacts(facts: seq<Fact>) {
    forall i, j :: 0 <= i < j < |facts| ==> facts[i].id != facts[j].id
  }

  /** The ids of the facts filed under a job, in order. */
  function OwnIds(facts: seq<Fact>, jobId: string): seq<string> {
    if facts == [] then []
    else
      var n := |facts| - 1;
      OwnIds(facts[..n], jobId) + if facts[n].jobId == jobId then [facts[n].id] else []
  }

  lemma {:induction false} OwnIdsOfAll(facts: seq<Fact>, jobId: string)
    requires forall f :: f in facts ==> f.jobId == jobId
    ensures OwnIds(facts, jobId) == Ids(facts)
  {
    if facts != [] {
      OwnIdsOfAll(facts[..|facts| - 1], jobId);
    }
  }

  lemma {:induction false} OwnIdsOfNone(facts: seq<Fact>, jobId: string)
    requires forall f :: f in facts ==> f.jobId != jobId
    ensures OwnIds(facts, jobId) == []
  {
    if facts != [] {
      OwnIdsOfNone(facts[..|facts| - 1], jobId);
    }
  }

  lemma {:induction false} OwnIdsConcat(a: seq<Fact>, b: seq<Fact>, jobId: string)
    ensures OwnIds(a + b, jobId) == OwnIds(a, jobId) + OwnIds(b, jobId)
  {
    if b == [] {
      assert a + b == a;
    } else {
      var n := |b| - 1;
      assert (a + b)[..|a + b| - 1] == a + b[..n];
      OwnIdsConcat(a, b[..n], jobId);
    }
  }

  /** A fact made from the history carries the number of its statement and the id of its job. */
  lemma {:induction false} StatementFactsOf(jobId: string, statements: seq<string>, n: nat, clean: Cleaner)
    requires n <= |statements|
    ensures var facts := StatementFacts(jobId, statements, n, clean);
      && (forall f :: f in facts ==>
        f.jobId == jobId && f.text != "" && exists k :: 1 <= k <= n && f.id == FactId(jobId, k))
      && UniqueFacts(facts)
  {
    if n > 0 {
      var facts := StatementFacts(jobId, statements, n - 1, clean);
      StatementFactsOf(jobId, statements, n - 1, clean);
      if clean(statements[n - 1]) != "" {
        forall i | 0 <= i < |facts| ensures facts[i].id != FactId(jobId, n) {
          assert facts[i] in facts;
          var k :| 1 <= k <= n - 1 && facts[i].id == FactId(jobId, k);
          if facts[i].id == FactId(jobId, n) {
            FactIdInjective(jobId, jobId, k, n);
          }
        }
      }
    }
  }

  predicate Owned(facts: seq<Fact>, jobs: seq<Job>) {
    && UniqueFacts(facts)
    && (forall job :: job in jobs ==> job.id != "" && job.facts == OwnIds(facts, job.id))
    && (forall f :: f in facts ==> exists job :: job in jobs && job.id == f.jobId)
  }

  lemma JobOwnsItsFacts(raw: RawJob, index: nat, clean: Cleaner)
    ensures Owned(FactsOfJob(raw, index, clean), [JobOf(raw, index, clean)])
  {
    var job := JobOf(raw, index, clean);
    StatementFactsOf(job.id, raw.statements, Kept(raw.statements), clean);
    OwnIdsOfAll(FactsOfJob(raw, index, clean), job.id);
    assert job in [job];
  }

  /** Facts of two separate lists of jobs, put together. */
  lemma OwnedTogether(facts: seq<Fact>, jobs: seq<Job>, more: seq<Fact>, others: seq<Job>)
    requires Owned(facts, jobs) && Owned(more, others) && UniqueJobs(jobs + others)
    requires forall f, g :: f in facts && g in more ==> f.id != g.id
    ensures Owned(facts + more, jobs + others)
  {
    Apart(jobs, others);
    forall job | job in jobs + others ensures job.facts == OwnIds(facts + more, job.id) {
      OwnIdsConcat(facts, more, job.id);
      if job in jobs {
        OwnIdsOfNone(more, job.id);
      } else {
        OwnIdsOfNone(facts, job.id);
      }
    }
    forall f | f in facts + more ensures exists job :: job in jobs + others && job.id == f.jobId {
      if f in facts {
        var job :| job in jobs && job.id == f.jobId;
        assert job in jobs + others;
      } else {
        var job :| job in others && job.id == f.jobId;
        assert job in jobs + others;
      }
    }
  }

  lemma Apart(jobs: seq<Job>, others: seq<Job>)
    requires UniqueJobs(jobs + others)
    ensures forall a, b :: a in jobs && b in others ==> a.id != b.id
  {
    forall a, b | a in jobs && b in others ensures a.id != b.id {
      var i :| 0 <= i < |jobs| && jobs[i] == a;
      var j :| 0 <= j < |others| && others[j] == b;
      assert (jobs + others)[i] == a && (jobs + others)[|jobs| + j] == b;
    }
  }

  ghost predicate FromStatement(f: Fact) { exists k: nat {:trigger FactId(f.jobId, k)} :: f.id == FactId(f.jobId, k) }

  lemma JobFactsAreNumbered(raw: RawJob, index: nat, clean: Cleaner)
    ensures forall f :: f in FactsOfJob(raw, index, clean) ==> FromStatement(f) && f.jobId == JobId(raw, index, clean)
  {
    StatementFactsOf(JobId(raw, index, clean), raw.statements, Kept(raw.statements), clean);
  }

  ghost predicate FromHistory(facts: seq<Fact>, jobs: seq<Job>) {
    Owned(facts, jobs) && forall f :: f in facts ==> FromStatement(f)
  }

  lemma JobFromHistory(raw: RawJob, index: nat, clean: Cleaner)
    ensures FromHistory(FactsOfJob(raw, index, clean), [JobOf(raw, index, clean)])
  {
    JobOwnsItsFacts(raw, index, clean);
    JobFactsAreNumbered(raw, index, clean);
  }

  lemma HistoryTogether(facts: seq<Fact>, jobs: seq<Job>, more: seq<Fact>, job: Job)
    requires FromHistory(facts, jobs) && FromHistory(more, [job]) && UniqueJobs(jobs + [job])
    ensures FromHistory(facts + more, jobs + [job])
  {
    assert forall f :: f in more ==> f.jobId == job.id;
    NumbersApart(facts, jobs, more, job);
    hide UniqueJobs, UniqueFacts, OwnIds;
    OwnedTogether(facts, jobs, more, [job]);
  }

  /** With unique job ids, each job of the history lists exactly the facts filed under it, in
      order, and no two facts share an id. */
  lemma {:induction false} HistoryIsOwned(history: seq<RawJob>, n: nat, clean: Cleaner)
    requires n <= |history| && UniqueJobs(Jobs(history, n, clean))
    ensures FromHistory(HistoryFacts(history, n, clean), Jobs(history, n, clean))
  {
    hide FactsOfJob, JobOf, JobId, Skipped, UniqueJobs;
    if n > 0 {
      var jobs, raw := Jobs(history, n - 1, clean), history[n - 1];
      FrontIsUnique(jobs, if Skipped(raw, clean) then [] else [JobOf(raw, n - 1, clean)]);
      HistoryIsOwned(history, n - 1, clean);
      hide FromHistory;
      if !Skipped(raw, clean) {
        JobFromHistory(raw, n - 1, clean);
        HistoryTogether(HistoryFacts(history, n - 1, clean), jobs, FactsOfJob(raw, n - 1, clean),
          JobOf(raw, n - 1, clean));
      } else {
        assert HistoryFacts(history, n, clean) == HistoryFacts(history, n - 1, clean);
        assert Jobs(history, n, clean) == jobs;
      }
    }
  }

  lemma FrontIsUnique(jobs: seq<Job>, others: seq<Job>)
    requires UniqueJobs(jobs + others)
    ensures UniqueJobs(jobs)
  {
    assert forall i :: 0 <= i < |jobs| ==> (jobs + others)[i] == jobs[i];
  }

  lemma NumbersApart(facts: seq<Fact>, jobs: seq<Job>, more: seq<Fact>, job: Job)
    requires Owned(facts, jobs) && UniqueJobs(jobs + [job])
    requires forall f :: f in facts ==> FromStatement(f)
    requires forall f :: f in more ==> FromStatement(f) && f.jobId == job.id
    ensures forall f, g :: f in facts && g in more ==> f.id != g.id
  {
    Apart(jobs, [job]);
    forall f, g | f in facts && g in more ensures f.id != g.id {
      var m: nat :| f.id == FactId(f.jobId, m);
      var n: nat :| g.id == FactId(g.jobId, n);
      var owner :| owner in jobs && owner.id == f.jobId;
      assert job in [job];
      if f.id == g.id {
        FactIdInjective(f.jobId, g.jobId, m, n);
      }
    }
  }
}
