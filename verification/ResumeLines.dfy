/** Filing the lines of the candidate's own resume (resume-renderer/app.py): a line that names a
    job opens it, a usable line that follows becomes a fact of the open job, ahead of the facts
    the history gave it. */
module ResumeLines {
  import opened Basics
  import opened Facts

  /** How a line is judged: its score against a title and company, and whether it can be a fact. */
  datatype Reader = Reader(score: (string, string, string) -> int, usable: string -> bool, clean: Cleaner)

  const MATCH: int := 2

  datatype Filing = Filing(facts: seq<Fact>, jobs: seq<Job>, current: Option<nat>, counts: map<string, nat>,
    matched: nat)

  // -------------------------------------------------------------- the job a line names

  function Score(r: Reader, line: string, job: Job): int { r.score(line, job.title, job.company) }

  /** The first job of the highest score, when that is a match. */
  function BestJob(r: Reader, line: string, jobs: seq<Job>): (best: Option<nat>)
    ensures best.Some? ==>
      && best.value < |jobs| && Score(r, line, jobs[best.value]) >= MATCH
      && (forall j :: 0 <= j < |jobs| ==> Score(r, line, jobs[j]) <= Score(r, line, jobs[best.value]))
      && (forall j :: 0 <= j < best.value ==> Score(r, line, jobs[j]) < Score(r, line, jobs[best.value]))
    ensures best.None? ==> forall j :: 0 <= j < |jobs| ==> Score(r, line, jobs[j]) < MATCH
  {
    if jobs == [] then None
    else
      var n := |jobs| - 1;
      var best := BestJob(r, line, jobs[..n]);
      var score := Score(r, line, jobs[n]);
      if score >= MATCH && (best.None? || score > Score(r, line, jobs[best.value])) then Some(n) else best
  }

  method FindJob(r: Reader, line: string, jobs: seq<Job>) returns (best: Option<nat>)
    ensures best == BestJob(r, line, jobs)
  {
    best := None;
    var top := 0;
    for n := 0 to |jobs|
      invariant best == BestJob(r, line, jobs[..n])
      invariant best.Some? ==> top == Score(r, line, jobs[best.value])
    {
      assert jobs[..n + 1][..n] == jobs[..n];
      var score := Score(r, line, jobs[n]);
      if score >= MATCH && (best.None? || score > top) {
        best, top := Some(n), score;
      }
    }
    assert jobs[..|jobs|] == jobs;
  }

  // ------------------------------------------------------------------- filing one line

  /** A list's insert: past the end it appends. */
  function Insert(ids: seq<string>, offset: nat, id: string): seq<string> {
    if offset <= |ids| then ids[..offset] + [id] + ids[offset..] else ids + [id]
  }

  function Count(counts: map<string, nat>, jobId: string): nat { if jobId in counts then counts[jobId] else 0 }

  predicate InRange(s: Filing) { s.current.Some? ==> s.current.value < |s.jobs| }

  /** Line number `index` of the resume. */
  function FileLine(r: Reader, s: Filing, line: string, index: nat): (after: Filing)
    requires InRange(s)
    ensures InRange(after) && |after.jobs| == |s.jobs|
  {
    var best := BestJob(r, line, s.jobs);
    if best.Some? then s.(current := best)
    else if !r.usable(line) then s
    else if s.current.None? then s.(facts := s.facts + [Fact(LineId(index + 1), r.clean(line), "")])
    else
      var job := s.jobs[s.current.value];
      var offset := Count(s.counts, job.id);
      Filing(s.facts + [Fact(LineId(index + 1), r.clean(line), job.id)],
             s.jobs[s.current.value := job.(facts := Insert(job.facts, offset, LineId(index + 1)))],
             s.current, s.counts[job.id := offset + 1], s.matched + 1)
  }

  /** The first n lines. */
  function Filed(r: Reader, lines: seq<string>, n: nat, jobs: seq<Job>): (after: Filing)
    requires n <= |lines|
    ensures InRange(after) && |after.jobs| == |jobs|
  {
    if n == 0 then Filing([], jobs, None, map[], 0) else FileLine(r, Filed(r, lines, n - 1, jobs), lines[n - 1], n - 1)
  }

  method ResumeFactRows(r: Reader, lines: seq<string>, given: seq<Job>)
      returns (facts: seq<Fact>, jobs: seq<Job>, matched: nat)
    ensures var filed := Filed(r, lines, |lines|, given);
      facts == filed.facts && jobs == filed.jobs && matched == filed.matched
  {
    hide BestJob, Insert, Score;
    facts, jobs, matched := [], given, 0;
    var current: Option<nat> := None;
    var counts: map<string, nat> := map[];
    for index := 0 to |lines|
      invariant Filing(facts, jobs, current, counts, matched) == Filed(r, lines, index, given)
    {
      var line := lines[index];
      var best := FindJob(r, line, jobs);
      if best.Some? {
        current := best;
      } else if r.usable(line) {
        var id := LineId(index + 1);
        facts := facts + [Fact(id, r.clean(line), if current.Some? then jobs[current.value].id else "")];
        if current.Some? {
          var job := jobs[current.value];
          var offset := if job.id in counts then counts[job.id] else 0;
          jobs := jobs[current.value := job.(facts := Insert(job.facts, offset, id))];
          counts := counts[job.id := offset + 1];
          matched := matched + 1;
        }
      }
    }
  }

  // --------------------------------------------------------------- what filing amounts to

  /** The job open after the first n lines: the one that the last naming line names. */
  function Open(r: Reader, lines: seq<string>, n: nat, jobs: seq<Job>): Option<nat>
    requires n <= |lines|
  {
    if n == 0 then None
    else if BestJob(r, lines[n - 1], jobs).Some? then BestJob(r, lines[n - 1], jobs)
    else Open(r, lines, n - 1, jobs)
  }

  /** The facts of a resume, line by line: usable lines that name no job, filed under the open one. */
  function LineFacts(r: Reader, lines: seq<string>, n: nat, jobs: seq<Job>): seq<Fact>
    requires n <= |lines|
  {
    if n == 0 then []
    else
      var open := Open(r, lines, n, jobs);
      LineFacts(r, lines, n - 1, jobs)
      + if BestJob(r, lines[n - 1], jobs).Some? || !r.usable(lines[n - 1]) then []
        else [Fact(LineId(n), r.clean(lines[n - 1]),
          if open.Some? && open.value < |jobs| then jobs[open.value].id else "")]
  }

  /** Filing changes what a job owns, not which job it is. */
  predicate SameJobs(jobs: seq<Job>, after: seq<Job>) {
    |after| == |jobs| && forall i :: 0 <= i < |jobs| ==> after[i] == jobs[i].(facts := after[i].facts)
  }

  lemma {:induction false} BestJobSame(r: Reader, line: string, jobs: seq<Job>, after: seq<Job>)
    requires SameJobs(jobs, after)
    ensures BestJob(r, line, after) == BestJob(r, line, jobs)
  {
    if jobs != [] {
      BestJobSame(r, line, jobs[..|jobs| - 1], after[..|jobs| - 1]);
    }
  }

  /** The filing after n lines, in terms of the lines alone. */
  predicate Tidy(r: Reader, lines: seq<string>, n: nat, jobs: seq<Job>, s: Filing)
    requires n <= |lines|
  {
    && SameJobs(jobs, s.jobs)
    && s.current == Open(r, lines, n, jobs)
    && s.facts == LineFacts(r, lines, n, jobs)
    && OwnsLines(jobs, s)
  }

  lemma OpensTidily(r: Reader, lines: seq<string>, n: nat, jobs: seq<Job>, s: Filing)
    requires n < |lines| && InRange(s) && SameJobs(jobs, s.jobs)
    requires s.current == Open(r, lines, n, jobs) && s.facts == LineFacts(r, lines, n, jobs)
    ensures var t := FileLine(r, s, lines[n], n);
      && SameJobs(jobs, t.jobs) && t.current == Open(r, lines, n + 1, jobs)
        && t.facts == LineFacts(r, lines, n + 1, jobs)
  {
    BestJobSame(r, lines[n], jobs, s.jobs);
    hide BestJob, Score, Insert;
  }

  predicate OwnsLines(jobs: seq<Job>, s: Filing)
    requires |jobs| == |s.jobs|
  {
    forall i :: 0 <= i < |jobs| ==>
      && s.jobs[i].facts == OwnIds(s.facts, jobs[i].id) + jobs[i].facts
      && Count(s.counts, jobs[i].id) == |OwnIds(s.facts, jobs[i].id)|
  }

  lemma OwnedByOne(facts: seq<Fact>, f: Fact, jobId: string)
    ensures OwnIds(facts + [f], jobId) == OwnIds(facts, jobId) + if f.jobId == jobId then [f.id] else []
  {
    assert (facts + [f])[..|facts|] == facts;
  }

  /** A fact filed goes after the lines its job already has and before what the job came with. */
  lemma OwnsTidily(r: Reader, line: string, n: nat, jobs: seq<Job>, s: Filing)
    requires UniqueJobs(jobs) && (forall job :: job in jobs ==> job.id != "")
    requires InRange(s) && SameJobs(jobs, s.jobs) && OwnsLines(jobs, s)
    ensures OwnsLines(jobs, FileLine(r, s, line, n))
  {
    var t := FileLine(r, s, line, n);
    hide BestJob, OwnIds;
    if t.facts != s.facts {
      var f := t.facts[|s.facts|];
      assert t.facts == s.facts + [f];
      forall i | 0 <= i < |jobs|
        ensures t.jobs[i].facts == OwnIds(t.facts, jobs[i].id) + jobs[i].facts
        ensures Count(t.counts, jobs[i].id) == |OwnIds(t.facts, jobs[i].id)|
      {
        OwnedByOne(s.facts, f, jobs[i].id);
        assert jobs[i] in jobs;
        if s.current == Some(i) {
          var own := OwnIds(s.facts, jobs[i].id);
          assert Insert(own + jobs[i].facts, |own|, f.id) == own + [f.id] + jobs[i].facts;
        }
      }
    }
  }

  lemma StartsTidily(r: Reader, lines: seq<string>, jobs: seq<Job>)
    ensures Tidy(r, lines, 0, jobs, Filing([], jobs, None, map[], 0))
  {}

  lemma StepsTidily(r: Reader, lines: seq<string>, n: nat, jobs: seq<Job>, s: Filing)
    requires n < |lines| && UniqueJobs(jobs) && (forall job :: job in jobs ==> job.id != "")
    requires InRange(s) && Tidy(r, lines, n, jobs, s)
    ensures Tidy(r, lines, n + 1, jobs, FileLine(r, s, lines[n], n))
  {
    assert SameJobs(jobs, s.jobs);
    hide UniqueJobs, FileLine, SameJobs, OwnsLines, Open, LineFacts;
    OpensTidily(r, lines, n, jobs, s);
    OwnsTidily(r, lines[n], n, jobs, s);
  }

  /** With unique job ids, the resume's facts are its usable lines in order, and each job lists the
      lines filed under it, in line order, before the facts it came with. */
  lemma {:induction false} FiledTidily(r: Reader, lines: seq<string>, n: nat, jobs: seq<Job>)
    requires n <= |lines| && UniqueJobs(jobs) && forall job :: job in jobs ==> job.id != ""
    ensures Tidy(r, lines, n, jobs, Filed(r, lines, n, jobs))
  {
    hide Tidy, FileLine, UniqueJobs;
    if n == 0 {
      StartsTidily(r, lines, jobs);
    } else {
      FiledTidily(r, lines, n - 1, jobs);
      StepsTidily(r, lines, n - 1, jobs, Filed(r, lines, n - 1, jobs));
    }
  }
}
