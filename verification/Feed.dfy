/** What the Applicants page holds (applicants.html) and how one answer of the server changes it:
    the decision overlay, whole feeds and appended pages. */
module Feed {
  import opened Basics

  type Key = string

  datatype Verdict = Pass | Interview | Undo

  /** Request ids made by this page, and those of everyone else. */
  datatype RequestId = Mine(click: nat) | Theirs(number: nat)

  datatype Decision = Decision(action: Verdict, requestId: Option<RequestId>)

  datatype Generation = Generation(id: string, digest: string)

  /** `origin` is the generation of the answer the row came in. */
  datatype Row = Row(applicationId: string, key: Key, origin: Option<Generation>)

  datatype Snapshot = Snapshot(queue: seq<Row>, stream: seq<Row>)

  /** An answer of the feed endpoint. */
  datatype Body = Body(
    paged: bool, snapshot: Option<Snapshot>, preparing: seq<Row>,
    decisions: map<Key, Decision>, generation: Option<Generation>, cursor: bool)

  /** `cursor` says that there is a next page, `error` that a message replaces the count. */
  datatype Held = Held(
    paged: bool, snapshot: Option<Snapshot>, preparing: seq<Row>,
    decisions: map<Key, Decision>, generation: Option<Generation>, cursor: bool, loaded: nat, error: bool)

  // -------------------------------------------------------------------- overlay

  /** An overlay entry the server has caught up with. */
  predicate Settled(entry: Decision, decisions: map<Key, Decision>, key: Key) {
    if entry.action == Undo then key !in decisions
    else key in decisions && (entry.requestId.None? || entry.requestId == decisions[key].requestId)
  }

  function Reconcile(local: map<Key, Decision>, decisions: map<Key, Decision>): map<Key, Decision> {
    map key | key in local && !Settled(local[key], decisions, key) :: local[key]
  }

  function EffectiveDecision(local: map<Key, Decision>, decisions: map<Key, Decision>, key: Key): Option<Decision> {
    var decision := if key in local then Some(local[key]) else if key in decisions then Some(decisions[key]) else None;
    if decision.Some? && decision.value.action == Undo then None else decision
  }

  // ----------------------------------------------------------------------- rows

  function Queue(snapshot: Option<Snapshot>): seq<Row> {
    if snapshot.Some? then snapshot.value.queue else []
  }

  function Stream(snapshot: Option<Snapshot>): seq<Row> {
    if snapshot.Some? then snapshot.value.stream else []
  }

  /** The rows of a snapshot and the rows being prepared, in the order applyPagedFeed reads them. */
  function Rows(snapshot: Option<Snapshot>, preparing: seq<Row>): seq<Row> {
    Queue(snapshot) + Stream(snapshot) + preparing
  }

  function HeldRows(held: Held): seq<Row> { Rows(held.snapshot, held.preparing) }

  function BodyRows(body: Body): seq<Row> { Rows(body.snapshot, body.preparing) }

  predicate Lists(rows: seq<Row>, key: Key) { exists row :: row in rows && row.key == key }

  function Ids(rows: seq<Row>): set<string> { set row | row in rows :: row.applicationId }

  /** Every row has an id, and none repeats an earlier one or one of `taken`. */
  predicate NewIds(rows: seq<Row>, taken: set<string>) {
    forall i :: 0 <= i < |rows| ==>
      rows[i].applicationId != "" && rows[i].applicationId !in taken && rows[i].applicationId !in Ids(rows[..i])
  }

  // ------------------------------------------------------------ applying answers

  predicate Accepted(held: Held, body: Body, append: bool) {
    && (append ==> body.generation == held.generation)
    && NewIds(BodyRows(body), if append then Ids(HeldRows(held)) else {})
  }

  /** applyPagedFeed, for an answer it does not reject. */
  function Paged(held: Held, body: Body, append: bool): Held {
    var prior := if append then HeldRows(held) else [];
    Held(
      true,
      Some(if append
           then Snapshot(Queue(held.snapshot) + Queue(body.snapshot), Stream(held.snapshot) + Stream(body.snapshot))
           else Snapshot(Queue(body.snapshot), Stream(body.snapshot))),
      if append then held.preparing + body.preparing else body.preparing,
      if append then held.decisions + body.decisions else body.decisions,
      body.generation, body.cursor, |Ids(prior) + Ids(BodyRows(body))|, false)
  }

  /** A feed that is not paged replaces what is held. */
  function Whole(held: Held, body: Body): Held {
    held.(snapshot := body.snapshot, preparing := body.preparing, decisions := body.decisions,
      generation := body.generation)
  }

  /** markFeedUnavailable. */
  function Unavailable(held: Held): Held {
    held.(snapshot := None, preparing := [], decisions := map[], generation := None)
  }

  /** A failed refresh keeps a paged list and discards any other. */
  function Refused(held: Held): Held {
    if held.paged && held.snapshot.Some? then held.(error := true) else Unavailable(held)
  }

  // ------------------------------------------------------------- what they keep

  /** A paged list holds rows of one generation, none twice, and counts them. */
  predicate Coherent(held: Held) {
    held.paged ==>
      && held.snapshot.Some?
      && NewIds(HeldRows(held), {})
      && (forall row :: row in HeldRows(held) ==> row.origin == held.generation)
      && held.loaded == |HeldRows(held)|
  }

  lemma IdsAppend(a: seq<Row>, b: seq<Row>)
    ensures Ids(a + b) == Ids(a) + Ids(b)
  {
    forall id | id in Ids(a) + Ids(b) ensures id in Ids(a + b) {
      var row :| row in a + b && row.applicationId == id;
    }
  }

  /** NewIds without an order: no id is empty, no two are equal. */
  predicate Distinct(rows: seq<Row>) {
    && (forall i :: 0 <= i < |rows| ==> rows[i].applicationId != "")
    && (forall i, j :: 0 <= i < j < |rows| ==> rows[i].applicationId != rows[j].applicationId)
  }

  lemma LastIsNew(rows: seq<Row>)
    requires Distinct(rows) && rows != []
    ensures var n := |rows| - 1;
      && Distinct(rows[..n]) && rows[n].applicationId !in Ids(rows[..n])
      && Ids(rows) == Ids(rows[..n]) + {rows[n].applicationId}
  {
    var n := |rows| - 1;
    assert rows == rows[..n] + [rows[n]];
    IdsAppend(rows[..n], [rows[n]]);
    assert Ids([rows[n]]) == {rows[n].applicationId};
  }

  lemma {:induction false} DistinctIdsCount(rows: seq<Row>)
    requires Distinct(rows)
    ensures |Ids(rows)| == |rows|
  {
    hide Distinct, Ids;
    if rows == [] {
      NoIds();
    } else {
      LastIsNew(rows);
      DistinctIdsCount(rows[..|rows| - 1]);
    }
  }

  lemma NoIds()
    ensures Ids([]) == {}
  {}

  lemma NewIdsIsDistinct(rows: seq<Row>)
    ensures NewIds(rows, {}) <==> Distinct(rows)
  {
    if NewIds(rows, {}) {
      forall i, j | 0 <= i < j < |rows| ensures rows[i].applicationId != rows[j].applicationId {
        assert rows[..j][i] == rows[i];
      }
    }
  }

  lemma DistinctParts(a: seq<Row>, b: seq<Row>)
    ensures Distinct(a + b) <==> Distinct(a) && Distinct(b) && Ids(a) !! Ids(b)
    ensures Ids(a + b) == Ids(a) + Ids(b)
  {
    IdsAppend(a, b);
    var ab := a + b;
    assert forall i :: 0 <= i < |a| ==> ab[i] == a[i];
    assert forall j :: 0 <= j < |b| ==> ab[|a| + j] == b[j];
    if Distinct(ab) {
      assert Distinct(a);
      forall i, j | 0 <= i < j < |b| ensures b[i].applicationId != b[j].applicationId {
        assert ab[|a| + i] == b[i] && ab[|a| + j] == b[j];
      }
      forall i, j | 0 <= i < |a| && 0 <= j < |b| ensures a[i].applicationId != b[j].applicationId {
        assert ab[i].applicationId != ab[|a| + j].applicationId;
      }
    }
    if Distinct(a) && Distinct(b) && Ids(a) !! Ids(b) {
      forall i, j | 0 <= i < j < |ab| ensures ab[i].applicationId != ab[j].applicationId {
        if i < |a| <= j {
          assert a[i].applicationId in Ids(a) && b[j - |a|].applicationId in Ids(b);
        }
      }
      forall i | 0 <= i < |ab| ensures ab[i].applicationId != "" {
      }
    }
  }

  lemma DistinctOfThree(a: seq<Row>, b: seq<Row>, c: seq<Row>)
    ensures Distinct(a + b + c) <==>
      && Distinct(a) && Distinct(b) && Distinct(c) && Ids(a) !! Ids(b) && Ids(a) !! Ids(c) && Ids(b) !! Ids(c)
    ensures Ids(a + b + c) == Ids(a) + Ids(b) + Ids(c)
  {
    hide Distinct, Ids;
    DistinctParts(a, b);
    DistinctParts(a + b, c);
  }

  lemma NewIdsAreApart(rows: seq<Row>, taken: set<string>)
    requires NewIds(rows, taken)
    ensures Distinct(rows) && Ids(rows) !! taken
  {
    assert NewIds(rows, {});
    NewIdsIsDistinct(rows);
  }

  lemma JoinedPairwise(q: seq<Row>, q': seq<Row>, s: seq<Row>, s': seq<Row>, p: seq<Row>, p': seq<Row>)
    requires Distinct(q + s + p) && Distinct(q' + s' + p') && Ids(q + s + p) !! Ids(q' + s' + p')
    ensures Distinct((q + q') + (s + s') + (p + p'))
  {
    hide Distinct, Ids;
    DistinctOfThree(q, s, p);
    DistinctOfThree(q', s', p');
    DistinctParts(q, q');
    DistinctParts(s, s');
    DistinctParts(p, p');
    DistinctOfThree(q + q', s + s', p + p');
  }

  lemma PagedRows(held: Held, body: Body)
    ensures |HeldRows(Paged(held, body, true))| == |HeldRows(held)| + |BodyRows(body)|
    ensures forall row :: row in HeldRows(Paged(held, body, true)) <==> row in HeldRows(held) || row in BodyRows(body)
    ensures HeldRows(Paged(held, body, false)) == BodyRows(body)
  {}

  /** Appending a page of new ids joins three lists pairwise; nothing is repeated. */
  lemma AppendedIsDistinct(held: Held, body: Body)
    requires NewIds(HeldRows(held), {}) && NewIds(BodyRows(body), Ids(HeldRows(held)))
    ensures NewIds(HeldRows(Paged(held, body, true)), {})
    ensures Paged(held, body, true).loaded == |HeldRows(held)| + |BodyRows(body)|
  {
    NewIdsIsDistinct(HeldRows(held));
    NewIdsAreApart(BodyRows(body), Ids(HeldRows(held)));
    hide Distinct, Ids, NewIds;
    JoinedPairwise(Queue(held.snapshot), Queue(body.snapshot), Stream(held.snapshot), Stream(body.snapshot),
                   held.preparing, body.preparing);
    NewIdsIsDistinct(HeldRows(Paged(held, body, true)));
    DistinctParts(HeldRows(held), BodyRows(body));
    DistinctIdsCount(HeldRows(held) + BodyRows(body));
  }

  /** An accepted page keeps the list coherent; `loaded` is the number of rows held. */
  lemma PagedKeeps(held: Held, body: Body, append: bool)
    requires Coherent(held) && (append ==> held.paged) && Accepted(held, body, append)
    requires forall row :: row in BodyRows(body) ==> row.origin == body.generation
    ensures Coherent(Paged(held, body, append))
  {
    PagedRows(held, body);
    if append {
      AppendedIsDistinct(held, body);
    } else {
      NewIdsIsDistinct(BodyRows(body));
      DistinctIdsCount(BodyRows(body));
      assert Ids([]) + Ids(BodyRows(body)) == Ids(BodyRows(body));
    }
  }
}
