/** While the server answers in pages: the list held is always rows of one generation, without
    repeats and correctly counted, and a page that does not fit changes none of it. */
module Paging {
  import opened Basics
  import opened Feed
  import opened Applicants

  /** A paged answer whose rows are of its own generation. */
  predicate Answers(body: Body) {
    body.paged && forall row :: row in BodyRows(body) ==> row.origin == body.generation
  }

  ghost predicate Inv(s: State) {
    && Coherent(s.held)
    && (forall id :: id in s.lists && s.lists[id].append ==> s.held.paged)
    && (forall id :: id in s.lists && s.lists[id].reply.Some? ==> Answers(s.lists[id].reply.value))
  }

  predicate SameList(held: Held, after: Held) {
    && after.paged == held.paged && after.snapshot == held.snapshot && after.preparing == held.preparing
    && after.decisions == held.decisions && after.generation == held.generation && after.loaded == held.loaded
  }

  lemma SameListKeeps(s: State, t: State)
    requires Inv(s) && SameList(s.held, t.held)
    requires forall id :: id in t.lists ==>
      (id in s.lists && t.lists[id] == s.lists[id])
      || ((t.lists[id].append ==> s.held.paged) && (t.lists[id].reply.Some? ==> Answers(t.lists[id].reply.value)))
    ensures Inv(t)
  {
    assert HeldRows(t.held) == HeldRows(s.held);
  }

  /** A paged list outlives every failed request: neither rows nor decisions change. */
  lemma FailureKeepsPagedList(s: State, id: nat, signedOut: bool)
    requires Inv(s) && s.held.paged
    ensures SameList(s.held, ListFails(s, id, signedOut).held)
  {}

  lemma FailureKeeps(s: State, id: nat, signedOut: bool)
    requires Inv(s)
    ensures Inv(ListFails(s, id, signedOut))
  {
    if s.held.paged {
      FailureKeepsPagedList(s, id, signedOut);
      hide HeldAfterFailure, Coherent;
      SameListKeeps(s, ListFails(s, id, signedOut));
    }
  }

  lemma ArriveKeeps(s: State, id: nat)
    requires Inv(s) && id in s.lists && s.lists[id].reply.Some?
    ensures Inv(Arrive(s, id))
  {
    if Applies(s, id) {
      PagedKeeps(s.held, s.lists[id].reply.value, s.lists[id].append);
      hide Coherent, Accepted, Reconcile;
    } else {
      FailureKeeps(s, id, false);
    }
  }

  lemma ApplyKeeps(s: State, a: Action)
    requires Inv(s) && (a.ServeFeed? ==> a.body.paged)
    ensures Inv(Apply(s, a))
  {
    hide Inv, Answers, ListFails;
    match a {
      case Answered(id) =>
        if id in s.lists && s.lists[id].reply.Some? {
          ArriveKeeps(s, id);
        }
      case Broken(id, signedOut) => FailureKeeps(s, id, signedOut);
      case ServeFeed(id, body) => ServedKeeps(s, id, body);
      case _ => SameListKeeps(s, Apply(s, a));
    }
  }

  lemma ServedKeeps(s: State, id: nat, body: Body)
    requires Inv(s) && body.paged
    ensures Inv(ServeList(s, id, body))
  {
    hide Coherent;
    assert Truthful(body, s.recorded) ==> Answers(body);
    hide Truthful, Answers;
    SameListKeeps(s, ServeList(s, id, body));
  }

  /** A page that repeats an application, or is of another generation, changes nothing held. */
  lemma RejectedPageChangesNothing(s: State, id: nat)
    requires id in s.lists && s.lists[id].append && s.lists[id].reply.Some? && !Applies(s, id)
    ensures SameList(s.held, Arrive(s, id).held) && Arrive(s, id).local == s.local
  {}

  predicate InPages(run: seq<Action>) { forall a :: a in run && a.ServeFeed? ==> a.body.paged }

  lemma {:induction false} RunsKeepInv(s: State, run: seq<Action>)
    requires Inv(s) && InPages(run)
    ensures Inv(Exec(s, run))
  {
    if run != [] {
      hide Inv, Apply;
      RunsKeepInv(s, run[..|run| - 1]);
      ApplyKeeps(Exec(s, run[..|run| - 1]), run[|run| - 1]);
    }
  }

  /** In every run of a server that answers in pages: the rows held are of the current generation,
      no application is listed twice, and `loaded` is their number. */
  lemma ListIsCoherent(local: map<Key, Decision>, recorded: map<Key, Decision>, run: seq<Action>)
    requires InPages(run)
    ensures var held := Exec(Start(local, recorded), run).held;
      held.paged ==>
        && Distinct(HeldRows(held)) && held.loaded == |HeldRows(held)|
        && forall row :: row in HeldRows(held) ==> row.origin == held.generation
  {
    var s := Start(local, recorded);
    RunsKeepInv(s, run);
    NewIdsIsDistinct(HeldRows(Exec(s, run).held));
  }
}
