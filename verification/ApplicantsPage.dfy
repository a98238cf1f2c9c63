/** The handlers of applicants.html as they are written, over the fields they assign; each is
    proved to take the step that the client's functions describe.  An async function is split at
    its await: what it does before the request leaves, and what it does with the answer. */
module ApplicantsPage {
  import opened Basics
  import opened Feed
  import opened Applicants

  datatype Answer = Reply(body: Body) | Error | SignedOut

  lemma NoNewIds(taken: set<string>)
    ensures NewIds([], taken) && Ids([]) == {}
  {}

  /** What one more row adds, and that a list with a bad beginning is bad. */
  lemma OneMoreId(rows: seq<Row>, taken: set<string>, i: nat)
    requires i < |rows| && NewIds(rows[..i], taken)
    ensures Ids(rows[..i + 1]) == Ids(rows[..i]) + {rows[i].applicationId}
    ensures rows[i].applicationId != "" && rows[i].applicationId !in taken + Ids(rows[..i])
      ==> NewIds(rows[..i + 1], taken)
    ensures rows[i].applicationId == "" || rows[i].applicationId in taken + Ids(rows[..i]) ==> !NewIds(rows, taken)
    ensures rows[..0] == []
  {
    hide Ids;
    IdsAppend(rows[..i], [rows[i]]);
    assert rows[..i + 1] == rows[..i] + [rows[i]];
    assert Ids([rows[i]]) == {rows[i].applicationId} by { OneId(rows[i]); }
    assert forall j :: 0 <= j <= i ==> rows[..i + 1][..j] == rows[..j] && rows[..i + 1][j] == rows[j];
    assert forall j :: 0 <= j < i ==> rows[..i][..j] == rows[..j] && rows[..i][j] == rows[j];
  }

  lemma OneId(row: Row)
    ensures Ids([row]) == {row.applicationId}
  {
    assert [row][0] == row && row in [row];
  }

  class Page {
    var paged: bool
    var snapshot: Option<Snapshot>
    var preparing: seq<Row>
    var decisions: map<Key, Decision>
    var generation: Option<Generation>
    var cursor: bool
    var loaded: nat
    var error: bool
    var local: map<Key, Decision>
    var busy: set<Key>
    var sequence: nat
    var loading: bool

    constructor (saved: map<Key, Decision>, ghost recorded: map<Key, Decision>)
      ensures Matches(Start(saved, recorded))
    {
      paged, snapshot, preparing, decisions := false, None, [], map[];
      generation, cursor, loaded, error := None, false, 0, false;
      local, busy, sequence, loading := saved, {}, 0, false;
    }

    ghost function HeldNow(): Held
      reads this
    {
      Held(paged, snapshot, preparing, decisions, generation, cursor, loaded, error)
    }

    /** The fields are the page's part of the state. */
    ghost predicate Matches(s: State)
      reads this
    {
      HeldNow() == s.held && local == s.local && busy == s.posts.Keys && sequence == s.sequence && loading == s.loading
    }

    // ------------------------------------------------------------------ decisions

    method ReconcileLocal()
      modifies `local
      ensures local == Reconcile(old(local), decisions)
    {
      var entries := local;
      var keys := entries.Keys;
      while keys != {}
        invariant keys <= entries.Keys
        invariant forall key ::
          key in local <==> key in entries && (key in keys || !Settled(entries[key], decisions, key))
        invariant forall key :: key in local ==> local[key] == entries[key]
        decreases |keys|
      {
        var key :| key in keys;
        keys := keys - {key};
        var entry := entries[key];
        if entry.action == Undo {
          if key !in decisions {
            local := local - {key};
          }
        } else if key in decisions && (entry.requestId.None? || entry.requestId == decisions[key].requestId) {
          local := local - {key};
        }
      }
    }

    /** Until the request leaves; `sent` is false when one is already on its way. */
    method Decide(key: Key, action: Verdict, click: nat, ghost s: State)
        returns (sent: bool, previous: Option<Decision>)
      requires Matches(s) && click == s.clicks
      modifies `busy, `local
      ensures Matches(Applicants.Decide(s, key, action)) && sent == (key !in s.posts)
      ensures sent ==> Applicants.Decide(s, key, action).posts[key].previous == previous
    {
      if key in busy {
        return false, None;
      }
      hide Reconcile, EffectiveDecision;
      ghost var t := Applicants.Decide(s, key, action);
      assert t.posts.Keys == s.posts.Keys + {key} && t.held == s.held && t.loading == s.loading
        && t.sequence == s.sequence;
      busy := busy + {key};
      previous := if key in local then Some(local[key]) else None;
      local := local[key := if action == Undo then Decision(Undo, None) else Decision(action, Some(Mine(click)))];
      return true, previous;
    }

    method DecisionReplied(key: Key, answer: Option<Decision>, ghost s: State)
      requires Matches(s) && key in s.posts && s.posts[key].served
      modifies `busy, `local
      ensures Matches(DecisionSaved(s, key, answer))
    {
      if answer.Some? {
        local := local[key := answer.value];
      }
      busy := busy - {key};
    }

    method DecisionRefused(key: Key, previous: Option<Decision>, ghost s: State)
      requires Matches(s) && key in s.posts && s.posts[key].previous == previous
      modifies `busy, `local
      ensures Matches(DecisionFailed(s, key))
    {
      if previous.None? {
        local := local - {key};
      } else {
        local := local[key := previous.value];
      }
      busy := busy - {key};
    }

    // --------------------------------------------------------------------- lists

    /** The ids of a page against those already held; `ids` are all of them when the page is good. */
    method CheckIds(prior: seq<Row>, incoming: seq<Row>) returns (ok: bool, ids: set<string>)
      ensures ok == NewIds(incoming, Ids(prior))
      ensures ok ==> ids == Ids(prior) + Ids(incoming)
    {
      hide NewIds, Ids;
      ids := Ids(prior);
      NoNewIds(ids);
      for i := 0 to |incoming|
        invariant ids == Ids(prior) + Ids(incoming[..i])
        invariant NewIds(incoming[..i], Ids(prior))
      {
        OneMoreId(incoming, Ids(prior), i);
        if incoming[i].applicationId == "" || incoming[i].applicationId in ids {
          return false, ids;
        }
        ids := ids + {incoming[i].applicationId};
      }
      assert incoming[..|incoming|] == incoming;
      return true, ids;
    }

    /** Rejects the page, changing nothing, or takes it. */
    method ApplyPagedFeed(body: Body, append: bool) returns (ok: bool)
      modifies `paged, `snapshot, `preparing, `decisions, `generation, `cursor, `loaded, `error, `local
      ensures ok == Accepted(old(HeldNow()), body, append)
      ensures ok ==> HeldNow() == Paged(old(HeldNow()), body, append) && local == Reconcile(old(local), decisions)
      ensures !ok ==> HeldNow() == old(HeldNow()) && local == old(local)
    {
      hide NewIds, Ids, Reconcile;
      if append && body.generation != generation {
        return false;
      }
      var prior := if append then Rows(snapshot, preparing) else [];
      var allNew, ids := CheckIds(prior, BodyRows(body));
      NoIds();
      if !allNew {
        return false;
      }
      var queue := if append then Queue(snapshot) + Queue(body.snapshot) else Queue(body.snapshot);
      var stream := if append then Stream(snapshot) + Stream(body.snapshot) else Stream(body.snapshot);
      paged := true;
      snapshot := Some(Snapshot(queue, stream));
      preparing := if append then preparing + body.preparing else body.preparing;
      decisions := if append then decisions + body.decisions else body.decisions;
      generation, cursor, loaded, error := body.generation, body.cursor, |ids|, false;
      ReconcileLocal();
      return true;
    }

    /** A feed that is not paged. */
    method ApplyWholeFeed(body: Body)
      modifies `snapshot, `preparing, `decisions, `generation, `local
      ensures HeldNow() == Whole(old(HeldNow()), body) && local == Reconcile(old(local), decisions)
    {
      snapshot, preparing, decisions, generation := body.snapshot, body.preparing, body.decisions, body.generation;
      ReconcileLocal();
    }

    method MarkFeedUnavailable()
      modifies `snapshot, `preparing, `decisions, `generation
      ensures HeldNow() == Unavailable(old(HeldNow()))
    {
      snapshot, preparing, decisions, generation := None, [], map[], None;
    }

    method RefreshRefused()
      modifies `snapshot, `preparing, `decisions, `generation, `error
      ensures HeldNow() == Refused(old(HeldNow()))
    {
      if paged && snapshot.Some? {
        error := true;
      } else {
        MarkFeedUnavailable();
      }
    }

    /** `mine` is the number that the answer will be checked against. */
    method LoadFeed(ghost s: State) returns (mine: nat)
      requires Matches(s)
      modifies `sequence, `loading
      ensures Matches(Applicants.LoadFeed(s)) && mine == Applicants.LoadFeed(s).lists[s.requests].sequence
    {
      sequence := sequence + 1;
      loading := true;
      return sequence;
    }

    method FeedArrived(mine: nat, answer: Answer, ghost s: State, ghost id: nat)
      requires Matches(s) && id in s.lists && !s.lists[id].append && s.lists[id].sequence == mine
      requires answer.Reply? ==> s.lists[id].reply == Some(answer.body)
      modifies this
      ensures Matches(if answer.Reply? then Arrive(s, id) else ListFails(s, id, answer.SignedOut?))
    {
      hide Accepted, Paged, Whole, Refused, Reconcile;
      if mine != sequence {
        return;
      }
      loading := false;
      var applied := false;
      match answer {
        case SignedOut => return;
        case Error =>
        case Reply(body) =>
          if body.paged {
            applied := ApplyPagedFeed(body, false);
          } else {
            ApplyWholeFeed(body);
            applied := true;
          }
      }
      if !applied {
        RefreshRefused();
      }
    }

    method LoadMore(manual: bool, modalOpen: bool, ghost s: State) returns (sent: bool, mine: nat)
      requires Matches(s)
      modifies `error, `loading
      ensures Matches(Applicants.LoadMore(s, manual, modalOpen))
      ensures sent ==>
        Applicants.LoadMore(s, manual, modalOpen).lists == s.lists[s.requests := Request(mine, true, None, 0)]
    {
      if !paged || modalOpen || loading || !cursor || (error && !manual) {
        return false, 0;
      }
      if manual {
        error := false;
      }
      loading := true;
      return true, sequence;
    }

    method PageArrived(mine: nat, answer: Answer, ghost s: State, ghost id: nat)
      requires Matches(s) && id in s.lists && s.lists[id].append && s.lists[id].sequence == mine
      requires answer.Reply? ==> s.lists[id].reply == Some(answer.body)
      modifies this
      ensures Matches(if answer.Reply? then Arrive(s, id) else ListFails(s, id, answer.SignedOut?))
    {
      hide Accepted, Paged, Whole, Refused, Reconcile;
      if mine != sequence {
        return;
      }
      loading := false;
      var applied := false;
      if answer.Reply? && answer.body.paged {
        applied := ApplyPagedFeed(answer.body, true);
      }
      if !applied {
        error := true;
      }
    }
  }
}
