/** A clicked row stays decided: whatever polls, replies and other people's decisions do in
    between, a Pass or Interview shows from the click until its own request fails or it is
    undone. */
module Overlay {
  import opened Basics
  import opened Feed
  import opened Applicants

  /** The server has a decision on the row, and every list that shows the row shows one: the list
      held, and the answer of the current request once it is on its way. */
  ghost predicate Safe(s: State, key: Key) {
    && key in s.recorded
    && (Lists(HeldRows(s.held), key) ==> key in s.held.decisions)
    && (forall id :: Current(s, id) && s.lists[id].reply.Some? && Lists(BodyRows(s.lists[id].reply.value), key) ==>
          key in s.lists[id].reply.value.decisions)
  }

  /** An overlay entry protects the row, unless it is no longer needed. */
  ghost predicate Shielded(s: State, key: Key, entry: Option<Decision>) {
    if entry.Some? then entry.value.action != Undo else Safe(s, key)
  }

  function LocalEntry(s: State, key: Key): Option<Decision> {
    if key in s.local then Some(s.local[key]) else None
  }

  /** The click whose request the server has not served. */
  function Waiting(s: State, key: Key): set<nat> {
    if key in s.posts && !s.posts[key].served then {s.posts[key].click} else {}
  }

  /** A decision the server has given: not an undo, and not carrying the id of a request it has
      not seen. */
  predicate Seen(s: State, key: Key, decisions: map<Key, Decision>) {
    key in decisions ==>
      && decisions[key].action != Undo
      && (decisions[key].requestId.Some? && decisions[key].requestId.value.Mine? ==>
            var click := decisions[key].requestId.value.click;
            click < s.clicks && click !in Waiting(s, key))
  }

  ghost predicate AllSeen(s: State, key: Key) {
    && Seen(s, key, s.recorded)
    && Seen(s, key, s.held.decisions)
    && (forall id :: id in s.lists && s.lists[id].reply.Some? ==> Seen(s, key, s.lists[id].reply.value.decisions))
  }

  /** The record of one row. */
  ghost predicate KeyInv(s: State, key: Key) {
    && (Alive(s, key) != {} ==> Shielded(s, key, LocalEntry(s, key)))
    && (Alive(s, key) - Waiting(s, key) != {} ==> key in s.recorded)
    && (forall click :: click in Alive(s, key) ==> click < s.clicks)
    && (key in s.posts ==>
          var post := s.posts[key];
          && post.click < s.clicks
          && (post.action == Undo ==> Alive(s, key) == {})
          && (Alive(s, key) - {post.click} != {} ==> Shielded(s, key, post.previous))
          && (!post.served ==> LocalEntry(s, key) == Some(Entry(post.action, post.click)) || post.action == Undo))
  }

  ghost predicate Inv(s: State) {
    OneCurrent(s) && forall key {:trigger KeyInv(s, key)} {:trigger AllSeen(s, key)} ::
      KeyInv(s, key) && AllSeen(s, key)
  }

  // ------------------------------------------------------------------- decisions

  predicate SameFeed(s: State, t: State) {
    t.held == s.held && t.sequence == s.sequence && t.lists == s.lists
  }

  lemma SafeCarriesOver(s: State, t: State, key: Key)
    requires Safe(s, key) && SameFeed(s, t) && key in t.recorded
    ensures Safe(t, key)
  {
    assert forall id :: Current(t, id) <==> Current(s, id);
  }

  /** An action on another row. */
  lemma OtherRow(s: State, t: State, key: Key)
    requires KeyInv(s, key) && AllSeen(s, key) && SameFeed(s, t) && s.clicks <= t.clicks
    requires LocalEntry(t, key) == LocalEntry(s, key) && Alive(t, key) == Alive(s, key)
    requires (key in t.posts <==> key in s.posts) && (key in s.posts ==> t.posts[key] == s.posts[key])
    requires (key in t.recorded <==> key in s.recorded) && (key in s.recorded ==> t.recorded[key] == s.recorded[key])
    ensures KeyInv(t, key) && AllSeen(t, key)
  {
    assert Waiting(t, key) == Waiting(s, key);
    assert forall d :: Seen(s, key, d) ==> Seen(t, key, d);
    if Safe(s, key) {
      SafeCarriesOver(s, t, key);
    }
  }

  lemma ClickKeeps(s: State, row: Key, action: Verdict, key: Key)
    requires KeyInv(s, key) && AllSeen(s, key)
    ensures KeyInv(Decide(s, row, action), key) && AllSeen(Decide(s, row, action), key)
  {
    var t := Decide(s, row, action);
    if row != key {
      hide KeyInv, AllSeen;
      OtherRow(s, t, key);
    } else {
      if key !in s.posts {
        assert Waiting(t, key) == {s.clicks};
        assert forall d :: Seen(s, key, d) ==> Seen(t, key, d);
        if action != Undo {
          assert Alive(t, key) - {s.clicks} == Alive(s, key);
          if Safe(s, key) {
            SafeCarriesOver(s, t, key);
          }
        }
      }
    }
  }

  lemma ServeKeeps(s: State, row: Key, keepsId: bool, key: Key)
    requires KeyInv(s, key) && AllSeen(s, key)
    ensures KeyInv(ServeDecision(s, row, keepsId), key) && AllSeen(ServeDecision(s, row, keepsId), key)
  {
    var t := ServeDecision(s, row, keepsId);
    if row != key {
      hide KeyInv, AllSeen;
      OtherRow(s, t, key);
    } else {
      if t != s {
        assert Waiting(t, key) == {};
        assert forall d :: Seen(s, key, d) ==> Seen(t, key, d);
        if Safe(s, key) && key in t.recorded {
          SafeCarriesOver(s, t, key);
        }
      }
    }
  }

  lemma SavedKeeps(s: State, row: Key, answer: Option<Decision>, key: Key)
    requires KeyInv(s, key) && AllSeen(s, key) && Allowed(s, Saved(row, answer))
    ensures KeyInv(DecisionSaved(s, row, answer), key) && AllSeen(DecisionSaved(s, row, answer), key)
  {
    var t := DecisionSaved(s, row, answer);
    if row != key {
      hide KeyInv, AllSeen;
      OtherRow(s, t, key);
    } else {
      if t != s {
        assert Waiting(t, key) == Waiting(s, key) == {};
        assert forall d :: Seen(s, key, d) ==> Seen(t, key, d);
        if Safe(s, key) {
          SafeCarriesOver(s, t, key);
        }
      }
    }
  }

  lemma FailedKeeps(s: State, row: Key, key: Key)
    requires KeyInv(s, key) && AllSeen(s, key)
    ensures KeyInv(DecisionFailed(s, row), key) && AllSeen(DecisionFailed(s, row), key)
  {
    var t := DecisionFailed(s, row);
    if row != key {
      hide KeyInv, AllSeen;
      OtherRow(s, t, key);
    } else {
      if key in s.posts {
        var click := s.posts[key].click;
        assert Waiting(t, key) == {};
        assert forall d :: Seen(s, key, d) ==> Seen(t, key, d);
        assert LocalEntry(t, key) == s.posts[key].previous;
        assert Alive(t, key) != {} ==> Alive(s, key) - Waiting(s, key) != {};
        if Safe(s, key) {
          SafeCarriesOver(s, t, key);
        }
      }
    }
  }

  lemma OtherDecidesKeeps(s: State, row: Key, action: Verdict, number: nat, key: Key)
    requires KeyInv(s, key) && AllSeen(s, key) && action != Undo
    ensures var t := Apply(s, OtherDecides(row, action, number)); KeyInv(t, key) && AllSeen(t, key)
  {
    var t := Apply(s, OtherDecides(row, action, number));
    if row != key {
      hide KeyInv, AllSeen;
      OtherRow(s, t, key);
    } else {
      assert Waiting(t, key) == Waiting(s, key);
      assert forall d :: Seen(s, key, d) ==> Seen(t, key, d);
      assert Seen(t, key, t.recorded);
      assert Alive(t, key) == Alive(s, key) && LocalEntry(t, key) == LocalEntry(s, key);
      assert t.posts == s.posts && t.clicks == s.clicks;
      if Safe(s, key) {
        SafeCarriesOver(s, t, key);
      }
    }
  }

  predicate OnDecision(a: Action) { a.Click? || a.Serve? || a.Saved? || a.Failed? || a.OtherDecides? }

  lemma DecisionKeeps(s: State, a: Action, key: Key)
    requires KeyInv(s, key) && AllSeen(s, key) && Allowed(s, a) && OnDecision(a)
    ensures KeyInv(Apply(s, a), key) && AllSeen(Apply(s, a), key)
  {
    hide KeyInv, AllSeen, Decide, ServeDecision, DecisionSaved, DecisionFailed;
    match a {
      case Click(row, action) => ClickKeeps(s, row, action, key);
      case Serve(row, keepsId) => ServeKeeps(s, row, keepsId, key);
      case Saved(row, answer) => SavedKeeps(s, row, answer, key);
      case Failed(row) => FailedKeeps(s, row, key);
      case OtherDecides(row, action, number) => OtherDecidesKeeps(s, row, action, number, key);
    }
  }

  // ----------------------------------------------------------------------- reads

  predicate SameDecisions(s: State, t: State) {
    t.posts == s.posts && t.recorded == s.recorded && t.clicks == s.clicks && t.alive == s.alive
  }

  /** A read that leaves the overlay alone. */
  lemma ReadKeeps(s: State, t: State, key: Key)
    requires KeyInv(s, key) && SameDecisions(s, t) && t.local == s.local
    requires Safe(s, key) ==> Safe(t, key)
    ensures KeyInv(t, key)
  {}

  lemma ReadSeen(s: State, t: State, key: Key)
    requires AllSeen(s, key) && SameDecisions(s, t) && Seen(s, key, t.held.decisions)
    requires forall id :: id in t.lists && t.lists[id].reply.Some? ==>
      (id in s.lists && t.lists[id] == s.lists[id]) || Seen(s, key, t.lists[id].reply.value.decisions)
    ensures AllSeen(t, key)
  {
    assert Waiting(t, key) == Waiting(s, key);
    assert forall d :: Seen(s, key, d) ==> Seen(t, key, d);
  }

  lemma RefreshKeeps(s: State, key: Key)
    requires OneCurrent(s) && KeyInv(s, key) && AllSeen(s, key)
    ensures KeyInv(LoadFeed(s), key) && AllSeen(LoadFeed(s), key)
  {
    var t := LoadFeed(s);
    assert Seen(s, key, t.held.decisions);
    assert forall id :: Current(t, id) ==> id == s.requests;
    hide KeyInv, AllSeen, Seen;
    ReadSeen(s, t, key);
    ReadKeeps(s, t, key);
  }

  lemma MoreKeeps(s: State, manual: bool, modalOpen: bool, key: Key)
    requires OneCurrent(s) && KeyInv(s, key) && AllSeen(s, key)
    ensures var t := LoadMore(s, manual, modalOpen); KeyInv(t, key) && AllSeen(t, key)
  {
    var t := LoadMore(s, manual, modalOpen);
    assert Seen(s, key, t.held.decisions);
    assert forall id :: Current(t, id) ==> id == s.requests || Current(s, id);
    hide KeyInv, AllSeen, Seen;
    ReadSeen(s, t, key);
    ReadKeeps(s, t, key);
  }

  lemma ServeFeedSafe(s: State, id: nat, body: Body, key: Key)
    requires Safe(s, key)
    ensures Safe(ServeList(s, id, body), key)
  {
    var t := ServeList(s, id, body);
    hide HeldRows, BodyRows;
    assert forall other :: Current(t, other) <==> Current(s, other);
  }

  lemma ServeFeedKeeps(s: State, id: nat, body: Body, key: Key)
    requires KeyInv(s, key) && AllSeen(s, key)
    ensures KeyInv(ServeList(s, id, body), key) && AllSeen(ServeList(s, id, body), key)
  {
    var t := ServeList(s, id, body);
    assert Seen(s, key, t.held.decisions);
    assert Truthful(body, s.recorded) ==> Seen(s, key, body.decisions);
    if Safe(s, key) {
      ServeFeedSafe(s, id, body, key);
    }
    hide KeyInv, AllSeen, Seen, Safe, Truthful;
    ReadSeen(s, t, key);
    ReadKeeps(s, t, key);
  }

  lemma FailureShows(s: State, id: nat, signedOut: bool, key: Key)
    requires id in s.lists
    ensures var after := HeldAfterFailure(s, id, signedOut);
      && (after.decisions == s.held.decisions || after.decisions == map[])
      && (Lists(HeldRows(after), key) ==> Lists(HeldRows(s.held), key) && after.decisions == s.held.decisions)
  {}

  lemma FailsKeeps(s: State, id: nat, signedOut: bool, key: Key)
    requires KeyInv(s, key) && AllSeen(s, key)
    ensures KeyInv(ListFails(s, id, signedOut), key) && AllSeen(ListFails(s, id, signedOut), key)
  {
    if id in s.lists {
      var t := ListFails(s, id, signedOut);
      FailureShows(s, id, signedOut, key);
      assert Seen(s, key, s.held.decisions) && Seen(s, key, map[]);
      hide HeldAfterFailure, KeyInv, AllSeen, Seen, Lists, HeldRows, BodyRows;
      ReadSeen(s, t, key);
      assert forall other :: Current(t, other) ==> Current(s, other);
      ReadKeeps(s, t, key);
    }
  }

  lemma CheckKeeps(s: State, error: bool, key: Key)
    requires KeyInv(s, key) && AllSeen(s, key)
    ensures var t := Apply(s, UpdatesChecked(error)); KeyInv(t, key) && AllSeen(t, key)
  {
    var t := Apply(s, UpdatesChecked(error));
    assert Seen(s, key, t.held.decisions);
    assert HeldRows(t.held) == HeldRows(s.held);
    hide KeyInv, AllSeen, Seen, HeldRows, BodyRows;
    ReadSeen(s, t, key);
    assert forall id :: Current(t, id) <==> Current(s, id);
    ReadKeeps(s, t, key);
  }

  /** An applied answer shows a decision on every row that the list and the answer both had one on. */
  lemma UpdateShows(s: State, id: nat, key: Key)
    requires Applies(s, id) && Safe(s, key)
    ensures var held := Update(s.held, s.lists[id].reply.value, s.lists[id].append);
      Lists(HeldRows(held), key) ==> key in held.decisions
  {
    var body, append := s.lists[id].reply.value, s.lists[id].append;
    if body.paged {
      PagedRows(s.held, body);
    }
  }

  lemma ArriveSafe(s: State, id: nat, key: Key)
    requires OneCurrent(s) && Applies(s, id) && Safe(s, key)
    ensures Safe(Arrive(s, id), key)
  {
    hide Update, Reconcile, Accepted, Lists;
    UpdateShows(s, id, key);
    EndKeepsOneCurrent(s, Arrive(s, id), id);
  }

  lemma ArriveSeen(s: State, id: nat, key: Key)
    requires Applies(s, id) && AllSeen(s, key)
    ensures AllSeen(Arrive(s, id), key) && Seen(s, key, Arrive(s, id).held.decisions)
  {
    assert Seen(s, key, Arrive(s, id).held.decisions);
    hide AllSeen, Seen, Update, Reconcile;
    ReadSeen(s, Arrive(s, id), key);
  }

  /** A row whose overlay entry was dropped: the server has its decision, and the list shows it. */
  lemma DroppedIsSafe(s: State, id: nat, key: Key)
    requires OneCurrent(s) && KeyInv(s, key) && Applies(s, id) && Alive(s, key) != {} && key in s.local
    requires var t := Arrive(s, id); Seen(s, key, t.held.decisions) && Settled(s.local[key], t.held.decisions, key)
    ensures Safe(Arrive(s, id), key)
  {
    var t := Arrive(s, id);
    hide Update, Reconcile, Accepted, Lists;
    EndKeepsOneCurrent(s, t, id);
  }

  /** What reconcileLocal drops is safe without it. */
  lemma ArriveKeeps(s: State, id: nat, key: Key)
    requires OneCurrent(s) && KeyInv(s, key) && AllSeen(s, key) && Applies(s, id)
    ensures KeyInv(Arrive(s, id), key) && AllSeen(Arrive(s, id), key)
  {
    var t := Arrive(s, id);
    ArriveSeen(s, id, key);
    if Safe(s, key) {
      ArriveSafe(s, id, key);
    }
    if Alive(s, key) != {} && key in s.local && Settled(s.local[key], t.held.decisions, key) {
      DroppedIsSafe(s, id, key);
    }
    hide Safe, AllSeen, Update, Accepted;
    assert Waiting(t, key) == Waiting(s, key) && Alive(t, key) == Alive(s, key);
  }

  lemma ApplyKeeps(s: State, a: Action)
    requires Inv(s) && Allowed(s, a)
    ensures Inv(Apply(s, a))
  {
    OneCurrentKept(s, a);
    forall key ensures KeyInv(Apply(s, a), key) && AllSeen(Apply(s, a), key) {
      KeyKept(s, a, key);
    }
  }

  lemma KeyKept(s: State, a: Action, key: Key)
    requires Inv(s) && Allowed(s, a)
    ensures KeyInv(Apply(s, a), key) && AllSeen(Apply(s, a), key)
  {
    assert OneCurrent(s) && KeyInv(s, key) && AllSeen(s, key);
    hide Inv, OneCurrent, KeyInv, AllSeen, LoadFeed, LoadMore, ServeList, ListFails, HeldAfterFailure, Truthful,
      Allowed, Decide, ServeDecision, DecisionSaved, DecisionFailed, Update;
    match a {
      case Refresh => RefreshKeeps(s, key);
      case More(manual, modalOpen) => MoreKeeps(s, manual, modalOpen, key);
      case ServeFeed(id, body) => ServeFeedKeeps(s, id, body, key);
      case Answered(id) =>
        if Applies(s, id) {
          ArriveKeeps(s, id, key);
        } else {
          FailsKeeps(s, id, false, key);
        }
      case Broken(id, signedOut) => FailsKeeps(s, id, signedOut, key);
      case UpdatesChecked(error) => CheckKeeps(s, error, key);
      case _ => DecisionKeeps(s, a, key);
    }
  }

  // ------------------------------------------------------------------------- runs

  /** The server's record before this visit: no undo, and ids that this visit will not make. */
  predicate Earlier(recorded: map<Key, Decision>) {
    forall key :: key in recorded ==>
      recorded[key].action != Undo && (recorded[key].requestId.Some? ==> recorded[key].requestId.value.Theirs?)
  }

  predicate Legal(s: State, run: seq<Action>) {
    run == [] || (Legal(s, run[..|run| - 1]) && Allowed(Exec(s, run[..|run| - 1]), run[|run| - 1]))
  }

  lemma {:induction false} RunsKeepInv(s: State, run: seq<Action>)
    requires Inv(s) && Legal(s, run)
    ensures Inv(Exec(s, run))
  {
    if run != [] {
      hide Inv, Apply, Allowed;
      RunsKeepInv(s, run[..|run| - 1]);
      ApplyKeeps(Exec(s, run[..|run| - 1]), run[|run| - 1]);
    }
  }

  lemma StartsWell(local: map<Key, Decision>, recorded: map<Key, Decision>)
    requires Earlier(recorded)
    ensures Inv(Start(local, recorded))
  {}

  /** A row with a click that still counts shows as decided. */
  lemma AliveIsDecided(s: State, key: Key)
    requires Inv(s) && Alive(s, key) != {} && Lists(HeldRows(s.held), key)
    ensures EffectiveDecision(s.local, s.held.decisions, key).Some?
  {
    assert KeyInv(s, key) && AllSeen(s, key);
    hide Inv, OneCurrent, Lists;
  }

  /** The actions that end what a click promises: its own failure, or an undo click. */
  predicate Ends(s: State, a: Action, key: Key, click: nat) {
    || (a == Failed(key) && key in s.posts && s.posts[key].click == click)
    || (a == Click(key, Undo) && key !in s.posts)
  }

  predicate Unbroken(s: State, run: seq<Action>, key: Key, click: nat) {
    run == []
    || (Unbroken(s, run[..|run| - 1], key, click) && !Ends(Exec(s, run[..|run| - 1]), run[|run| - 1], key, click))
  }

  lemma StaysAlive(s: State, a: Action, key: Key, click: nat)
    requires click in Alive(s, key) && !Ends(s, a, key, click)
    ensures click in Alive(Apply(s, a), key)
  {
    hide Accepted, Truthful, Update, Reconcile, HeldAfterFailure, Entry, Restored;
  }

  lemma {:induction false} RunStaysAlive(s: State, run: seq<Action>, key: Key, click: nat)
    requires click in Alive(s, key) && Unbroken(s, run, key, click)
    ensures click in Alive(Exec(s, run), key)
  {
    if run != [] {
      hide Alive, Ends, Apply;
      RunStaysAlive(s, run[..|run| - 1], key, click);
      StaysAlive(Exec(s, run[..|run| - 1]), run[|run| - 1], key, click);
    }
  }

  lemma ClickIsAlive(s: State, key: Key, action: Verdict)
    requires key !in s.posts && action != Undo
    ensures s.clicks in Alive(Apply(s, Click(key, action)), key)
  {}

  /** From the click to its own failure or an undo, in every run: wherever the row is listed, it is
      decided. `before` is any run of the page from the start, `after` any run from the click. */
  lemma ClickedRowStaysDecided(local: map<Key, Decision>, recorded: map<Key, Decision>,
                               before: seq<Action>, key: Key, action: Verdict, after: seq<Action>)
    requires Earlier(recorded) && Legal(Start(local, recorded), before)
    requires var s := Exec(Start(local, recorded), before);
      && key !in s.posts && action != Undo
      && Legal(Apply(s, Click(key, action)), after)
      && Unbroken(Apply(s, Click(key, action)), after, key, s.clicks)
    ensures var s := Exec(Start(local, recorded), before);
      var t := Exec(Apply(s, Click(key, action)), after);
      Lists(HeldRows(t.held), key) ==> EffectiveDecision(t.local, t.held.decisions, key).Some?
  {
    var s := Exec(Start(local, recorded), before);
    var clicked := Apply(s, Click(key, action));
    ClickIsAlive(s, key, action);
    hide Inv, Apply, Exec, Legal, Unbroken, Alive, Lists;
    StartsWell(local, recorded);
    RunsKeepInv(Start(local, recorded), before);
    ClickAllowed(s, key, action);
    ApplyKeeps(s, Click(key, action));
    RunsKeepInv(clicked, after);
    RunStaysAlive(clicked, after, key, s.clicks);
    if Lists(HeldRows(Exec(clicked, after).held), key) {
      AliveIsDecided(Exec(clicked, after), key);
    }
  }

  lemma ClickAllowed(s: State, key: Key, action: Verdict)
    ensures Allowed(s, Click(key, action))
  {}
}
