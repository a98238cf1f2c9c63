/** The asynchronous Applicants client (applicants.html): clicks, replies and feed reads in any
    order.  Every action is a function on the state of the page, the requests in flight and the
    server's record, and a run is any sequence of actions. */
module Applicants {
  import opened Basics
  import opened Feed

  /** A decision on its way; `previous` is the overlay entry it replaced. */
  datatype Post = Post(click: nat, action: Verdict, previous: Option<Decision>, served: bool)

  /** A list request in flight; `servedAt` is the server's time of answering it. */
  datatype Request = Request(sequence: nat, append: bool, reply: Option<Body>, servedAt: nat)

  /** `recorded` is what the server holds. Three fields only observe the run: `clock` counts the
      list requests served, `read` is the time of the last answer applied, and `alive` holds, for
      each row, the Pass and Interview clicks that have not failed since the last undo click. */
  datatype State = State(
    held: Held,
    local: map<Key, Decision>,
    sequence: nat,
    loading: bool,
    posts: map<Key, Post>,
    lists: map<nat, Request>,
    recorded: map<Key, Decision>,
    clicks: nat,
    requests: nat,
    clock: nat,
    read: nat,
    alive: map<Key, set<nat>>)

  function Alive(s: State, key: Key): set<nat> { if key in s.alive then s.alive[key] else {} }

  // ------------------------------------------------------------------ decisions

  /** The overlay entry a click writes: an undo carries no request id. */
  function Entry(action: Verdict, click: nat): Decision {
    if action == Undo then Decision(Undo, None) else Decision(action, Some(Mine(click)))
  }

  function Decide(s: State, key: Key, action: Verdict): State {
    if key in s.posts then s
    else
      var previous := if key in s.local then Some(s.local[key]) else None;
      s.(local := s.local[key := Entry(action, s.clicks)],
         posts := s.posts[key := Post(s.clicks, action, previous, false)],
         clicks := s.clicks + 1,
         alive := s.alive[key := if action == Undo then {} else Alive(s, key) + {s.clicks}])
  }

  /** The server accepts the request; it may leave the request id out of what it records. */
  function ServeDecision(s: State, key: Key, keepsId: bool): State {
    if key !in s.posts || s.posts[key].served then s
    else
      var post := s.posts[key];
      s.(posts := s.posts[key := post.(served := true)],
         recorded := if post.action == Undo then s.recorded - {key}
                     else s.recorded[key := Decision(post.action, if keepsId then Some(Mine(post.click)) else None)])
  }

  /** The reply arrives; it may bring the decision the server now holds. */
  function DecisionSaved(s: State, key: Key, answer: Option<Decision>): State {
    if key !in s.posts || !s.posts[key].served then s
    else s.(posts := s.posts - {key}, local := if answer.Some? then s.local[key := answer.value] else s.local)
  }

  function Restored(local: map<Key, Decision>, key: Key, previous: Option<Decision>): map<Key, Decision> {
    if previous.Some? then local[key := previous.value] else local - {key}
  }

  /** The request fails, whether or not the server had served it. */
  function DecisionFailed(s: State, key: Key): State {
    if key !in s.posts then s
    else
      var post := s.posts[key];
      s.(posts := s.posts - {key}, local := Restored(s.local, key, post.previous),
         alive := s.alive[key := Alive(s, key) - {post.click}])
  }

  // ---------------------------------------------------------------- list requests

  function LoadFeed(s: State): State {
    s.(sequence := s.sequence + 1, loading := true, requests := s.requests + 1,
       lists := s.lists[s.requests := Request(s.sequence + 1, false, None, 0)])
  }

  /** `modalOpen` says that a profile is open over the list. */
  function LoadMore(s: State, manual: bool, modalOpen: bool): State {
    if !s.held.paged || modalOpen || s.loading || !s.held.cursor || (s.held.error && !manual) then s
    else
      s.(held := s.held.(error := false), loading := true, requests := s.requests + 1,
         lists := s.lists[s.requests := Request(s.sequence, true, None, 0)])
  }

  /** What the server may answer: its record of every row it lists, rows marked with the
      answer's generation. */
  predicate Truthful(body: Body, recorded: map<Key, Decision>) {
    && (forall key :: key in body.decisions ==> key in recorded && body.decisions[key] == recorded[key])
    && (forall row :: row in BodyRows(body) && row.key in recorded ==> row.key in body.decisions)
    && (forall row :: row in BodyRows(body) ==> row.origin == body.generation)
  }

  function ServeList(s: State, id: nat, body: Body): State {
    if id !in s.lists || s.lists[id].reply.Some? || !Truthful(body, s.recorded) then s
    else s.(clock := s.clock + 1, lists := s.lists[id := s.lists[id].(reply := Some(body), servedAt := s.clock + 1)])
  }

  predicate Current(s: State, id: nat) { id in s.lists && s.lists[id].sequence == s.sequence }

  /** An answer is used only when its request is the current one. */
  predicate Applies(s: State, id: nat) {
    && Current(s, id) && s.lists[id].reply.Some?
    && var body := s.lists[id].reply.value;
    && (s.lists[id].append ==> body.paged)
    && (body.paged ==> Accepted(s.held, body, s.lists[id].append))
  }

  function Update(held: Held, body: Body, append: bool): Held {
    if body.paged then Paged(held, body, append) else Whole(held, body)
  }

  function Arrive(s: State, id: nat): State {
    if id !in s.lists || s.lists[id].reply.None? then s
    else if Applies(s, id) then
      var held := Update(s.held, s.lists[id].reply.value, s.lists[id].append);
      s.(held := held, local := Reconcile(s.local, held.decisions), loading := false,
         lists := s.lists - {id}, read := s.lists[id].servedAt)
    else ListFails(s, id, false)
  }

  /** The list after a failed request; signed out, a whole feed leaves it as it is. */
  function HeldAfterFailure(s: State, id: nat, signedOut: bool): Held
    requires id in s.lists
  {
    if !Current(s, id) then s.held
    else if s.lists[id].append then s.held.(error := true)
    else if signedOut then s.held
    else Refused(s.held)
  }

  function ListFails(s: State, id: nat, signedOut: bool): State {
    if id !in s.lists then s
    else s.(lists := s.lists - {id}, loading := s.loading && !Current(s, id),
      held := HeldAfterFailure(s, id, signedOut))
  }

  // ---------------------------------------------------------------------- actions

  datatype Action =
    | Click(key: Key, action: Verdict)
    | Serve(key: Key, keepsId: bool)
    | Saved(key: Key, answer: Option<Decision>)
    | Failed(key: Key)
    | OtherDecides(key: Key, action: Verdict, number: nat)
    | Refresh
    | More(manual: bool, modalOpen: bool)
    | ServeFeed(id: nat, body: Body)
    | Answered(id: nat)
    | Broken(id: nat, signedOut: bool)
    | UpdatesChecked(error: bool)     // the background check for updates ends, well or badly

  function Apply(s: State, a: Action): State {
    match a
    case Click(key, action) => Decide(s, key, action)
    case Serve(key, keepsId) => ServeDecision(s, key, keepsId)
    case Saved(key, answer) => DecisionSaved(s, key, answer)
    case Failed(key) => DecisionFailed(s, key)
    case OtherDecides(key, action, number) => s.(recorded := s.recorded[key := Decision(action, Some(Theirs(number)))])
    case Refresh => LoadFeed(s)
    case More(manual, modalOpen) => LoadMore(s, manual, modalOpen)
    case ServeFeed(id, body) => ServeList(s, id, body)
    case Answered(id) => Arrive(s, id)
    case Broken(id, signedOut) => ListFails(s, id, signedOut)
    case UpdatesChecked(error) => s.(held := s.held.(error := error))
  }

  /** What is asked of the server and of other people: nobody else undoes, and a saved Pass or
      Interview is not answered with an undo. */
  predicate Allowed(s: State, a: Action) {
    match a
    case OtherDecides(_, action, _) => action != Undo
    case Saved(key, answer) =>
      key in s.posts && s.posts[key].action != Undo && answer.Some? ==> answer.value.action != Undo
    case _ => true
  }

  // ------------------------------------------------------------------------- runs

  /** A page just loaded: an overlay kept from an earlier visit, nothing asked for yet. */
  function Start(local: map<Key, Decision>, recorded: map<Key, Decision>): State {
    State(Held(false, None, [], map[], None, false, 0, false), local, 0, false, map[], map[], recorded, 0, 0, 0, 0,
      map[])
  }

  function Exec(s: State, run: seq<Action>): State {
    if run == [] then s else Apply(Exec(s, run[..|run| - 1]), run[|run| - 1])
  }

  // --------------------------------------------------------- one current request

  /** `loading` is on exactly while one list request carries the current number. */
  ghost predicate OneCurrent(s: State) {
    && (forall id :: id in s.lists ==> id < s.requests && s.lists[id].sequence <= s.sequence)
    && (forall id, other :: Current(s, id) && Current(s, other) ==> id == other)
    && (s.loading <==> exists id :: Current(s, id))
    && s.read <= s.clock
    && (forall id :: Current(s, id) && s.lists[id].reply.Some? ==> s.read < s.lists[id].servedAt <= s.clock)
  }

  predicate SameReads(s: State, t: State) {
    && t.sequence == s.sequence && t.loading == s.loading && t.lists == s.lists && t.requests == s.requests
    && t.clock == s.clock && t.read == s.read
  }

  lemma SameReadsKeepOneCurrent(s: State, t: State)
    requires OneCurrent(s) && SameReads(s, t)
    ensures OneCurrent(t)
  {
    assert forall id :: Current(t, id) <==> Current(s, id);
  }

  lemma RefreshKeepsOneCurrent(s: State)
    requires OneCurrent(s)
    ensures OneCurrent(LoadFeed(s))
  {
    assert Current(LoadFeed(s), s.requests);
  }

  lemma MoreKeepsOneCurrent(s: State, manual: bool, modalOpen: bool)
    requires OneCurrent(s)
    ensures OneCurrent(LoadMore(s, manual, modalOpen))
  {
    var t := LoadMore(s, manual, modalOpen);
    if t != s {
      assert Current(t, s.requests);
      assert forall id :: Current(t, id) ==> id == s.requests || Current(s, id);
    }
  }

  lemma ServeKeepsOneCurrent(s: State, id: nat, body: Body)
    requires OneCurrent(s)
    ensures OneCurrent(ServeList(s, id, body))
  {
    hide Truthful;
    var t := ServeList(s, id, body);
    assert forall other :: Current(t, other) <==> Current(s, other);
  }

  /** Taking a request away turns `loading` off exactly when it is the current one. */
  lemma EndKeepsOneCurrent(s: State, t: State, id: nat)
    requires OneCurrent(s) && id in s.lists
    requires t.sequence == s.sequence && t.lists == s.lists - {id} && t.requests == s.requests && t.clock == s.clock
    requires t.loading == (s.loading && !Current(s, id))
    requires t.read == s.read || (Current(s, id) && t.read <= t.clock)
    ensures OneCurrent(t)
    ensures Current(s, id) ==> forall other :: !Current(t, other)
  {
    assert forall other :: Current(t, other) <==> Current(s, other) && other != id;
  }

  lemma OneCurrentKept(s: State, a: Action)
    requires OneCurrent(s)
    ensures OneCurrent(Apply(s, a))
  {
    hide OneCurrent, Truthful, HeldAfterFailure, Update, Reconcile, Accepted;
    match a {
      case Refresh => RefreshKeepsOneCurrent(s);
      case More(manual, modalOpen) => MoreKeepsOneCurrent(s, manual, modalOpen);
      case ServeFeed(id, body) => ServeKeepsOneCurrent(s, id, body);
      case Answered(id) => ArriveKeepsOneCurrent(s, id);
      case Broken(id, signedOut) => FailKeepsOneCurrent(s, id, signedOut);
      case _ => SameReadsKeepOneCurrent(s, Apply(s, a));
    }
  }

  lemma FailKeepsOneCurrent(s: State, id: nat, signedOut: bool)
    requires OneCurrent(s)
    ensures OneCurrent(ListFails(s, id, signedOut))
  {
    if id in s.lists {
      hide OneCurrent, HeldAfterFailure;
      EndKeepsOneCurrent(s, ListFails(s, id, signedOut), id);
    }
  }

  lemma ArriveKeepsOneCurrent(s: State, id: nat)
    requires OneCurrent(s)
    ensures OneCurrent(Arrive(s, id))
  {
    hide Update, Reconcile, Accepted;
    if Applies(s, id) {
      assert s.loading && s.lists[id].servedAt <= s.clock;
      hide OneCurrent;
      EndKeepsOneCurrent(s, Arrive(s, id), id);
    } else {
      FailKeepsOneCurrent(s, id, false);
    }
  }

  lemma {:induction false} RunsKeepOneCurrent(local: map<Key, Decision>, recorded: map<Key, Decision>, run: seq<Action>)
    ensures OneCurrent(Exec(Start(local, recorded), run))
  {
    if run != [] {
      hide OneCurrent, Apply;
      RunsKeepOneCurrent(local, recorded, run[..|run| - 1]);
      OneCurrentKept(Exec(Start(local, recorded), run[..|run| - 1]), run[|run| - 1]);
    } else {
      StartsIdle(local, recorded);
    }
  }

  lemma StartsIdle(local: map<Key, Decision>, recorded: map<Key, Decision>)
    ensures OneCurrent(Start(local, recorded))
  {}

  /** Applied reads follow the server's order, in every run: an answer that is used was given after
      the one used before it, and it is the only request with the current number. */
  lemma ReadsFollowServer(local: map<Key, Decision>, recorded: map<Key, Decision>, run: seq<Action>, id: nat)
    requires Applies(Exec(Start(local, recorded), run), id)
    ensures var s := Exec(Start(local, recorded), run);
      && s.read < Arrive(s, id).read
      && s.loading && !Arrive(s, id).loading
      && forall other :: Current(s, other) ==> other == id
  {
    RunsKeepOneCurrent(local, recorded, run);
    hide Exec;
  }
}
