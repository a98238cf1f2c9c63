/** The in-app back protocol (nav-history.js): one owner frame keeps a stack of open screens
    and the browser's history, embedded frames keep closers, messages and traversals are
    asynchronous.  Every action is a function on the state of the whole page, and a run is
    any sequence of actions. */
module NavHistory {
  import opened Basics

  type Name = string
  type Tab = string

  datatype Win = Owner | Child(id: nat)

  /** An open screen; the pair that identifies it everywhere. */
  datatype Screen = Screen(win: Win, name: Name)

  /** A history entry we wrote, or one whose state is not ours. */
  datatype Entry = Ours(tab: Tab, depth: nat) | Foreign

  datatype Message = Open(name: Name) | Back(name: Name)

  /** `closers` maps each registered closer to the number of its registration, `ran` lists the
      registrations whose closer has run, `closed` the screens taken off the stack, in order.
      `toOwner` and `toChild` are the messages in flight, `pending` the traversals asked for. */
  datatype State = State(
    stack: seq<Screen>,
    entries: seq<Entry>,
    at: nat,
    tabs: Option<seq<Tab>>,
    current: Tab,
    restored: bool,
    closers: map<Screen, nat>,
    registrations: nat,
    ran: seq<nat>,
    closed: seq<Screen>,
    toOwner: map<nat, seq<Message>>,
    toChild: map<nat, seq<Name>>,
    pending: seq<int>)

  // --------------------------------------------------------- browser history

  /** What readEntry takes the depth of an entry to be. */
  function Depth(e: Entry): nat { if e.Ours? then e.depth else 0 }

  function CurrentTab(s: State): Tab { if s.tabs.Some? then s.current else "" }

  function Push(s: State, e: Entry): (after: State)
    requires s.at < |s.entries|
    ensures after.at < |after.entries|
  {
    s.(entries := s.entries[..s.at + 1] + [e], at := s.at + 1)
  }

  function Replace(s: State, e: Entry): (after: State)
    requires s.at < |s.entries|
    ensures after.at < |after.entries|
  {
    s.(entries := s.entries[s.at := e])
  }

  // ------------------------------------------------------------ the functions

  function Queue<T>(channels: map<nat, seq<T>>, id: nat): seq<T> {
    if id in channels then channels[id] else []
  }

  function Send<T>(channels: map<nat, seq<T>>, id: nat, m: T): map<nat, seq<T>> {
    channels[id := Queue(channels, id) + [m]]
  }

  function RunCloser(s: State, screen: Screen): State {
    if screen !in s.closers then s
    else s.(closers := s.closers - {screen}, ran := s.ran + [s.closers[screen]])
  }

  /** Owner screens close at once, a child is told to close its own. */
  function CloseScreen(s: State, screen: Screen): (after: State)
    ensures after.stack == s.stack && after.entries == s.entries && after.at == s.at
    ensures after.tabs == s.tabs && after.current == s.current && after.restored == s.restored
    ensures after.pending == s.pending && after.closed == s.closed + [screen]
  {
    var logged := s.(closed := s.closed + [screen]);
    match screen.win
    case Owner => RunCloser(logged, screen)
    case Child(id) => logged.(toChild := Send(s.toChild, id, screen.name))
  }

  function PopTo(s: State, depth: nat): (t: State)
    ensures t.entries == s.entries && t.at == s.at && t.tabs == s.tabs && t.current == s.current
      && t.restored == s.restored
    ensures t.pending == s.pending
    ensures t.stack == if |s.stack| <= depth then s.stack else s.stack[..depth]
    decreases |s.stack|
  {
    if |s.stack| <= depth then s
    else
      var n := |s.stack| - 1;
      PopTo(CloseScreen(s.(stack := s.stack[..n]), s.stack[n]), depth)
  }

  function OwnerOpen(s: State, screen: Screen, claim: bool): (after: State)
    requires s.at < |s.entries|
    ensures after.at < |after.entries|
  {
    if screen in s.stack then s
    else
      var t := s.(stack := s.stack + [screen]);
      var e := Ours(CurrentTab(s), |t.stack|);
      if claim then Replace(t, e) else Push(t, e)
  }

  /** The position of the screen nearest the top. */
  function LastIndex(stack: seq<Screen>, screen: Screen): (i: int)
    ensures -1 <= i < |stack|
    ensures i >= 0 ==> stack[i] == screen && forall j :: i < j < |stack| ==> stack[j] != screen
    ensures i < 0 ==> screen !in stack
  {
    if stack == [] then -1
    else if stack[|stack| - 1] == screen then |stack| - 1
    else LastIndex(stack[..|stack| - 1], screen)
  }

  function OwnerBack(s: State, screen: Screen): State {
    var i := LastIndex(s.stack, screen);
    if i < 0 then s else s.(pending := s.pending + [-(|s.stack| - i)])
  }

  /** Show the tab the entry wants and make the entry say how deep the stack is. */
  function Settle(s: State, wantTab: Tab): (after: State)
    requires s.at < |s.entries|
    ensures s.at < |after.entries| && Depth(after.entries[s.at]) == |s.stack|
    ensures after == s.(current := after.current, entries := s.entries[s.at := after.entries[s.at]])
  {
    var e := s.entries[s.at];
    var shown := if s.tabs.Some? && wantTab != "" && wantTab != s.current then s.(current := wantTab) else s;
    if e.Foreign? || Depth(e) != |s.stack| then Replace(shown, Ours(CurrentTab(shown), |s.stack|)) else shown
  }

  function WantTab(e: Entry, urlTab: Tab): Tab { if e.Ours? && e.tab != "" then e.tab else urlTab }

  /** The handler of popstate; `urlTab` is the tab named by the address. */
  function OnPopState(s: State, urlTab: Tab): (after: State)
    requires s.at < |s.entries|
    ensures after.at < |after.entries|
  {
    var e := s.entries[s.at];
    Settle(PopTo(s, Depth(e)), WantTab(e, urlTab))
  }

  /** A traversal by `delta`; one that would leave the history does nothing. */
  function Traverse(s: State, delta: int, urlTab: Tab): (after: State)
    requires s.at < |s.entries|
    ensures after.at < |after.entries|
  {
    if 0 <= s.at + delta < |s.entries| then OnPopState(s.(at := s.at + delta), urlTab) else s
  }

  function OnHashChange(s: State, hash: Tab): (after: State)
    requires s.at < |s.entries|
    ensures after.at < |after.entries|
  {
    if s.tabs.None? || hash !in s.tabs.value || hash == s.current then s
    else Replace(s.(current := hash), Ours(hash, |s.stack|))
  }

  // ---------------------------------------------------------------- actions

  datatype Action =
    | OpenScreen(win: Win, name: Name, claim: bool)        // RaydarNav.open in some frame
    | CloseInApp(win: Win, name: Name)                     // RaydarNav.back in some frame
    | OwnerReceives(from: nat, claim: bool)                // a message reaches the owner
    | ChildReceives(id: nat)                               // a "closed" reaches its frame
    | Traversal(which: nat, urlTab: Tab)                   // a pending history.go takes effect
    | UserTraversal(delta: int, urlTab: Tab)               // back swipe, forward button
    | HashNavigation(urlTab: Tab)                          // an address typed or followed
    | HashChange(hash: Tab)                                // the browser reports a new hash
    | PickTab(name: Tab)                                   // RaydarNav.tab
    | RegisterTabs(names: seq<Tab>, current: Tab, landing: bool)  // RaydarNav.tabs
    | Restore                                              // RaydarNav.restore in the owner
    | Reload(id: nat)                                      // an embedded frame reloads
    | LoadAgain                                            // the whole page reloads

  /** A page that has just loaded at one of the entries its earlier visits left behind. */
  function Loaded(entries: seq<Entry>, at: nat): State {
    State([], entries, at, None, "", false, map[], 0, [], [], map[], map[], [])
  }

  function Register(s: State, screen: Screen): State {
    s.(closers := s.closers[screen := s.registrations], registrations := s.registrations + 1)
  }

  /** Seeding the list beneath the screen the address names: two entries, no screen. */
  function Seed(s: State, tab: Tab): (after: State)
    requires s.at < |s.entries|
    ensures after.at < |after.entries|
  {
    Push(Replace(s, Ours(tab, 0)), Ours(tab, 0))
  }

  /** `landing` says that the address names a screen. */
  function Tabs(s: State, names: seq<Tab>, current: Tab, landing: bool): (after: State)
    requires s.at < |s.entries|
    ensures after.at < |after.entries|
  {
    var t := s.(tabs := Some(names), current := current);
    if s.tabs.Some? then t
    else if landing then Seed(t, current) else Replace(t, Ours(current, |s.stack|))
  }

  function PickedTab(s: State, name: Tab): (after: State)
    requires s.at < |s.entries|
    ensures after.at < |after.entries|
  {
    if s.tabs.None? then s else Push(s.(current := name), Ours(name, |s.stack|))
  }

  function Restored(s: State): (after: State)
    requires s.at < |s.entries|
    ensures after.at < |after.entries|
  {
    if s.restored then s else Seed(s.(restored := true), CurrentTab(s))
  }

  /** What one action does; an action that cannot happen in this state changes nothing. */
  function Apply(s: State, a: Action): (after: State)
    requires s.at < |s.entries|
    ensures after.at < |after.entries|
  {
    match a
    case OpenScreen(win, name, claim) =>
      var screen := Screen(win, name);
      var t := Register(s, screen);
      if screen in s.closers then t
      else (match win
            case Owner => OwnerOpen(t, screen, claim)
            case Child(id) => t.(toOwner := Send(s.toOwner, id, Open(name))))
    case CloseInApp(win, name) =>
      var screen := Screen(win, name);
      if screen !in s.closers then s
      else
        var t := RunCloser(s, screen);
        (match win
         case Owner => OwnerBack(t, screen)
         case Child(id) => t.(toOwner := Send(s.toOwner, id, Back(name))))
    case OwnerReceives(id, claim) =>
      var queue := Queue(s.toOwner, id);
      if queue == [] then s
      else
        var t := s.(toOwner := s.toOwner[id := queue[1..]]);
        (match queue[0]
         case Open(name) => OwnerOpen(t, Screen(Child(id), name), claim)
         case Back(name) => OwnerBack(t, Screen(Child(id), name)))
    case ChildReceives(id) =>
      var queue := Queue(s.toChild, id);
      if queue == [] then s
      else RunCloser(s.(toChild := s.toChild[id := queue[1..]]), Screen(Child(id), queue[0]))
    case Traversal(which, urlTab) =>
      if which >= |s.pending| then s
      else Traverse(s.(pending := s.pending[..which] + s.pending[which + 1..]), s.pending[which], urlTab)
    case UserTraversal(delta, urlTab) => Traverse(s, delta, urlTab)
    case HashNavigation(urlTab) => OnPopState(Push(s, Foreign), urlTab)
    case HashChange(hash) => OnHashChange(s, hash)
    case PickTab(name) => PickedTab(s, name)
    case RegisterTabs(names, current, landing) => Tabs(s, names, current, landing)
    case Restore => Restored(s)
    case Reload(id) =>
      s.(closers := map screen | screen in s.closers && screen.win != Child(id) :: s.closers[screen],
         toChild := s.toChild[id := []])
    case LoadAgain => Loaded(s.entries, s.at)
  }

  /** Seeding is the page's first act: it happens before any screen is open. */
  predicate Seeds(s: State, a: Action) {
    || (a.RegisterTabs? && s.tabs.None? && a.landing)
    || (a.Restore? && !s.restored)
  }

  /** Seeding comes before the first screen, and the page reloads on entries beneath all screens. */
  predicate Allowed(s: State, a: Action)
    requires s.at < |s.entries|
  {
    && (Seeds(s, a) ==> s.stack == [])
    && (a.LoadAgain? ==> Depth(s.entries[s.at]) == 0)
  }

  // -------------------------------------------------------------- invariants

  /** The entry on screen records how many screens are open. */
  predicate Honest(s: State) {
    s.at < |s.entries| && Depth(s.entries[s.at]) == |s.stack|
  }

  /** The screen is on the stack, or news of it is on its way to the owner or back. */
  predicate Known(s: State, screen: Screen) {
    || screen in s.stack
    || (screen.win.Child?
        && (Open(screen.name) in Queue(s.toOwner, screen.win.id) || screen.name in Queue(s.toChild, screen.win.id)))
  }

  ghost predicate AllKnown(s: State) {
    forall screen :: screen in s.closers ==> Known(s, screen)
  }

  /** No registration has run twice, and none that has run is still registered. */
  predicate RanOnce(s: State) {
    && (forall i :: 0 <= i < |s.ran| ==> s.ran[i] < s.registrations)
    && (forall i, j :: 0 <= i < j < |s.ran| ==> s.ran[i] != s.ran[j])
    && (forall screen :: screen in s.closers ==> s.closers[screen] < s.registrations && s.closers[screen] !in s.ran)
    && (forall a, b :: a in s.closers && b in s.closers && a != b ==> s.closers[a] != s.closers[b])
  }

  ghost predicate Inv(s: State) {
    Honest(s) && NoRepeats(s.stack) && AllKnown(s) && RanOnce(s)
  }

  lemma RunCloserKeeps(s: State, screen: Screen)
    requires RanOnce(s)
    ensures RanOnce(RunCloser(s, screen))
  {}

  lemma QueueGrows<T>(channels: map<nat, seq<T>>, id: nat, m: T)
    ensures m in Queue(Send(channels, id, m), id)
    ensures forall other, x :: x in Queue(channels, other) ==> x in Queue(Send(channels, id, m), other)
  {
    assert (Queue(channels, id) + [m])[|Queue(channels, id)|] == m;
  }

  /** Closing one popped screen keeps every closer accounted for. */
  lemma CloseScreenKeeps(s: State, screen: Screen)
    requires RanOnce(s) && forall other :: other in s.closers && other != screen ==> Known(s, other)
    ensures RanOnce(CloseScreen(s, screen)) && AllKnown(CloseScreen(s, screen))
    ensures CloseScreen(s, screen).stack == s.stack
  {
    var logged := s.(closed := s.closed + [screen]);
    match screen.win {
      case Owner => RunCloserKeeps(logged, screen);
      case Child(id) => QueueGrows(s.toChild, id, screen.name);
    }
  }

  ghost predicate Sound(s: State) { RanOnce(s) && AllKnown(s) && NoRepeats(s.stack) }

  lemma PopOneKeeps(s: State)
    requires Sound(s) && s.stack != []
    ensures var n := |s.stack| - 1; Sound(CloseScreen(s.(stack := s.stack[..n]), s.stack[n]))
  {
    var n := |s.stack| - 1;
    var rest := s.(stack := s.stack[..n]);
    assert RanOnce(rest);
    hide RanOnce, CloseScreen;
    forall other | other in rest.closers && other != s.stack[n] ensures Known(rest, other) {
      assert Known(s, other);
      if other in s.stack {
        var i :| 0 <= i < |s.stack| && s.stack[i] == other;
        assert rest.stack[i] == other;
      }
    }
    CloseScreenKeeps(rest, s.stack[n]);
  }

  lemma {:induction false} PopToKeeps(s: State, depth: nat)
    requires Sound(s)
    ensures Sound(PopTo(s, depth))
    decreases |s.stack|
  {
    hide Sound;
    if |s.stack| > depth {
      var n := |s.stack| - 1;
      PopOneKeeps(s);
      PopToKeeps(CloseScreen(s.(stack := s.stack[..n]), s.stack[n]), depth);
    }
  }

  /** Tabs, entries and pending traversals play no part in soundness. */
  lemma SoundCarriesOver(s: State, t: State)
    requires Sound(s)
    requires t.stack == s.stack && t.closers == s.closers && t.ran == s.ran && t.registrations == s.registrations
    requires t.toOwner == s.toOwner && t.toChild == s.toChild
    ensures Sound(t)
  {
    forall screen | screen in t.closers ensures Known(t, screen) {
      assert Known(s, screen);
    }
  }

  lemma SettleKeeps(s: State, wantTab: Tab)
    requires s.at < |s.entries| && Sound(s)
    ensures Inv(Settle(s, wantTab))
  {
    hide RanOnce, AllKnown, NoRepeats;
    SoundCarriesOver(s, Settle(s, wantTab));
  }

  /** However the traversal landed, the handler leaves the page consistent. */
  lemma OnPopStateKeeps(s: State, urlTab: Tab)
    requires s.at < |s.entries| && Sound(s)
    ensures Inv(OnPopState(s, urlTab))
  {
    hide PopTo, Settle, Sound, Inv;
    var e := s.entries[s.at];
    PopToKeeps(s, Depth(e));
    SettleKeeps(PopTo(s, Depth(e)), WantTab(e, urlTab));
  }

  lemma OwnerOpenKeeps(s: State, screen: Screen, claim: bool)
    requires Honest(s) && NoRepeats(s.stack) && RanOnce(s)
    requires forall other :: other in s.closers && other != screen ==> Known(s, other)
    ensures Inv(OwnerOpen(s, screen, claim))
  {
    var t := OwnerOpen(s, screen, claim);
    assert screen !in s.stack ==> t.stack == s.stack + [screen];
    assert screen in t.stack by {
      if screen !in s.stack {
        assert t.stack[|s.stack|] == screen;
      }
    }
    forall other | other in t.closers ensures Known(t, other) {
      if other != screen {
        assert Known(s, other);
      }
    }
  }

  lemma RegisterKeeps(s: State, screen: Screen)
    requires RanOnce(s)
    ensures RanOnce(Register(s, screen))
  {}

  /** The message at the head of a queue is the only one delivery takes away. */
  lemma AfterDelivery<T>(channels: map<nat, seq<T>>, id: nat)
    requires Queue(channels, id) != []
    ensures var rest := channels[id := Queue(channels, id)[1..]];
      forall other, x :: x in Queue(channels, other) && !(other == id && x == Queue(channels, id)[0])
        ==> x in Queue(rest, other)
  {
    var rest := channels[id := Queue(channels, id)[1..]];
    forall other, x | x in Queue(channels, other) && !(other == id && x == Queue(channels, id)[0])
      ensures x in Queue(rest, other)
    {
      if other == id {
        var i :| 0 <= i < |Queue(channels, id)| && Queue(channels, id)[i] == x;
        assert Queue(rest, id)[i - 1] == x;
      }
    }
  }

  lemma OpenScreenKeeps(s: State, win: Win, name: Name, claim: bool)
    requires Inv(s)
    ensures Inv(Apply(s, OpenScreen(win, name, claim)))
  {
    var screen := Screen(win, name);
    var t := Register(s, screen);
    RegisterKeeps(s, screen);
    if screen !in s.closers {
      match win {
        case Owner => OwnerOpenKeeps(t, screen, claim);
        case Child(id) => QueueGrows(s.toOwner, id, Open(name));
      }
    }
  }

  lemma CloseInAppKeeps(s: State, win: Win, name: Name)
    requires Inv(s)
    ensures Inv(Apply(s, CloseInApp(win, name)))
  {
    RunCloserKeeps(s, Screen(win, name));
    if win.Child? {
      QueueGrows(s.toOwner, win.id, Back(name));
    }
  }

  lemma OwnerReceivesKeeps(s: State, id: nat, claim: bool)
    requires Inv(s)
    ensures Inv(Apply(s, OwnerReceives(id, claim)))
  {
    var queue := Queue(s.toOwner, id);
    if queue != [] {
      var t := s.(toOwner := s.toOwner[id := queue[1..]]);
      AfterDelivery(s.toOwner, id);
      forall other | other in s.closers && queue[0] != Open(other.name) ensures Known(t, other) {
        assert Known(s, other);
      }
      match queue[0] {
        case Open(name) =>
          forall other | other in t.closers && other != Screen(Child(id), name) ensures Known(t, other) {
            assert Known(s, other);
          }
          OwnerOpenKeeps(t, Screen(Child(id), name), claim);
        case Back(name) =>
      }
    }
  }

  lemma ChildReceivesKeeps(s: State, id: nat)
    requires Inv(s)
    ensures Inv(Apply(s, ChildReceives(id)))
  {
    var queue := Queue(s.toChild, id);
    if queue != [] {
      var t := s.(toChild := s.toChild[id := queue[1..]]);
      var screen := Screen(Child(id), queue[0]);
      RunCloserKeeps(t, screen);
      AfterDelivery(s.toChild, id);
      forall other | other in RunCloser(t, screen).closers ensures Known(RunCloser(t, screen), other) {
        assert Known(s, other) && other != screen;
      }
    }
  }

  /** A page that loads, anew or again, has nothing open; its entry agrees exactly when it is
      one beneath all screens. */
  lemma LoadedExactly(entries: seq<Entry>, at: nat)
    requires at < |entries|
    ensures Sound(Loaded(entries, at))
    ensures Inv(Loaded(entries, at)) <==> Depth(entries[at]) == 0
  {}

  lemma LoadAgainKeeps(s: State)
    requires s.at < |s.entries| && Allowed(s, LoadAgain)
    ensures Inv(Apply(s, LoadAgain))
  {
    LoadedExactly(s.entries, s.at);
  }

  /** Whatever entry it loaded on, the first registration of tabs, rebuilding of a screen,
      traversal or typed address makes the page consistent. */
  lemma LoadedIsRepaired(entries: seq<Entry>, at: nat, a: Action)
    requires at < |entries|
    requires a.RegisterTabs? || a.Restore? || a.HashNavigation?
             || (a.UserTraversal? && 0 <= at + a.delta < |entries|)
    ensures Inv(Apply(Loaded(entries, at), a))
  {
    var s := Loaded(entries, at);
    LoadedExactly(entries, at);
    hide OnPopState, RanOnce, AllKnown, NoRepeats, Loaded;
    match a {
      case RegisterTabs(names, current, landing) => SoundCarriesOver(s, Tabs(s, names, current, landing));
      case Restore => SoundCarriesOver(s, Restored(s));
      case HashNavigation(urlTab) =>
        SoundCarriesOver(s, Push(s, Foreign));
        OnPopStateKeeps(Push(s, Foreign), urlTab);
      case UserTraversal(delta, urlTab) =>
        SoundCarriesOver(s, s.(at := s.at + delta));
        OnPopStateKeeps(s.(at := s.at + delta), urlTab);
    }
  }

  lemma ApplyKeeps(s: State, a: Action)
    requires Inv(s) && Allowed(s, a)
    ensures Inv(Apply(s, a))
  {
    assert s.at < |s.entries|;
    hide OnPopState, PopTo, OwnerOpen, OwnerBack, RunCloser, Register, Inv, Tabs, PickedTab, Restored, OnHashChange,
      Traverse;
    match a {
      case OpenScreen(win, name, claim) => OpenScreenKeeps(s, win, name, claim);
      case CloseInApp(win, name) => CloseInAppKeeps(s, win, name);
      case OwnerReceives(id, claim) => OwnerReceivesKeeps(s, id, claim);
      case ChildReceives(id) => ChildReceivesKeeps(s, id);
      case Traversal(which, urlTab) =>
        TraversalKeeps(s, which, urlTab);
      case UserTraversal(delta, urlTab) => TraverseKeeps(s, delta, urlTab);
      case HashNavigation(urlTab) => HashNavigationKeeps(s, urlTab);
      case HashChange(hash) => HashChangeKeeps(s, hash);
      case PickTab(name) => PickedTabKeeps(s, name);
      case RegisterTabs(names, current, landing) => TabsKeeps(s, names, current, landing);
      case Restore => RestoredKeeps(s);
      case Reload(id) => ReloadKeeps(s, id);
      case LoadAgain => LoadAgainKeeps(s);
    }
  }

  lemma TraverseKeeps(s: State, delta: int, urlTab: Tab)
    requires Inv(s)
    ensures Inv(Traverse(s, delta, urlTab))
  {
    hide OnPopState, RanOnce, AllKnown, NoRepeats;
    if 0 <= s.at + delta < |s.entries| {
      var t := s.(at := s.at + delta);
      SoundCarriesOver(s, t);
      OnPopStateKeeps(t, urlTab);
    }
  }

  lemma TraversalKeeps(s: State, which: nat, urlTab: Tab)
    requires Inv(s)
    ensures Inv(Apply(s, Traversal(which, urlTab)))
  {
    hide Traverse, RanOnce, AllKnown, NoRepeats;
    if which < |s.pending| {
      var t := s.(pending := s.pending[..which] + s.pending[which + 1..]);
      SoundCarriesOver(s, t);
      TraverseKeeps(t, s.pending[which], urlTab);
    }
  }

  lemma HashNavigationKeeps(s: State, urlTab: Tab)
    requires Inv(s)
    ensures Inv(Apply(s, HashNavigation(urlTab)))
  {
    hide OnPopState, RanOnce, AllKnown, NoRepeats;
    SoundCarriesOver(s, Push(s, Foreign));
    OnPopStateKeeps(Push(s, Foreign), urlTab);
  }

  lemma HashChangeKeeps(s: State, hash: Tab)
    requires Inv(s)
    ensures Inv(OnHashChange(s, hash))
  {
    hide RanOnce, AllKnown, NoRepeats;
    SoundCarriesOver(s, OnHashChange(s, hash));
  }

  lemma PickedTabKeeps(s: State, name: Tab)
    requires Inv(s)
    ensures Inv(PickedTab(s, name))
  {
    hide RanOnce, AllKnown, NoRepeats;
    SoundCarriesOver(s, PickedTab(s, name));
  }

  lemma SeedKeeps(s: State, tab: Tab)
    requires Inv(s) && s.stack == []
    ensures Inv(Seed(s, tab))
  {
    hide RanOnce, AllKnown, NoRepeats;
    SoundCarriesOver(s, Seed(s, tab));
  }

  lemma TabsKeeps(s: State, names: seq<Tab>, current: Tab, landing: bool)
    requires Inv(s) && (s.tabs.None? && landing ==> s.stack == [])
    ensures Inv(Tabs(s, names, current, landing))
  {
    hide RanOnce, AllKnown, NoRepeats, Seed;
    var t := s.(tabs := Some(names), current := current);
    SoundCarriesOver(s, t);
    if s.tabs.None? {
      if landing {
        SeedKeeps(t, current);
      } else {
        SoundCarriesOver(t, Replace(t, Ours(current, |s.stack|)));
      }
    }
  }

  lemma RestoredKeeps(s: State)
    requires Inv(s) && (!s.restored ==> s.stack == [])
    ensures Inv(Restored(s))
  {
    hide RanOnce, AllKnown, NoRepeats, Seed;
    if !s.restored {
      SoundCarriesOver(s, s.(restored := true));
      SeedKeeps(s.(restored := true), CurrentTab(s));
    }
  }

  lemma ReloadKeeps(s: State, id: nat)
    requires Inv(s)
    ensures Inv(Apply(s, Reload(id)))
  {
    var t := Apply(s, Reload(id));
    forall screen | screen in t.closers ensures Known(t, screen) {
      assert Known(s, screen);
    }
  }

  // -------------------------------------------------------------------- runs

  /** The page opened in a new tab. */
  function Start(): State { Loaded([Foreign], 0) }

  function Exec(s: State, run: seq<Action>): (after: State)
    requires s.at < |s.entries|
    ensures after.at < |after.entries|
  {
    if run == [] then s else Apply(Exec(s, run[..|run| - 1]), run[|run| - 1])
  }

  /** Seeding, if any, comes before the first screen. */
  predicate Legal(s: State, run: seq<Action>)
    requires s.at < |s.entries|
  {
    run == [] || (Legal(s, run[..|run| - 1]) && Allowed(Exec(s, run[..|run| - 1]), run[|run| - 1]))
  }

  /** In every run from a consistent page, such as one just loaded at an entry beneath all
      screens, however opens, closes, messages, traversals, tabs and reloads interleave: the
      current entry's depth is the number of open screens, no screen is on the stack twice,
      every registered closer is on the stack or announced in a message in flight, and no
      registration runs its closer twice. */
  lemma {:induction false} RunsKeepInv(s: State, run: seq<Action>)
    requires Inv(s) && Legal(s, run)
    ensures Inv(Exec(s, run))
  {
    if run != [] {
      hide Apply, Inv, Allowed;
      var n := |run| - 1;
      RunsKeepInv(s, run[..n]);
      ApplyKeeps(Exec(s, run[..n]), run[n]);
    }
  }

  ghost predicate Quiet(s: State) {
    forall id :: Queue(s.toOwner, id) == [] && Queue(s.toChild, id) == []
  }

  lemma QuietIsKnown(s: State)
    requires AllKnown(s) && Quiet(s)
    ensures forall screen :: screen in s.closers ==> screen in s.stack
  {
    forall screen | screen in s.closers ensures screen in s.stack {
      assert Known(s, screen);
    }
  }

  /** Once no message is in flight, the owner knows every open screen. */
  lemma QuietMeansKnown(s: State, run: seq<Action>)
    requires Inv(s) && Legal(s, run) && Quiet(Exec(s, run))
    ensures var t := Exec(s, run); forall screen :: screen in t.closers ==> screen in t.stack
  {
    hide Apply, Legal, RanOnce, Exec, NoRepeats, AllKnown, Quiet;
    RunsKeepInv(s, run);
    QuietIsKnown(Exec(s, run));
  }

  /** Seeding keeps the entry honest exactly when no screen is open yet. */
  lemma SeedingComesFirst(s: State, a: Action)
    requires Honest(s) && Seeds(s, a)
    ensures Honest(Apply(s, a)) <==> s.stack == []
  {}

  lemma ExecMore(s: State, run: seq<Action>, a: Action)
    requires s.at < |s.entries|
    ensures Exec(s, run + [a]) == Apply(Exec(s, run), a)
    ensures Exec(s, [a]) == Apply(s, a)
  {
    hide Apply;
    assert (run + [a])[..|run|] == run;
    assert [a][..0] == [];
  }

  /** The owner opens a screen that is new to it. */
  lemma OwnerOpens(s: State, name: Name)
    requires s.at < |s.entries| && Screen(Owner, name) !in s.closers && Screen(Owner, name) !in s.stack
    ensures var t := Apply(s, OpenScreen(Owner, name, false));
      && t.stack == s.stack + [Screen(Owner, name)] && t.closers.Keys == s.closers.Keys + {Screen(Owner, name)}
      && t.at == s.at + 1 && t.entries == s.entries[..s.at + 1] + [Ours(CurrentTab(s), |s.stack| + 1)]
      && t.tabs == s.tabs && t.current == s.current && t.pending == s.pending
  {}

  /** A run that seeds too late: a screen opens, and only then are the tabs registered on a page
      whose address names a screen.  The entry says no screen is open, and one is. */
  lemma LateSeedingRun(name: Name, names: seq<Tab>, current: Tab)
    ensures var run := [OpenScreen(Owner, name, false)] + [RegisterTabs(names, current, true)];
      Exec(Start(), run).stack == [Screen(Owner, name)] && !Honest(Exec(Start(), run))
  {
    var open, register := OpenScreen(Owner, name, false), RegisterTabs(names, current, true);
    ExecMore(Start(), [], open);
    ExecMore(Start(), [open], register);
    OwnerOpens(Start(), name);
    var now := Apply(Start(), open);
    hide Apply, Exec;
    LateSeeding(now, names, current);
  }

  lemma LateSeeding(s: State, names: seq<Tab>, current: Tab)
    requires Honest(s) && s.tabs.None? && s.stack != []
    ensures var t := Apply(s, RegisterTabs(names, current, true)); t.stack == s.stack && !Honest(t)
  {
    SeedingComesFirst(s, RegisterTabs(names, current, true));
  }

  /** A run that reloads on a screen's entry: nothing is open, and the entry says that one is. */
  lemma ReloadedRun(name: Name)
    ensures var run := [OpenScreen(Owner, name, false)] + [LoadAgain];
      var s := Exec(Start(), run);
      s.stack == [] && Depth(s.entries[s.at]) == 1 && !Honest(s)
  {
    var open := OpenScreen(Owner, name, false);
    ExecMore(Start(), [], open);
    ExecMore(Start(), [open], LoadAgain);
    OwnerOpens(Start(), name);
    var now := Apply(Start(), open);
    hide Apply, Exec;
    assert Apply(now, LoadAgain) == Loaded(now.entries, now.at) by { LoadsAgain(now); }
  }

  lemma LoadsAgain(s: State)
    requires s.at < |s.entries|
    ensures Apply(s, LoadAgain) == Loaded(s.entries, s.at)
  {}
}
