/** What an in-app back undoes: while every open screen has a history entry of its own, going
    back by name lands on the entry beneath that screen and closes it and the screens above it,
    innermost first. */
module NavUnwinding {
  import opened Basics
  import opened NavHistory

  function Reversed<T>(xs: seq<T>): (ys: seq<T>)
    ensures |ys| == |xs|
    ensures forall i :: 0 <= i < |xs| ==> ys[i] == xs[|xs| - 1 - i]
  {
    if xs == [] then [] else [xs[|xs| - 1]] + Reversed(xs[..|xs| - 1])
  }

  // ------------------------------------------------- what popping screens does

  /** The screen's own closer is gone, or its frame has been told to close it. */
  predicate Dismissed(s: State, screen: Screen) {
    match screen.win
    case Owner => screen !in s.closers
    case Child(id) => screen.name in Queue(s.toChild, id)
  }

  lemma CloseScreenDismisses(s: State, screen: Screen)
    ensures Dismissed(CloseScreen(s, screen), screen)
    ensures forall other :: Dismissed(s, other) ==> Dismissed(CloseScreen(s, screen), other)
    ensures forall other :: other in s.closers && other != screen ==> other in CloseScreen(s, screen).closers
  {
    if screen.win.Child? {
      QueueGrows(s.toChild, screen.win.id, screen.name);
    }
  }

  lemma ReversedFromTop(stack: seq<Screen>, depth: nat)
    requires depth < |stack|
    ensures var n := |stack| - 1;
      && Reversed(stack[depth..]) == [stack[n]] + Reversed(stack[..n][depth..])
      && (forall screen :: screen in stack[depth..] <==> screen == stack[n] || screen in stack[..n][depth..])
  {
    var n := |stack| - 1;
    assert stack[depth..] == stack[..n][depth..] + [stack[n]];
    assert stack[depth..][..n - depth] == stack[..n][depth..];
  }

  /** Popping down to `depth` closes exactly the screens above it, innermost first. */
  lemma {:induction false} PopToCloses(s: State, depth: nat)
    requires depth <= |s.stack|
    ensures PopTo(s, depth).closed == s.closed + Reversed(s.stack[depth..])
    decreases |s.stack|
  {
    hide CloseScreen, Reversed;
    if |s.stack| == depth {
      assert Reversed<Screen>([]) == [] && s.stack[depth..] == [];
    } else {
      var n := |s.stack| - 1;
      var rest := Reversed(s.stack[..n][depth..]);
      PopToCloses(CloseScreen(s.(stack := s.stack[..n]), s.stack[n]), depth);
      ReversedFromTop(s.stack, depth);
      assert s.closed + [s.stack[n]] + rest == s.closed + ([s.stack[n]] + rest);
    }
  }

  /** A popped screen is dismissed, and one dismissed before stays so. */
  lemma {:induction false} PopToDismissesOne(s: State, depth: nat, screen: Screen)
    requires depth <= |s.stack| && (screen in s.stack[depth..] || Dismissed(s, screen))
    ensures Dismissed(PopTo(s, depth), screen)
    decreases |s.stack|
  {
    hide CloseScreen, Dismissed, Reversed;
    if |s.stack| > depth {
      var n := |s.stack| - 1;
      var rest := s.(stack := s.stack[..n]);
      SameDismissed(s, rest);
      CloseScreenDismisses(rest, s.stack[n]);
      ReversedFromTop(s.stack, depth);
      PopToDismissesOne(CloseScreen(rest, s.stack[n]), depth, screen);
    }
  }

  /** The closer of a screen that stays is left alone. */
  lemma {:induction false} PopToSparesOne(s: State, depth: nat, screen: Screen)
    requires depth <= |s.stack| && screen in s.closers && screen !in s.stack[depth..]
    ensures screen in PopTo(s, depth).closers
    decreases |s.stack|
  {
    hide CloseScreen, Dismissed, Reversed;
    if |s.stack| > depth {
      var n := |s.stack| - 1;
      var rest := s.(stack := s.stack[..n]);
      CloseScreenDismisses(rest, s.stack[n]);
      ReversedFromTop(s.stack, depth);
      PopToSparesOne(CloseScreen(rest, s.stack[n]), depth, screen);
    }
  }

  /** It tells each of their frames, and runs no closer of a screen that stays. */
  lemma PopToDismisses(s: State, depth: nat)
    requires depth <= |s.stack|
    ensures var t := PopTo(s, depth);
      && (forall screen :: screen in s.stack[depth..] || Dismissed(s, screen) ==> Dismissed(t, screen))
      && (forall screen :: screen in s.closers && screen !in s.stack[depth..] ==> screen in t.closers)
  {
    hide PopTo, Dismissed;
    forall screen | screen in s.stack[depth..] || Dismissed(s, screen) ensures Dismissed(PopTo(s, depth), screen) {
      PopToDismissesOne(s, depth, screen);
    }
    forall screen | screen in s.closers && screen !in s.stack[depth..] ensures screen in PopTo(s, depth).closers {
      PopToSparesOne(s, depth, screen);
    }
  }

  lemma SameDismissed(s: State, t: State)
    requires t.closers == s.closers && t.toChild == s.toChild
    ensures forall screen :: Dismissed(s, screen) <==> Dismissed(t, screen)
  {}

  lemma SettleTouches(s: State, wantTab: Tab)
    requires s.at < |s.entries|
    ensures var t := Settle(s, wantTab);
      && t.at == s.at && t.stack == s.stack && t.closed == s.closed && t.closers == s.closers && t.toChild == s.toChild
      && t.pending == s.pending && |t.entries| == |s.entries| && Depth(t.entries[t.at]) == |s.stack|
      && (forall i :: 0 <= i < |s.entries| && i != t.at ==> t.entries[i] == s.entries[i])
  {
    hide Settle;
  }

  /** A traversal that lands on an entry of depth `depth`, no deeper than the stack. */
  lemma LandsAt(s: State, delta: int, urlTab: Tab, depth: nat)
    requires s.at < |s.entries| && 0 <= s.at + delta < |s.entries|
    requires Depth(s.entries[s.at + delta]) == depth <= |s.stack|
    ensures var t := Traverse(s, delta, urlTab);
      && t.at == s.at + delta && t.stack == s.stack[..depth] && t.pending == s.pending
      && t.closed == s.closed + Reversed(s.stack[depth..])
      && (forall screen :: screen in s.stack[depth..] ==> Dismissed(t, screen))
      && (forall screen :: screen in s.closers && screen !in s.stack[depth..] ==> screen in t.closers)
      && |t.entries| == |s.entries|
      && (forall i :: 0 <= i < |s.entries| && i != t.at ==> t.entries[i] == s.entries[i])
      && Depth(t.entries[t.at]) == depth
  {
    hide PopTo, Dismissed, Settle, WantTab;
    var moved := s.(at := s.at + delta);
    PopToCloses(moved, depth);
    PopToDismisses(moved, depth);
    var popped := PopTo(moved, depth);
    SettleTouches(popped, WantTab(moved.entries[moved.at], urlTab));
    SameDismissed(popped, Traverse(s, delta, urlTab));
  }

  // ------------------------------------------------- one entry for each screen

  /** Above the entry at `base`, each open screen has an entry of its own that records it. */
  predicate Aligned(s: State, base: nat) {
    && base + |s.stack| == s.at < |s.entries|
    && forall k :: base <= k <= s.at ==> Depth(s.entries[k]) == k - base
  }

  /** The traversal an in-app back asks for. */
  function BackDelta(s: State, i: nat): int
    requires i < |s.stack|
  {
    -(|s.stack| - i)
  }

  lemma {:induction false} OnlyIndex(stack: seq<Screen>, i: nat)
    requires NoRepeats(stack) && i < |stack|
    ensures LastIndex(stack, stack[i]) == i
  {}

  lemma BackAsksFor(s: State, i: nat)
    requires NoRepeats(s.stack) && i < |s.stack|
    ensures OwnerBack(s, s.stack[i]) == s.(pending := s.pending + [BackDelta(s, i)])
  {
    OnlyIndex(s.stack, i);
  }

  /** The traversal of an in-app back, taken before anything else happens, closes exactly the
      screen and those above it when, and only when, the entry it lands on records the screen's
      place on the stack. */
  lemma BackClosesExactly(s: State, i: nat, urlTab: Tab)
    requires i < |s.stack| && s.at < |s.entries|
    ensures Traverse(s, BackDelta(s, i), urlTab).stack == s.stack[..i]
      <==> |s.stack| - i <= s.at && Depth(s.entries[s.at + BackDelta(s, i)]) == i
  {
    if |s.stack| - i <= s.at {
      hide PopTo;
      var depth := Depth(s.entries[s.at + BackDelta(s, i)]);
      var popped := PopTo(s.(at := s.at + BackDelta(s, i)), depth);
      assert |popped.stack| == if |s.stack| <= depth then |s.stack| else depth;
    }
  }

  lemma TraversalTaken(s: State, delta: int, urlTab: Tab)
    requires s.at < |s.entries|
    ensures Apply(s.(pending := s.pending + [delta]), Traversal(|s.pending|, urlTab)) == Traverse(s, delta, urlTab)
  {
    hide Traverse;
    var asked := s.(pending := s.pending + [delta]);
    assert asked.pending[..|s.pending|] + asked.pending[|s.pending| + 1..] == s.pending;
    assert asked.(pending := s.pending) == s;
  }

  /** In-app back on an aligned page, asked for by any frame: when its traversal comes, the page is
      where it was before the screen opened, the screens from it upwards are closed, innermost
      first, and no other screen is. */
  lemma BackUnwinds(s: State, base: nat, i: nat, urlTab: Tab)
    requires NoRepeats(s.stack) && Aligned(s, base) && i < |s.stack|
    ensures var asked := OwnerBack(s, s.stack[i]);
      var done := Apply(asked, Traversal(|s.pending|, urlTab));
      && done.at == base + i && Depth(done.entries[done.at]) == i && Aligned(done, base)
      && done.stack == s.stack[..i] && done.closed == s.closed + Reversed(s.stack[i..])
      && done.pending == s.pending
      && (forall screen :: screen in s.stack[i..] ==> Dismissed(done, screen))
      && (forall screen :: screen in s.closers && screen !in s.stack[i..] ==> screen in done.closers)
  {
    BackAsksFor(s, i);
    TraversalTaken(s, BackDelta(s, i), urlTab);
    hide Apply, Traverse, OwnerBack, Dismissed;
    LandsAt(s, BackDelta(s, i), urlTab, i);
  }

  // --------------------------------------------------------- staying aligned

  /** The actions that leave each screen its own entry: everything but picking a tab, typing an
      address, claiming an address, seeding, and traversals out of the entries of open screens. */
  predicate Calm(s: State, base: nat, a: Action) {
    match a
    case OpenScreen(_, _, claim) => !claim
    case OwnerReceives(_, claim) => !claim
    case Traversal(which, _) => which < |s.pending| ==> base <= s.at + s.pending[which] <= s.at
    case UserTraversal(delta, _) => base <= s.at + delta <= s.at
    case RegisterTabs(_, _, landing) => s.tabs.Some? || !landing
    case Restore => s.restored
    case HashNavigation(_) | PickTab(_) => false
    case LoadAgain => s.stack == []
    case CloseInApp(_, _) | ChildReceives(_) | HashChange(_) | Reload(_) => true
  }

  lemma OpenStaysAligned(s: State, base: nat, screen: Screen)
    requires Aligned(s, base)
    ensures Aligned(OwnerOpen(s, screen, false), base)
    ensures screen !in s.stack ==>
      var t := OwnerOpen(s, screen, false); t.at == s.at + 1 && t.stack == s.stack + [screen]
  {}

  lemma TraversalStaysAligned(s: State, base: nat, delta: int, urlTab: Tab)
    requires Aligned(s, base) && base <= s.at + delta <= s.at
    ensures Aligned(Traverse(s, delta, urlTab), base)
  {
    hide PopTo, Dismissed, OnPopState;
    var depth := s.at + delta - base;
    assert Depth(s.entries[s.at + delta]) == depth;
    LandsAt(s, delta, urlTab, depth);
  }

  lemma SameAligned(s: State, t: State, base: nat)
    requires Aligned(s, base) && t.stack == s.stack && t.at == s.at && |t.entries| == |s.entries|
    requires forall i :: 0 <= i < |s.entries| ==> Depth(t.entries[i]) == Depth(s.entries[i])
    ensures Aligned(t, base)
  {}

  lemma OpenScreenStaysAligned(s: State, base: nat, win: Win, name: Name)
    requires Aligned(s, base)
    ensures Aligned(Apply(s, OpenScreen(win, name, false)), base)
  {
    var t := Register(s, Screen(win, name));
    SameAligned(s, t, base);
    OpenStaysAligned(t, base, Screen(win, name));
    hide Aligned, OwnerOpen;
    if win.Child? && Screen(win, name) !in s.closers {
      SameAligned(t, t.(toOwner := Send(s.toOwner, win.id, Open(name))), base);
    }
  }

  lemma CloseInAppStaysAligned(s: State, base: nat, win: Win, name: Name)
    requires Aligned(s, base)
    ensures Aligned(Apply(s, CloseInApp(win, name)), base)
  {
    assert s.at < |s.entries|;
    hide Aligned;
    SameAligned(s, Apply(s, CloseInApp(win, name)), base);
  }

  lemma DeliveryStaysAligned(s: State, base: nat, id: nat)
    requires Aligned(s, base)
    ensures Aligned(Apply(s, OwnerReceives(id, false)), base)
  {
    assert s.at < |s.entries|;
    hide OwnerOpen, Aligned;
    var queue := Queue(s.toOwner, id);
    if queue != [] {
      var t := s.(toOwner := s.toOwner[id := queue[1..]]);
      SameAligned(s, t, base);
      match queue[0] {
        case Open(name) => OpenStaysAligned(t, base, Screen(Child(id), name));
        case Back(name) => SameAligned(t, OwnerBack(t, Screen(Child(id), name)), base);
      }
    }
  }

  lemma PendingStaysAligned(s: State, base: nat, which: nat, urlTab: Tab)
    requires Aligned(s, base) && Calm(s, base, Traversal(which, urlTab))
    ensures Aligned(Apply(s, Traversal(which, urlTab)), base)
  {
    assert s.at < |s.entries|;
    hide Aligned, Traverse;
    if which < |s.pending| {
      var t := s.(pending := s.pending[..which] + s.pending[which + 1..]);
      SameAligned(s, t, base);
      TraversalStaysAligned(t, base, s.pending[which], urlTab);
    }
  }

  lemma TabsStayAligned(s: State, base: nat, a: Action)
    requires Aligned(s, base) && Calm(s, base, a)
    requires a.HashChange? || a.RegisterTabs? || a.Restore? || a.Reload? || a.ChildReceives? || a.LoadAgain?
    ensures Aligned(Apply(s, a), base)
  {}

  lemma ApplyStaysAligned(s: State, base: nat, a: Action)
    requires Aligned(s, base) && Calm(s, base, a)
    ensures Aligned(Apply(s, a), base)
  {
    assert s.at < |s.entries|;
    match a {
      case OpenScreen(win, name, _) => OpenScreenStaysAligned(s, base, win, name);
      case CloseInApp(win, name) => CloseInAppStaysAligned(s, base, win, name);
      case OwnerReceives(id, _) => DeliveryStaysAligned(s, base, id);
      case Traversal(which, urlTab) => PendingStaysAligned(s, base, which, urlTab);
      case UserTraversal(delta, urlTab) => TraversalStaysAligned(s, base, delta, urlTab);
      case HashChange(_) | RegisterTabs(_, _, _) | Restore | Reload(_) | ChildReceives(_) | LoadAgain =>
        TabsStayAligned(s, base, a);
      case HashNavigation(_) | PickTab(_) =>
    }
  }

  predicate CalmRun(s: State, base: nat, run: seq<Action>)
    requires s.at < |s.entries|
  {
    run == [] || (CalmRun(s, base, run[..|run| - 1]) && Calm(Exec(s, run[..|run| - 1]), base, run[|run| - 1]))
  }

  /** From a page with no screen open, a calm run of any length keeps one entry for each screen. */
  lemma {:induction false} RunStaysAligned(s: State, run: seq<Action>)
    requires s.stack == [] && Honest(s) && CalmRun(s, s.at, run)
    ensures Aligned(Exec(s, run), s.at)
  {
    if run != [] {
      hide Apply, Aligned, Calm;
      RunStaysAligned(s, run[..|run| - 1]);
      ApplyStaysAligned(Exec(s, run[..|run| - 1]), s.at, run[|run| - 1]);
    } else {
      assert Aligned(s, s.at);
    }
  }

  // ------------------------------------------------ several backs at a time

  function Sum(deltas: seq<int>): int { if deltas == [] then 0 else deltas[0] + Sum(deltas[1..]) }

  /** The first n traversals asked for take effect, in the order in which they were asked for. */
  function Takes(s: State, n: nat, urlTab: Tab): (after: State)
    requires s.at < |s.entries|
    ensures after.at < |after.entries|
    decreases n
  {
    if n == 0 then s else Takes(Apply(s, Traversal(0, urlTab)), n - 1, urlTab)
  }

  lemma TakesFirst(s: State, urlTab: Tab)
    requires s.at < |s.entries| && s.pending != [] && 0 <= s.at + s.pending[0] < |s.entries|
    ensures var t := Apply(s, Traversal(0, urlTab));
      t.at == s.at + s.pending[0] && t.pending == s.pending[1..] && |t.entries| == |s.entries|
  {
    hide PopTo, Settle;
    assert s.pending[..0] + s.pending[1..] == s.pending[1..];
  }

  /** However many backs are pending, each moves by what was counted when it was asked for: they
      land at the sum of their deltas, and the page stays aligned while that is at its base or
      above it. */
  lemma {:induction false} PendingBacksLand(s: State, base: nat, urlTab: Tab)
    requires s.at < |s.entries| && (forall k :: 0 <= k < |s.pending| ==> s.pending[k] < 0)
    requires 0 <= s.at + Sum(s.pending)
    ensures var t := Takes(s, |s.pending|, urlTab);
      && t.at == s.at + Sum(s.pending) && t.pending == []
      && (Aligned(s, base) && base <= t.at ==> Aligned(t, base))
    decreases |s.pending|
  {
    hide Apply, Aligned;
    if s.pending != [] {
      SumIsNegative(s.pending[1..]);
      TakesFirst(s, urlTab);
      var t := Apply(s, Traversal(0, urlTab));
      if Aligned(s, base) && base <= s.at + Sum(s.pending) {
        PendingStaysAligned(s, base, 0, urlTab);
      }
      PendingBacksLand(t, base, urlTab);
    }
  }

  lemma {:induction false} SumIsNegative(deltas: seq<int>)
    requires forall k :: 0 <= k < |deltas| ==> deltas[k] < 0
    ensures Sum(deltas) <= 0 && (Sum(deltas) == 0 <==> deltas == [])
  {
    if deltas != [] {
      SumIsNegative(deltas[1..]);
    }
  }

  lemma {:induction false} SumOfMore(deltas: seq<int>, last: int)
    ensures Sum(deltas + [last]) == Sum(deltas) + last
  {
    if deltas == [] {
      assert [] + [last] == [last] && [last][1..] == [];
    } else {
      assert (deltas + [last])[1..] == deltas[1..] + [last];
      SumOfMore(deltas[1..], last);
    }
  }

  /** A back asked for while other backs are pending counts the screens they are about to close a
      second time.  It lands beneath its screen if and only if none is pending. */
  lemma BackBehindOthers(s: State, base: nat, i: nat, urlTab: Tab)
    requires NoRepeats(s.stack) && Aligned(s, base) && i < |s.stack|
    requires (forall k :: 0 <= k < |s.pending| ==> s.pending[k] < 0) && 0 <= base + i + Sum(s.pending)
    ensures var done := Takes(OwnerBack(s, s.stack[i]), |s.pending| + 1, urlTab);
      && done.at == base + i + Sum(s.pending)
      && (base <= done.at ==> Aligned(done, base))
      && (done.at == base + i <==> s.pending == [])
  {
    hide Aligned;
    BackAsksFor(s, i);
    SumOfMore(s.pending, BackDelta(s, i));
    SumIsNegative(s.pending);
    var asked := OwnerBack(s, s.stack[i]);
    SameAligned(s, asked, base);
    assert s.at == base + |s.stack| < |s.entries| by { AlignedAt(s, base); }
    PendingBacksLand(asked, base, urlTab);
  }

  lemma AlignedAt(s: State, base: nat)
    requires Aligned(s, base)
    ensures s.at == base + |s.stack| < |s.entries|
  {}

  // --------------------------------------------------------- runs that go wrong

  /** Two screens opened one over the other on a page with a list entry beneath them. */
  function TwoOpen(a: Name, b: Name): seq<Action> {
    [RegisterTabs(["home"], "home", true), OpenScreen(Owner, a, false), OpenScreen(Owner, b, false)]
  }

  lemma TwoOpenState(a: Name, b: Name)
    requires a != b
    ensures var s := Exec(Start(), TwoOpen(a, b));
      && s.stack == [Screen(Owner, a), Screen(Owner, b)] && s.closers.Keys == {Screen(Owner, a), Screen(Owner, b)}
      && s.pending == [] && s.at == 3 && Aligned(s, 1)
  {
    var register, first, second := RegisterTabs(["home"], "home", true), OpenScreen(Owner, a, false),
      OpenScreen(Owner, b, false);
    hide Apply, Exec;
    ExecMore(Start(), [], register);
    ExecMore(Start(), [register], first);
    ExecMore(Start(), [register] + [first], second);
    assert [register] + [first] + [second] == TwoOpen(a, b);
    var s1 := Apply(Start(), register);
    HomeSeeded();
    OwnerOpens(s1, a);
    var s2 := Apply(s1, first);
    assert s1.entries[..2] == s1.entries && s2.entries == s1.entries + [Ours("home", 1)] && s2.at == 2;
    OwnerOpens(s2, b);
    var s3 := Apply(s2, second);
    assert s2.entries[..3] == s2.entries && s3.entries == s2.entries + [Ours("home", 2)];
    OpenedAligned(s1.entries, s3);
  }

  lemma OpenedAligned(home: seq<Entry>, s: State)
    requires home == [Ours("home", 0), Ours("home", 0)] && s.entries == home + [Ours("home", 1)] + [Ours("home", 2)]
    requires s.at == 3 && |s.stack| == 2
    ensures Aligned(s, 1)
  {
    assert s.entries[1] == Ours("home", 0) && s.entries[2] == Ours("home", 1) && s.entries[3] == Ours("home", 2);
  }

  lemma HomeSeeded()
    ensures var s := Apply(Start(), RegisterTabs(["home"], "home", true));
      && s.entries == [Ours("home", 0), Ours("home", 0)] && s.at == 1 && s.stack == []
      && s.closers == map[] && s.pending == [] && CurrentTab(s) == "home"
  {}

  /** Both screens are closed from within before the browser has taken the first traversal: the
      page lands at entry 0, one below the list entry it opened them from. */
  lemma TwoBacksRun(a: Name, b: Name, urlTab: Tab)
    requires a != b
    ensures var run := TwoOpen(a, b) + [CloseInApp(Owner, b)] + [CloseInApp(Owner, a)] + [Traversal(0, urlTab)]
      + [Traversal(0, urlTab)];
      Exec(Start(), TwoOpen(a, b)).at == 3 && Exec(Start(), run).at == 0
  {
    hide Apply, Aligned;
    var open := TwoOpen(a, b);
    var both := open + [CloseInApp(Owner, b)] + [CloseInApp(Owner, a)];
    TwoOpenState(a, b);
    ExecMore(Start(), open, CloseInApp(Owner, b));
    ExecMore(Start(), open + [CloseInApp(Owner, b)], CloseInApp(Owner, a));
    ExecMore(Start(), both, Traversal(0, urlTab));
    ExecMore(Start(), both + [Traversal(0, urlTab)], Traversal(0, urlTab));
    var s := Exec(Start(), open);
    ClosesInApp(s, Screen(Owner, b), 1);
    ClosesInApp(Apply(s, CloseInApp(Owner, b)), Screen(Owner, a), 0);
    var asked := Exec(Start(), both);
    assert asked.pending == [-1] + [-2] == [-1, -2];
    assert Sum([-1, -2]) == -3 by { SumOfMore([-1], -2); SumOfMore([], -1); assert [] + [-1] == [-1]; }
    PendingBacksLand(asked, 0, urlTab);
    assert Takes(asked, 2, urlTab) == Takes(Apply(asked, Traversal(0, urlTab)), 1, urlTab);
  }

  lemma ClosesInApp(s: State, screen: Screen, i: nat)
    requires NoRepeats(s.stack) && i < |s.stack| && s.stack[i] == screen && screen in s.closers && screen.win.Owner?
    requires s.at < |s.entries|
    ensures var t := Apply(s, CloseInApp(Owner, screen.name));
      && t.stack == s.stack && t.pending == s.pending + [BackDelta(s, i)] && t.at == s.at && t.entries == s.entries
      && t.closers.Keys == s.closers.Keys - {screen}
  {
    OnlyIndex(s.stack, i);
  }

  /** Picking a tab while screens are open pushes an entry that belongs to no screen, so the back
      that follows lands one entry short: the screen it names stays on the stack. */
  lemma PickedTabBreaksBack(s: State, base: nat, name: Tab, i: nat, urlTab: Tab)
    requires Aligned(s, base) && s.tabs.Some? && i < |s.stack|
    ensures var t := PickedTab(s, name);
      t.stack == s.stack && Traverse(t, BackDelta(t, i), urlTab).stack == s.stack[..i + 1]
  {
    var t := PickedTab(s, name);
    assert Depth(s.entries[base + i + 1]) == i + 1;
    hide Traverse, Dismissed;
    LandsAt(t, BackDelta(t, i), urlTab, i + 1);
  }

  /** A run to that state: a screen opens, a tab is picked, and the screen is closed from within.
      It stays on the stack. */
  lemma PickedTabRun(name: Name, urlTab: Tab)
    ensures var run := [RegisterTabs(["home", "jobs"], "home", false), OpenScreen(Owner, name, false)]
                       + [PickTab("jobs")] + [CloseInApp(Owner, name)] + [Traversal(0, urlTab)];
      Exec(Start(), run).stack == [Screen(Owner, name)]
  {
    var register, open, pick := RegisterTabs(["home", "jobs"], "home", false), OpenScreen(Owner, name, false),
      PickTab("jobs");
    var screen := Screen(Owner, name);
    hide Apply, Exec, PickedTab, Aligned;
    ExecMore(Start(), [], register);
    ExecMore(Start(), [register], open);
    ExecMore(Start(), [register] + [open], pick);
    ExecMore(Start(), [register] + [open] + [pick], CloseInApp(Owner, name));
    ExecMore(Start(), [register] + [open] + [pick] + [CloseInApp(Owner, name)], Traversal(0, urlTab));
    assert [register] + [open] == [register, open];
    OneOpenState(name);
    var s := Apply(Apply(Start(), register), open);
    TabIsPicked(s, "jobs");
    PickedTabBreaksBack(s, 0, "jobs", 0, urlTab);
    PickedThenBack(PickedTab(s, "jobs"), screen, urlTab);
    assert [screen][..1] == [screen];
  }

  lemma OneOpenState(name: Name)
    ensures var s := Apply(Apply(Start(), RegisterTabs(["home", "jobs"], "home", false)),
      OpenScreen(Owner, name, false));
      && s.stack == [Screen(Owner, name)] && s.closers.Keys == {Screen(Owner, name)} && s.pending == []
      && s.tabs.Some? && Aligned(s, 0)
  {
    HomeRegistered();
    hide Apply;
    OwnerOpens(Apply(Start(), RegisterTabs(["home", "jobs"], "home", false)), name);
  }

  lemma HomeRegistered()
    ensures var s := Apply(Start(), RegisterTabs(["home", "jobs"], "home", false));
      && s.entries == [Ours("home", 0)] && s.at == 0 && s.stack == [] && s.closers == map[] && s.pending == []
        && s.tabs.Some?
  {}

  lemma TabIsPicked(s: State, name: Tab)
    requires s.at < |s.entries|
    ensures var t := Apply(s, PickTab(name));
      t == PickedTab(s, name) && t.closers == s.closers && t.pending == s.pending && t.stack == s.stack
  {}

  lemma PickedThenBack(s: State, screen: Screen, urlTab: Tab)
    requires s.at < |s.entries| && s.stack == [screen] && screen in s.closers && screen.win.Owner? && s.pending == []
    ensures Apply(Apply(s, CloseInApp(Owner, screen.name)), Traversal(0, urlTab)).stack
         == Traverse(s, BackDelta(s, 0), urlTab).stack
  {
    hide Traverse;
    ClosesInApp(s, screen, 0);
    var closed := RunCloser(s, screen);
    assert Apply(s, CloseInApp(Owner, screen.name)) == closed.(pending := closed.pending + [BackDelta(s, 0)]) by {
      OnlyIndex(s.stack, 0);
    }
    TraversalTaken(closed, BackDelta(s, 0), urlTab);
    SameStack(s, closed, BackDelta(s, 0), urlTab);
  }

  /** The closers play no part in where a traversal lands. */
  lemma SameStack(s: State, t: State, delta: int, urlTab: Tab)
    requires s.at < |s.entries| && t.at == s.at && t.entries == s.entries && t.stack == s.stack
    ensures Traverse(t, delta, urlTab).stack == Traverse(s, delta, urlTab).stack
  {
    hide PopTo;
  }
}
