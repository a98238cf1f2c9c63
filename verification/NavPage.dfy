/** The handlers of nav-history.js as they are written, over the fields they assign; each is
    proved to take the step that the protocol's functions describe. */
module NavPage {
  import opened Basics
  import opened NavHistory

  lemma PopToNext(s: State, depth: nat)
    requires |s.stack| > depth
    ensures var n := |s.stack| - 1;
      PopTo(s, depth) == PopTo(NavHistory.CloseScreen(s.(stack := s.stack[..n]), s.stack[n]), depth)
  {
    hide NavHistory.CloseScreen;
  }

  lemma PopToDone(s: State, depth: nat)
    requires |s.stack| <= depth
    ensures PopTo(s, depth) == s
  {}

  class Page {
    var stack: seq<Screen>
    var entries: seq<Entry>
    var at: nat
    var tabs: Option<seq<Tab>>
    var current: Tab
    var restored: bool
    var closers: map<Screen, nat>
    var registrations: nat
    var ran: seq<nat>
    var closed: seq<Screen>
    var toOwner: map<nat, seq<Message>>
    var toChild: map<nat, seq<Name>>
    var pending: seq<int>

    constructor (history: seq<Entry>, index: nat)
      ensures Value() == Loaded(history, index)
    {
      stack, entries, at, tabs, current, restored := [], history, index, None, "", false;
      closers, registrations, ran, closed := map[], 0, [], [];
      toOwner, toChild, pending := map[], map[], [];
    }

    ghost function Value(): State
      reads this
    {
      State(stack, entries, at, tabs, current, restored, closers, registrations, ran, closed, toOwner, toChild, pending)
    }

    ghost predicate Valid()
      reads this
    {
      at < |entries|
    }

    // ------------------------------------------------------- the browser's calls

    method PushState(e: Entry)
      requires Valid()
      modifies `entries, `at
      ensures Value() == Push(old(Value()), e)
    {
      entries := entries[..at + 1] + [e];
      at := at + 1;
    }

    method ReplaceState(e: Entry)
      requires Valid()
      modifies `entries
      ensures Value() == Replace(old(Value()), e)
    {
      entries := entries[at := e];
    }

    // ------------------------------------------------------------- the functions

    method RunCloser(screen: Screen)
      modifies `closers, `ran
      ensures Value() == NavHistory.RunCloser(old(Value()), screen)
    {
      if screen !in closers {
        return;
      }
      ran := ran + [closers[screen]];
      closers := closers - {screen};
    }

    method OwnerOpen(screen: Screen, claim: bool)
      requires Valid()
      modifies `stack, `entries, `at
      ensures Value() == NavHistory.OwnerOpen(old(Value()), screen, claim)
    {
      if screen in stack {
        return;
      }
      stack := stack + [screen];
      var e := Ours(if tabs.Some? then current else "", |stack|);
      if claim {
        ReplaceState(e);
      } else {
        PushState(e);
      }
    }

    method OwnerBack(screen: Screen)
      modifies `pending
      ensures Value() == NavHistory.OwnerBack(old(Value()), screen)
    {
      var i := |stack| - 1;
      while i >= 0
        invariant -1 <= i < |stack|
        invariant LastIndex(stack, screen) <= i
        invariant pending == old(pending)
      {
        if stack[i] == screen {
          pending := pending + [-(|stack| - i)];
          return;
        }
        i := i - 1;
      }
    }

    method CloseScreen(screen: Screen)
      modifies `closers, `ran, `closed, `toChild
      ensures Value() == NavHistory.CloseScreen(old(Value()), screen)
    {
      closed := closed + [screen];
      match screen.win {
        case Owner => RunCloser(screen);
        case Child(id) => toChild := Send(toChild, id, screen.name);
      }
    }

    /** The loop pops one screen at a time and closes it. */
    method PopStack(depth: nat)
      modifies `stack, `closers, `ran, `closed, `toChild
      ensures Value() == PopTo(old(Value()), depth)
    {
      hide PopTo, NavHistory.CloseScreen;
      while |stack| > depth
        invariant PopTo(Value(), depth) == PopTo(old(Value()), depth)
        decreases |stack|
      {
        PopToNext(Value(), depth);
        var screen := stack[|stack| - 1];
        stack := stack[..|stack| - 1];
        CloseScreen(screen);
      }
      PopToDone(Value(), depth);
    }

    method OnPopState(urlTab: Tab)
      requires Valid()
      modifies this
      ensures Value() == NavHistory.OnPopState(old(Value()), urlTab)
    {
      var e := entries[at];
      var wantTab := if e.Ours? && e.tab != "" then e.tab else urlTab;
      PopStack(Depth(e));
      if tabs.Some? && wantTab != "" && wantTab != current {
        current := wantTab;
      }
      if e.Foreign? || Depth(e) != |stack| {
        ReplaceState(Ours(if tabs.Some? then current else "", |stack|));
      }
    }

    method OnHashChange(hash: Tab)
      requires Valid()
      modifies `current, `entries
      ensures Value() == NavHistory.OnHashChange(old(Value()), hash)
    {
      if tabs.None? || hash !in tabs.value || hash == current {
        return;
      }
      current := hash;
      ReplaceState(Ours(hash, |stack|));
    }

    /** What the owner does with the first message from a frame, and a frame with the first
        "closed" from the owner. */
    method OnMessage(id: nat, forOwner: bool, claim: bool)
      requires Valid()
      modifies this
      ensures Value() == Apply(old(Value()), if forOwner then OwnerReceives(id, claim) else ChildReceives(id))
    {
      if !forOwner {
        if id in toChild && toChild[id] != [] {
          var name := toChild[id][0];
          toChild := toChild[id := toChild[id][1..]];
          RunCloser(Screen(Child(id), name));
        }
      } else if id in toOwner && toOwner[id] != [] {
        var message := toOwner[id][0];
        toOwner := toOwner[id := toOwner[id][1..]];
        match message {
          case Open(name) => OwnerOpen(Screen(Child(id), name), claim);
          case Back(name) => OwnerBack(Screen(Child(id), name));
        }
      }
    }

    // ------------------------------------------------------------------- the API

    method Open(win: Win, name: Name, claim: bool)
      requires Valid()
      modifies this
      ensures Value() == Apply(old(Value()), OpenScreen(win, name, claim))
    {
      hide NavHistory.OwnerOpen;
      var screen := Screen(win, name);
      var known := screen in closers;
      closers := closers[screen := registrations];
      registrations := registrations + 1;
      if known {
        return;
      }
      match win {
        case Owner => OwnerOpen(screen, claim);
        case Child(id) => toOwner := Send(toOwner, id, Message.Open(name));
      }
    }

    method Back(win: Win, name: Name) returns (found: bool)
      requires Valid()
      modifies this
      ensures found == (Screen(win, name) in old(closers))
      ensures Value() == Apply(old(Value()), CloseInApp(win, name))
    {
      var screen := Screen(win, name);
      if screen !in closers {
        return false;
      }
      RunCloser(screen);
      match win {
        case Owner => OwnerBack(screen);
        case Child(id) => toOwner := Send(toOwner, id, Message.Back(name));
      }
      return true;
    }

    method Tab(name: Tab)
      requires Valid()
      modifies this
      ensures Value() == Apply(old(Value()), PickTab(name))
    {
      if tabs.None? {
        return;
      }
      current := name;
      PushState(Ours(name, |stack|));
    }

    method Tabs(names: seq<Tab>, shown: Tab, landing: bool)
      requires Valid()
      modifies this
      ensures Value() == Apply(old(Value()), RegisterTabs(names, shown, landing))
    {
      var first := tabs.None?;
      tabs, current := Some(names), shown;
      if !first {
        return;
      }
      if !landing {
        ReplaceState(Ours(current, |stack|));
        return;
      }
      ReplaceState(Ours(current, 0));
      PushState(Ours(current, 0));
    }

    method Restore()
      requires Valid()
      modifies this
      ensures Value() == Apply(old(Value()), Action.Restore)
    {
      if restored {
        return;
      }
      restored := true;
      var tab := if tabs.Some? then current else "";
      ReplaceState(Ours(tab, 0));
      PushState(Ours(tab, 0));
    }
  }
}
