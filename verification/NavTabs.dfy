/** The shown tab and the history entry on screen agree, wherever traversals land. */
module NavTabs {
  import opened Basics
  import opened NavHistory

  /** An entry of ours that names a tab names the one shown. */
  predicate ShowsItsTab(s: State) {
    && s.at < |s.entries|
    && (s.tabs.Some? && s.entries[s.at].Ours? && s.entries[s.at].tab != "" ==> s.entries[s.at].tab == s.current)
  }

  /** Registering the tabs again says nothing new about the tab shown. */
  predicate SameTab(s: State, a: Action) { a.RegisterTabs? && s.tabs.Some? ==> a.current == s.current }

  /** Landing on an entry shows the tab it asks for: its own, or the address's when it has none. */
  lemma PopStateShowsTab(s: State, urlTab: Tab)
    requires s.at < |s.entries|
    ensures var t := OnPopState(s, urlTab); var want := WantTab(s.entries[s.at], urlTab);
      && ShowsItsTab(t) && t.entries[t.at].Ours?
      && (s.tabs.Some? && want != "" ==> t.current == want)
      && (s.tabs.None? || want == "" ==> t.current == s.current)
  {
    hide PopTo;
    assert PopTo(s, Depth(s.entries[s.at])).entries == s.entries;
  }

  lemma OpenShowsTab(s: State, screen: Screen, claim: bool)
    requires ShowsItsTab(s)
    ensures ShowsItsTab(OwnerOpen(s, screen, claim))
  {}

  lemma SameView(s: State, t: State)
    requires ShowsItsTab(s) && t.at == s.at && t.entries == s.entries && t.tabs == s.tabs && t.current == s.current
    ensures ShowsItsTab(t)
  {}

  lemma OpenScreenShowsTab(s: State, win: Win, name: Name, claim: bool)
    requires ShowsItsTab(s)
    ensures ShowsItsTab(Apply(s, OpenScreen(win, name, claim)))
  {
    var t := Register(s, Screen(win, name));
    SameView(s, t);
    OpenShowsTab(t, Screen(win, name), claim);
    hide OwnerOpen;
  }

  lemma DeliveryShowsTab(s: State, id: nat, claim: bool)
    requires ShowsItsTab(s)
    ensures ShowsItsTab(Apply(s, OwnerReceives(id, claim)))
  {
    var queue := Queue(s.toOwner, id);
    if queue != [] {
      var t := s.(toOwner := s.toOwner[id := queue[1..]]);
      SameView(s, t);
      match queue[0] {
        case Open(name) => OpenShowsTab(t, Screen(Child(id), name), claim);
        case Back(name) =>
      }
    }
  }

  lemma TraverseShowsTab(s: State, delta: int, urlTab: Tab)
    requires ShowsItsTab(s)
    ensures ShowsItsTab(Traverse(s, delta, urlTab))
  {
    if 0 <= s.at + delta < |s.entries| {
      hide OnPopState;
      PopStateShowsTab(s.(at := s.at + delta), urlTab);
    }
  }

  lemma ApplyShowsTab(s: State, a: Action)
    requires ShowsItsTab(s) && SameTab(s, a)
    ensures ShowsItsTab(Apply(s, a))
  {
    match a {
      case OpenScreen(win, name, claim) => OpenScreenShowsTab(s, win, name, claim);
      case OwnerReceives(id, claim) => DeliveryShowsTab(s, id, claim);
      case Traversal(which, urlTab) => PendingShowsTab(s, which, urlTab);
      case UserTraversal(delta, urlTab) => TraverseShowsTab(s, delta, urlTab);
      case HashNavigation(urlTab) => PopStateShowsTab(Push(s, Foreign), urlTab);
      case CloseInApp(_, _) | ChildReceives(_) | Reload(_) => ClosersShowTab(s, a);
      case _ => OtherShowsTab(s, a);
    }
  }

  lemma PendingShowsTab(s: State, which: nat, urlTab: Tab)
    requires ShowsItsTab(s)
    ensures ShowsItsTab(Apply(s, Traversal(which, urlTab)))
  {
    if which < |s.pending| {
      var t := s.(pending := s.pending[..which] + s.pending[which + 1..]);
      SameView(s, t);
      hide Traverse;
      TraverseShowsTab(t, s.pending[which], urlTab);
    }
  }

  /** Closing, closers and frames touch neither entries nor tabs. */
  lemma ClosersShowTab(s: State, a: Action)
    requires ShowsItsTab(s) && (a.CloseInApp? || a.ChildReceives? || a.Reload?)
    ensures ShowsItsTab(Apply(s, a))
  {
    hide ShowsItsTab;
    assert s.at < |s.entries| by { ShownAt(s); }
    SameView(s, Apply(s, a));
  }

  lemma ShownAt(s: State)
    requires ShowsItsTab(s)
    ensures s.at < |s.entries|
  {}

  lemma OtherShowsTab(s: State, a: Action)
    requires ShowsItsTab(s) && SameTab(s, a)
    requires a.HashChange? || a.PickTab? || a.RegisterTabs? || a.Restore? || a.LoadAgain?
    ensures ShowsItsTab(Apply(s, a))
  {}

  predicate SameTabs(s: State, run: seq<Action>)
    requires s.at < |s.entries|
  {
    run == [] || (SameTabs(s, run[..|run| - 1]) && SameTab(Exec(s, run[..|run| - 1]), run[|run| - 1]))
  }

  /** In every run, whatever the traversals, messages, picked tabs, typed addresses and reloads,
      from a page just loaded on any history. */
  lemma {:induction false} RunsShowTheirTab(entries: seq<Entry>, at: nat, run: seq<Action>)
    requires at < |entries| && SameTabs(Loaded(entries, at), run)
    ensures ShowsItsTab(Exec(Loaded(entries, at), run))
  {
    if run != [] {
      hide Apply, ShowsItsTab, SameTab;
      RunsShowTheirTab(entries, at, run[..|run| - 1]);
      ApplyShowsTab(Exec(Loaded(entries, at), run[..|run| - 1]), run[|run| - 1]);
    }
  }
}
