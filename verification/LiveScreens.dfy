/** Which screen the browser view of LiveView holds and shows for each pane, and which panes a
    group filter lists. */
module LiveScreens {
  import opened Wrappers
  import opened LiveView

  // ---- The filter ----------------------------------------------------------------------------

  predicate InFilter(group: Option<Group>, p: Pane) { group.None? || p.group == group }

  /** How many of the first n panes pass the filter. */
  function Rank(all: seq<Pane>, group: Option<Group>, n: nat): nat
    requires n <= |all|
  {
    if n == 0 then 0 else Rank(all, group, n - 1) + if InFilter(group, all[n - 1]) then 1 else 0
  }

  lemma {:induction false} RankFromHead(all: seq<Pane>, group: Option<Group>, n: nat)
    requires 0 < n <= |all|
    ensures Rank(all, group, n) == Rank(all[1..], group, n - 1) + if InFilter(group, all[0]) then 1 else 0
  {
    if n > 1 { RankFromHead(all, group, n - 1); }
  }

  /** The filter lists as many panes as pass it, and each of them at the place it has among
      those: with a group selected, exactly the panes of that group in their order, and without
      one all panes. */
  lemma {:induction false} FilterLists(all: seq<Pane>, group: Option<Group>)
    ensures |OfGroup(all, group)| == Rank(all, group, |all|)
    ensures forall i :: 0 <= i < |all| && InFilter(group, all[i]) ==>
      Rank(all, group, i) < |OfGroup(all, group)| && OfGroup(all, group)[Rank(all, group, i)] == all[i]
    decreases |all|
  {
    if group.None? {
      RankOfAll(all, |all|);
      forall i | 0 <= i < |all| ensures Rank(all, group, i) == i { RankOfAll(all, i); }
    } else if all != [] {
      FilterLists(all[1..], group);
      RankFromHead(all, group, |all|);
      forall i | 0 <= i < |all| && InFilter(group, all[i])
        ensures Rank(all, group, i) < |OfGroup(all, group)| && OfGroup(all, group)[Rank(all, group, i)] == all[i]
      {
        if i > 0 {
          RankFromHead(all, group, i);
          assert all[i] == all[1..][i - 1];
        }
      }
    }
  }

  lemma {:induction false} RankOfAll(all: seq<Pane>, n: nat)
    requires n <= |all|
    ensures Rank(all, None, n) == n
  {
    if n > 0 { RankOfAll(all, n - 1); }
  }

  // ---- Group, list and selection of a run ---------------------------------------------------------

  /** The selection once these panes are listed: kept while it is listed, else the first pane. */
  function Reselected(selected: Option<Id>, panes: seq<Pane>): Option<Id> {
    if panes == [] then None
    else if selected.Some? && selected.value in Ids(panes) then selected
    else Some(panes[0].id)
  }

  /** The group chosen last. */
  function GroupAfter(events: seq<Event>): Option<Group> {
    if events == [] then None
    else
      match events[|events| - 1]
      case SelectGroup(group, _, _) => group
      case _ => GroupAfter(events[..|events| - 1])
  }

  /** The panes answered last, as far as they pass the filter. */
  function ListAfter(events: seq<Event>): seq<Pane> {
    if events == [] then []
    else
      match events[|events| - 1]
      case Refresh(all, _, _) => OfGroup(all, GroupAfter(events))
      case SelectGroup(_, all, _) => OfGroup(all, GroupAfter(events))
      case NewPane(_, all, _, _, _) => OfGroup(all, GroupAfter(events))
      case _ => ListAfter(events[..|events| - 1])
  }

  /** The pane clicked on or created last, or what the lists that came since have made of it. */
  function SelectionAfter(events: seq<Event>): Option<Id> {
    if events == [] then None
    else
      match events[|events| - 1]
      case Select(id, _) => Some(id)
      case NewPane(created, _, _, _, _) => created
      case ScreenUpdate(_, _) => SelectionAfter(events[..|events| - 1])
      case _ => Reselected(SelectionAfter(events[..|events| - 1]), ListAfter(events))
  }

  // ---- The last screen of a pane -----------------------------------------------------------------

  /** A fetch of this pane's screen, which may fail. */
  function Fetched(fetch: Fetch, id: Id, held: Option<Screen>): Option<Screen> {
    if fetch(id).Some? then fetch(id) else held
  }

  /** What is held for a pane once these panes are listed: nothing if it is not among them; and
      the screen of the pane then selected is fetched, unless it was selected and held before. */
  function Listed(selected: Option<Id>, panes: seq<Pane>, fetch: Fetch, id: Id, held: Option<Screen>): Option<Screen> {
    if id !in Ids(panes) then None
    else if Reselected(selected, panes) != Some(id) || (selected == Some(id) && held.Some?) then held
    else Fetched(fetch, id, held)
  }

  /** The same after a refresh, which fetches the selected pane's screen again. */
  function Refreshed(selected: Option<Id>, panes: seq<Pane>, fetch: Fetch, again: Fetch, id: Id,
                     held: Option<Screen>): Option<Screen> {
    var listed := Listed(selected, panes, fetch, id, held);
    if Reselected(selected, panes) == Some(id) then Fetched(again, id, listed) else listed
  }

  /** The last screen that was pushed or successfully fetched for this pane, since a list last
      came without it. Screens of other panes play no part in it. */
  function LastScreen(events: seq<Event>, id: Id): Option<Screen> {
    if events == [] then None
    else
      var init := events[..|events| - 1];
      var selected, group, held := SelectionAfter(init), GroupAfter(init), LastScreen(init, id);
      match events[|events| - 1]
      case ScreenUpdate(of, screen) => if of == id then Some(screen) else held
      case Select(of, fetch) => if of == id then Fetched(fetch, id, held) else held
      case SelectGroup(chosen, all, fetch) => Listed(selected, OfGroup(all, chosen), fetch, id, held)
      case Refresh(all, fetch, again) => Refreshed(selected, OfGroup(all, group), fetch, again, id, held)
      case NewPane(created, all, fetch, again, last) =>
        var refreshed := Refreshed(selected, OfGroup(all, group), fetch, again, id, held);
        if created == Some(id) then Fetched(last, id, refreshed) else refreshed
  }

  lemma SelectPaneHolds(s: Socket, newId: Option<Id>, fetch: Fetch, id: Id)
    ensures BufferOf(SelectPane(s, newId, fetch), id)
         == if newId == Some(id) then Fetched(fetch, id, BufferOf(s, id)) else BufferOf(s, id)
  {
  }

  /** The buffers once the listed panes have theirs. */
  lemma TakenBuffers(buffers: map<Id, Option<Screen>>, panes: seq<Pane>, id: Id)
    ensures var taken := Take(SyncBuffers(buffers, panes), Ids(panes));
      && (id in taken <==> id in Ids(panes))
      && (id in taken ==> taken[id] == if id in buffers then buffers[id] else None)
  {
    SyncBuffersCovers(buffers, panes);
  }

  lemma SyncPanesHolds(s: Socket, panes: seq<Pane>, fetch: Fetch, id: Id)
    ensures BufferOf(SyncPanes(s, panes, fetch), id) == Listed(s.selected, panes, fetch, id, BufferOf(s, id))
    ensures SyncPanes(s, panes, fetch).selected == Reselected(s.selected, panes)
    ensures SyncPanes(s, panes, fetch).panes == panes
  {
    TakenBuffers(s.buffers, panes, id);
    var s1 := s.(panes := panes, buffers := Take(SyncBuffers(s.buffers, panes), Ids(panes)));
    if panes == [] {
      SelectPaneHolds(s1, None, fetch, id);
    } else if s.selected.None? || s.selected.value !in Ids(panes) {
      SelectPaneHolds(s1, Some(panes[0].id), fetch, id);
    }
  }

  lemma FirstIsListed(selected: Option<Id>, panes: seq<Pane>)
    ensures Reselected(selected, panes).Some? ==> Reselected(selected, panes).value in Ids(panes)
  {
    if panes != [] { assert panes[0] in panes; }
  }

  lemma ScreenHolds(s: Socket, again: Fetch, id: Id)
    requires s.selected.Some? ==> PaneExists(s, s.selected.value)
    ensures BufferOf(RefreshSelectedScreen(s, again), id)
         == if s.selected == Some(id) then Fetched(again, id, BufferOf(s, id)) else BufferOf(s, id)
  {
  }

  lemma RefreshHolds(s: Socket, all: seq<Pane>, fetch: Fetch, again: Fetch, id: Id)
    ensures BufferOf(RefreshTerminalState(s, all, fetch, again), id)
         == Refreshed(s.selected, OfGroup(all, s.selectedGroup), fetch, again, id, BufferOf(s, id))
  {
    var panes := OfGroup(all, s.selectedGroup);
    SyncPanesHolds(s, panes, fetch, id);
    FirstIsListed(s.selected, panes);
    ScreenHolds(SyncPanes(s, panes, fetch), again, id);
  }

  lemma HandleHolds(s: Socket, e: Event, id: Id)
    ensures var held := BufferOf(s, id);
      BufferOf(Handle(s, e), id) ==
      match e
      case ScreenUpdate(of, screen) => if of == id then Some(screen) else held
      case Select(of, fetch) => if of == id then Fetched(fetch, id, held) else held
      case SelectGroup(group, all, fetch) => Listed(s.selected, OfGroup(all, group), fetch, id, held)
      case Refresh(all, fetch, again) =>
        Refreshed(s.selected, OfGroup(all, s.selectedGroup), fetch, again, id, held)
      case NewPane(created, all, fetch, again, last) =>
        var refreshed := Refreshed(s.selected, OfGroup(all, s.selectedGroup), fetch, again, id, held);
        if created == Some(id) then Fetched(last, id, refreshed) else refreshed
  {
    match e
    case ScreenUpdate(_, _) =>
    case Select(of, fetch) => SelectPaneHolds(s, Some(of), fetch, id);
    case SelectGroup(group, all, fetch) => SyncPanesHolds(s.(selectedGroup := group), OfGroup(all, group), fetch, id);
    case Refresh(all, fetch, again) => RefreshHolds(s, all, fetch, again, id);
    case NewPane(created, all, fetch, again, last) =>
      RefreshHolds(s, all, fetch, again, id);
      SelectPaneHolds(RefreshTerminalState(s, all, fetch, again), created, last, id);
  }

  /** In every run, the view holds for each pane the last screen of that pane, and shows that of
      the selected one: no pane's output is ever held or shown for another. */
  lemma {:induction false} HoldsLastScreen(connected: bool, events: seq<Event>, id: Id)
    ensures BufferOf(Run(connected, events), id) == LastScreen(events, id)
    ensures Run(connected, events).selected == Some(id) ==>
      Run(connected, events).screen == LastScreen(events, id)
  {
    if events != [] {
      var n := |events| - 1;
      HoldsLastScreen(connected, events[..n], id);
      FollowsEvents(connected, events[..n]);
      HandleHolds(Run(connected, events[..n]), events[n], id);
    }
    SubscriptionFollowsSelection(connected, events);
  }

  // ---- The state of a run --------------------------------------------------------------------

  lemma SelectPaneSelects(s: Socket, newId: Option<Id>, fetch: Fetch)
    ensures var t := SelectPane(s, newId, fetch);
      t.selected == newId && t.panes == s.panes && t.selectedGroup == s.selectedGroup
  {
  }

  lemma RefreshFollows(s: Socket, all: seq<Pane>, fetch: Fetch, again: Fetch)
    ensures var t, panes := RefreshTerminalState(s, all, fetch, again), OfGroup(all, s.selectedGroup);
      t.panes == panes && t.selectedGroup == s.selectedGroup && t.selected == Reselected(s.selected, panes)
  {
    SyncPanesHolds(s, OfGroup(all, s.selectedGroup), fetch, 0);
    GroupIsKept(s, OfGroup(all, s.selectedGroup), fetch);
  }

  /** In every run, the filter is the group chosen last, the list is the last answer through that
      filter, and the selection follows from the clicks, the panes created and the lists alone. */
  lemma {:induction false} FollowsEvents(connected: bool, events: seq<Event>)
    ensures var s := Run(connected, events);
      s.selectedGroup == GroupAfter(events) && s.panes == ListAfter(events) && s.selected == SelectionAfter(events)
  {
    if events != [] {
      var init := events[..|events| - 1];
      FollowsEvents(connected, init);
      var s := Run(connected, init);
      match events[|events| - 1]
      case ScreenUpdate(_, _) =>
      case Select(id, fetch) => SelectPaneSelects(s, Some(id), fetch);
      case SelectGroup(group, all, fetch) =>
        SyncPanesHolds(s.(selectedGroup := group), OfGroup(all, group), fetch, 0);
        GroupIsKept(s.(selectedGroup := group), OfGroup(all, group), fetch);
      case Refresh(all, fetch, again) => RefreshFollows(s, all, fetch, again);
      case NewPane(created, all, fetch, again, last) =>
        RefreshFollows(s, all, fetch, again);
        SelectPaneSelects(RefreshTerminalState(s, all, fetch, again), created, last);
    }
  }

  // ---- Where a screen came from ---------------------------------------------------------------------

  /** This event can have brought this screen of this pane. */
  predicate Brings(e: Event, id: Id, screen: Screen) {
    match e
    case ScreenUpdate(of, pushed) => of == id && pushed == screen
    case Select(of, fetch) => of == id && fetch(id) == Some(screen)
    case SelectGroup(_, _, fetch) => fetch(id) == Some(screen)
    case Refresh(_, fetch, again) => fetch(id) == Some(screen) || again(id) == Some(screen)
    case NewPane(_, _, fetch, again, last) =>
      fetch(id) == Some(screen) || again(id) == Some(screen) || last(id) == Some(screen)
  }

  /** Whatever is shown came from the selected pane. */
  lemma {:induction false} ScreenCameFromPane(events: seq<Event>, id: Id)
    ensures LastScreen(events, id).Some? ==>
      exists k :: 0 <= k < |events| && Brings(events[k], id, LastScreen(events, id).value)
  {
    if events != [] {
      var n := |events| - 1;
      ScreenCameFromPane(events[..n], id);
      var now, before := LastScreen(events, id), LastScreen(events[..n], id);
      if now.Some? && now == before {
        var k :| 0 <= k < n && Brings(events[..n][k], id, now.value);
        assert Brings(events[k], id, now.value);
      } else if now.Some? {
        assert Brings(events[n], id, now.value);
      }
    }
  }
}
