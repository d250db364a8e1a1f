/** The selection, subscription and buffer state of
    client/lib/terminal_ui_web/live/terminal_live.ex. Answers of the backend are parameters;
    `fetch` is what the get_screen calls of one step answer. */
module LiveView {
  import opened Wrappers

  type Id = nat
  type Group = nat
  type Screen = nat
  type Fetch = Id -> Option<Screen>

  datatype Pane = Pane(id: Id, group: Option<Group>)

  /** The assigns, and the PubSub topics this view's process is subscribed to, with the number
      of subscriptions to each. A buffer is its screen. */
  datatype Socket = Socket(
    connected: bool, panes: seq<Pane>, selectedGroup: Option<Group>,
    buffers: map<Id, Option<Screen>>, selected: Option<Id>, screen: Option<Screen>, topics: multiset<Id>)

  function Mount(connected: bool): Socket { Socket(connected, [], None, map[], None, None, multiset{}) }

  function Ids(panes: seq<Pane>): set<Id> { set p | p in panes :: p.id }

  predicate PaneExists(s: Socket, id: Id) { id in Ids(s.panes) }

  function PutBuffer(s: Socket, id: Id, screen: Option<Screen>): Socket { s.(buffers := s.buffers[id := screen]) }

  function BufferOf(s: Socket, id: Id): Option<Screen> { if id in s.buffers then s.buffers[id] else None }

  function UpdatePaneBuffer(s: Socket, id: Id, screen: Screen): Socket {
    var s1 := PutBuffer(s, id, Some(screen));
    if s.selected == Some(id) then s1.(screen := Some(screen)) else s1
  }

  function RefreshPaneScreen(s: Socket, id: Id, fetch: Fetch): Socket {
    match fetch(id)
    case Some(screen) => UpdatePaneBuffer(s, id, screen)
    case None =>
      var s1 := PutBuffer(s, id, BufferOf(s, id));
      if s.selected == Some(id) then s1.(screen := BufferOf(s, id)) else s1
  }

  /** PubSub.unsubscribe drops every subscription of the process to the topic. */
  function ConfigureSelectedPaneStream(s: Socket, newId: Option<Id>): Socket {
    if !s.connected || s.selected == newId then s
    else
      var kept := if s.selected.Some? then s.topics[s.selected.value := 0] else s.topics;
      s.(topics := if newId.Some? then kept + multiset{newId.value} else kept)
  }

  function SelectPane(s: Socket, newId: Option<Id>, fetch: Fetch): Socket {
    var s1 := ConfigureSelectedPaneStream(s, newId).(selected := newId);
    match newId
    case None => s1.(screen := None)
    case Some(id) => RefreshPaneScreen(s1, id, fetch)
  }

  /** The first clause loads a buffer that has no screen yet, the last one a missing buffer. */
  function EnsurePaneBufferLoaded(s: Socket, id: Id, fetch: Fetch): Socket {
    if id in s.buffers && s.buffers[id].Some? then s else PutBuffer(s, id, fetch(id))
  }

  function EnsureValidSelection(s: Socket, fetch: Fetch): Socket {
    if s.panes == [] then SelectPane(s, None, fetch)
    else if s.selected.None? then SelectPane(s, Some(s.panes[0].id), fetch)
    else if PaneExists(s, s.selected.value) then
      var s1 := EnsurePaneBufferLoaded(s, s.selected.value, fetch);
      s1.(screen := BufferOf(s1, s.selected.value))
    else SelectPane(s, Some(s.panes[0].id), fetch)
  }

  /** The reduce over the panes: every listed pane keeps its screen or gets an empty buffer. */
  function SyncBuffers(buffers: map<Id, Option<Screen>>, panes: seq<Pane>): map<Id, Option<Screen>>
    decreases |panes|
  {
    if panes == [] then buffers
    else
      var id := panes[0].id;
      SyncBuffers(buffers[id := if id in buffers then buffers[id] else None], panes[1..])
  }

  function Take(buffers: map<Id, Option<Screen>>, ids: set<Id>): map<Id, Option<Screen>> {
    map id | id in buffers && id in ids :: buffers[id]
  }

  function SyncPanes(s: Socket, panes: seq<Pane>, fetch: Fetch): Socket {
    EnsureValidSelection(s.(panes := panes, buffers := Take(SyncBuffers(s.buffers, panes), Ids(panes))), fetch)
  }

  function OfGroup(all: seq<Pane>, group: Option<Group>): seq<Pane> {
    if group.None? || all == [] then all
    else (if all[0].group == group then [all[0]] else []) + OfGroup(all[1..], group)
  }

  function RefreshPanes(s: Socket, all: seq<Pane>, fetch: Fetch): Socket {
    SyncPanes(s, OfGroup(all, s.selectedGroup), fetch)
  }

  function RefreshSelectedScreen(s: Socket, fetch: Fetch): Socket {
    if s.selected.None? || !PaneExists(s, s.selected.value) then s
    else RefreshPaneScreen(s, s.selected.value, fetch)
  }

  /** refresh_terminal_state and refresh_polled_terminal_state change the same assigns. */
  function RefreshTerminalState(s: Socket, all: seq<Pane>, fetch: Fetch, again: Fetch): Socket {
    RefreshSelectedScreen(RefreshPanes(s, all, fetch), again)
  }

  datatype Event =
    | Refresh(all: seq<Pane>, fetch: Fetch, again: Fetch)        // load_panes, polls, kill_pane, applied sizes
    | ScreenUpdate(id: Id, screen: Screen)
    | SelectGroup(group: Option<Group>, all: seq<Pane>, fetch: Fetch)
    | Select(id: Id, fetch: Fetch)
    | NewPane(created: Option<Id>, all: seq<Pane>, fetch: Fetch, again: Fetch, last: Fetch)

  function Handle(s: Socket, e: Event): Socket {
    match e
    case Refresh(all, fetch, again) => RefreshTerminalState(s, all, fetch, again)
    case ScreenUpdate(id, screen) => UpdatePaneBuffer(s, id, screen)
    case SelectGroup(group, all, fetch) => RefreshPanes(s.(selectedGroup := group), all, fetch)
    case Select(id, fetch) => SelectPane(s, Some(id), fetch)
    case NewPane(created, all, fetch, again, last) =>
      SelectPane(RefreshTerminalState(s, all, fetch, again), created, last)
  }

  function Run(connected: bool, events: seq<Event>): Socket {
    if events == [] then Mount(connected)
    else Handle(Run(connected, events[..|events| - 1]), events[|events| - 1])
  }

  // ---- In every state ---------------------------------------------------------------------

  /** The view is subscribed to exactly the selected pane's topic, once. */
  ghost predicate TopicsInv(s: Socket) {
    s.topics == if s.connected && s.selected.Some? then multiset{s.selected.value} else multiset{}
  }

  /** What is shown is the selected pane's buffer, and nothing without a selection. */
  ghost predicate ShownInv(s: Socket) {
    if s.selected.None? then s.screen == None
    else s.selected.value in s.buffers && s.screen == s.buffers[s.selected.value]
  }

  ghost predicate Inv(s: Socket) { TopicsInv(s) && ShownInv(s) }

  lemma StreamFollows(s: Socket, newId: Option<Id>)
    requires TopicsInv(s)
    ensures TopicsInv(ConfigureSelectedPaneStream(s, newId).(selected := newId))
  {
    if s.connected && s.selected.Some? {
      var id := s.selected.value;
      assert multiset{id}[id := 0] == multiset{};
    }
  }

  /** Refreshing a pane's screen touches the buffers and, for the selected pane, what is shown. */
  lemma RefreshPaneScreenIs(s: Socket, id: Id, fetch: Fetch)
    ensures var b := if fetch(id).Some? then fetch(id) else BufferOf(s, id);
      RefreshPaneScreen(s, id, fetch)
        == s.(buffers := s.buffers[id := b], screen := if s.selected == Some(id) then b else s.screen)
  {
  }

  lemma SelectPaneEstablishes(s: Socket, newId: Option<Id>, fetch: Fetch)
    requires TopicsInv(s)
    ensures var t := SelectPane(s, newId, fetch);
      && Inv(t) && t.selected == newId && t.panes == s.panes && t.connected == s.connected
      && t.buffers.Keys == s.buffers.Keys + (if newId.Some? then {newId.value} else {})
  {
    StreamFollows(s, newId);
    if newId.Some? {
      RefreshPaneScreenIs(ConfigureSelectedPaneStream(s, newId).(selected := newId), newId.value, fetch);
    }
  }

  lemma RefreshPaneScreenKeeps(s: Socket, id: Id, fetch: Fetch)
    requires Inv(s)
    ensures Inv(RefreshPaneScreen(s, id, fetch))
    ensures RefreshPaneScreen(s, id, fetch).buffers.Keys == s.buffers.Keys + {id}
  {
    RefreshPaneScreenIs(s, id, fetch);
  }

  lemma {:induction false} SyncBuffersCovers(buffers: map<Id, Option<Screen>>, panes: seq<Pane>)
    ensures SyncBuffers(buffers, panes).Keys == buffers.Keys + Ids(panes)
    ensures forall id :: id in buffers ==> SyncBuffers(buffers, panes)[id] == buffers[id]
    ensures forall id :: id in Ids(panes) && id !in buffers ==> SyncBuffers(buffers, panes)[id] == None
    decreases panes
  {
    if panes != [] {
      var id := panes[0].id;
      SyncBuffersCovers(buffers[id := if id in buffers then buffers[id] else None], panes[1..]);
      assert panes == [panes[0]] + panes[1..];
      assert Ids(panes) == {id} + Ids(panes[1..]);
    }
  }

  /** What a refresh of the pane list leaves behind. */
  ghost predicate Synced(before: Socket, s: Socket, panes: seq<Pane>) {
    && s.panes == panes && s.connected == before.connected
    && s.buffers.Keys == Ids(panes)
    && (s.selected.None? <==> panes == [])
    && (s.selected.Some? ==> s.selected.value in Ids(panes))
    && (before.selected.Some? && before.selected.value in Ids(panes) ==> s.selected == before.selected)
    && (panes != [] && (before.selected.None? || before.selected.value !in Ids(panes)) ==>
          s.selected == Some(panes[0].id))
  }

  lemma SyncPanesSyncs(s: Socket, panes: seq<Pane>, fetch: Fetch)
    requires Inv(s)
    ensures Inv(SyncPanes(s, panes, fetch)) && Synced(s, SyncPanes(s, panes, fetch), panes)
  {
    SyncBuffersCovers(s.buffers, panes);
    var s1 := s.(panes := panes, buffers := Take(SyncBuffers(s.buffers, panes), Ids(panes)));
    assert s1.buffers.Keys == Ids(panes);
    if panes == [] {
      assert Ids(panes) == {};
      SelectPaneEstablishes(s1, None, fetch);
    } else if s.selected.None? || s.selected.value !in Ids(panes) {
      assert panes[0] in panes;
      SelectPaneEstablishes(s1, Some(panes[0].id), fetch);
    } else {
      LoadedIsShown(s1, s.selected.value, fetch);
    }
  }

  lemma LoadedIsShown(s: Socket, id: Id, fetch: Fetch)
    requires TopicsInv(s) && s.selected == Some(id) && id in s.buffers
    ensures var s1 := EnsurePaneBufferLoaded(s, id, fetch);
      var t := s1.(screen := BufferOf(s1, id));
      Inv(t) && t.buffers.Keys == s.buffers.Keys && t.selected == s.selected
  {
  }

  lemma RefreshSyncs(s: Socket, all: seq<Pane>, fetch: Fetch, again: Fetch)
    requires Inv(s)
    ensures var t := RefreshTerminalState(s, all, fetch, again);
      Inv(t) && Synced(s, t, OfGroup(all, s.selectedGroup))
  {
    SyncPanesSyncs(s, OfGroup(all, s.selectedGroup), fetch);
    ScreenKeepsSynced(s, RefreshPanes(s, all, fetch), OfGroup(all, s.selectedGroup), again);
  }

  /** Reading the selected screen again leaves everything else in place. */
  lemma ScreenKeepsSynced(before: Socket, s: Socket, panes: seq<Pane>, again: Fetch)
    requires Inv(s) && Synced(before, s, panes)
    ensures var t := RefreshSelectedScreen(s, again);
      Inv(t) && Synced(before, t, panes)
  {
    if s.selected.Some? && PaneExists(s, s.selected.value) {
      RefreshPaneScreenKeeps(s, s.selected.value, again);
      RefreshPaneScreenIs(s, s.selected.value, again);
      assert s.buffers.Keys + {s.selected.value} == s.buffers.Keys;
    }
  }

  lemma HandleKeepsInv(s: Socket, e: Event)
    requires Inv(s)
    ensures Inv(Handle(s, e)) && Handle(s, e).connected == s.connected
  {
    match e
    case Refresh(all, fetch, again) => RefreshSyncs(s, all, fetch, again);
    case ScreenUpdate(_, _) =>
    case SelectGroup(group, all, fetch) => SyncPanesSyncs(s.(selectedGroup := group), OfGroup(all, group), fetch);
    case Select(id, fetch) => SelectPaneEstablishes(s, Some(id), fetch);
    case NewPane(created, all, fetch, again, last) => NewPaneKeepsInv(s, created, all, fetch, again, last);
  }

  lemma NewPaneKeepsInv(s: Socket, created: Option<Id>, all: seq<Pane>, fetch: Fetch, again: Fetch, last: Fetch)
    requires Inv(s)
    ensures var t := Handle(s, NewPane(created, all, fetch, again, last));
      Inv(t) && t.connected == s.connected
  {
    RefreshSyncs(s, all, fetch, again);
    SelectPaneEstablishes(RefreshTerminalState(s, all, fetch, again), created, last);
  }

  /** Across all events the subscription is exactly the selected pane's topic (none while the
      view is not connected), and the shown screen is the selected pane's buffer. */
  lemma {:induction false} SubscriptionFollowsSelection(connected: bool, events: seq<Event>)
    ensures Run(connected, events).connected == connected
    ensures Inv(Run(connected, events))
  {
    if events != [] {
      SubscriptionFollowsSelection(connected, events[..|events| - 1]);
      HandleKeepsInv(Run(connected, events[..|events| - 1]), events[|events| - 1]);
    }
  }

  /** After every refresh: the selection is none iff there are no panes, is the old one if that
      is still listed and the first listed pane otherwise; the buffers are those of the listed
      panes. This holds whatever stale screen updates or selections came before. */
  lemma RefreshedSelection(connected: bool, events: seq<Event>, all: seq<Pane>, fetch: Fetch, again: Fetch)
    ensures var s := Run(connected, events);
      Synced(s, Run(connected, events + [Refresh(all, fetch, again)]), OfGroup(all, s.selectedGroup))
  {
    SubscriptionFollowsSelection(connected, events);
    assert (events + [Refresh(all, fetch, again)])[..|events|] == events;
    RefreshSyncs(Run(connected, events), all, fetch, again);
  }

  /** The same for a change of group, against the panes of the new group. */
  lemma RegroupedSelection(connected: bool, events: seq<Event>, group: Option<Group>, all: seq<Pane>, fetch: Fetch)
    ensures var s := Run(connected, events);
      Synced(s, Run(connected, events + [SelectGroup(group, all, fetch)]), OfGroup(all, group))
  {
    SubscriptionFollowsSelection(connected, events);
    assert (events + [SelectGroup(group, all, fetch)])[..|events|] == events;
    var s := Run(connected, events).(selectedGroup := group);
    SyncPanesSyncs(s, OfGroup(all, group), fetch);
  }

  // ---- When the selection is listed ---------------------------------------------------------

  predicate SelectionListed(s: Socket) { s.selected.Some? ==> PaneExists(s, s.selected.value) }

  /** Exactly when an event leaves the selection listed, or none: always after a refresh or a
      change of group; after a click if the clicked pane is listed; and after `new_pane` if no
      pane came of it or the group filter shows the new pane. */
  lemma SelectionListedIff(s: Socket, e: Event)
    requires Inv(s)
    ensures SelectionListed(Handle(s, e)) <==>
      match e
      case Refresh(_, _, _) => true
      case SelectGroup(_, _, _) => true
      case ScreenUpdate(_, _) => SelectionListed(s)
      case Select(id, _) => id in Ids(s.panes)
      case NewPane(created, all, _, _, _) => created.None? || created.value in Ids(OfGroup(all, s.selectedGroup))
  {
    match e
    case Refresh(all, fetch, again) => RefreshSyncs(s, all, fetch, again);
    case ScreenUpdate(_, _) =>
    case SelectGroup(group, all, fetch) => SyncPanesSyncs(s.(selectedGroup := group), OfGroup(all, group), fetch);
    case Select(id, fetch) => SelectPaneEstablishes(s, Some(id), fetch);
    case NewPane(created, all, fetch, again, last) =>
      RefreshSyncs(s, all, fetch, again);
      SelectPaneEstablishes(RefreshTerminalState(s, all, fetch, again), created, last);
  }

  /** Exactly when an event leaves the selection none if and only if there are no panes: always
      after a refresh or a change of group; after a click unless there are none; and after
      `new_pane` unless it fails while the filter shows panes, or succeeds while it shows none. */
  lemma SelectionNoneIff(s: Socket, e: Event)
    requires Inv(s)
    ensures (Handle(s, e).selected.None? <==> Handle(s, e).panes == []) <==>
      match e
      case Refresh(_, _, _) => true
      case SelectGroup(_, _, _) => true
      case ScreenUpdate(_, _) => s.selected.None? <==> s.panes == []
      case Select(_, _) => s.panes != []
      case NewPane(created, all, _, _, _) => created.None? <==> OfGroup(all, s.selectedGroup) == []
  {
    match e
    case Refresh(all, fetch, again) => RefreshSyncs(s, all, fetch, again);
    case ScreenUpdate(_, _) =>
    case SelectGroup(group, all, fetch) => SyncPanesSyncs(s.(selectedGroup := group), OfGroup(all, group), fetch);
    case Select(id, fetch) => SelectPaneEstablishes(s, Some(id), fetch);
    case NewPane(created, all, fetch, again, last) =>
      RefreshSyncs(s, all, fetch, again);
      SelectPaneEstablishes(RefreshTerminalState(s, all, fetch, again), created, last);
  }

  /** A create that fails answers without an id: it clears the selection, and what is shown,
      although panes are listed. */
  lemma FailedCreateClearsSelection(connected: bool, p: Pane, fetch: Fetch)
    requires p.group.None?
    ensures exists events: seq<Event> ::
      var s := Run(connected, events);
      s.panes == [p] && s.selected.None? && s.screen.None?
  {
    var e := NewPane(None, [p], fetch, fetch, fetch);
    assert [e][..0] == [];
    var s := Mount(connected);
    assert OfGroup([p], None) == [p];
    RefreshSyncs(s, [p], fetch, fetch);
    SelectPaneEstablishes(RefreshTerminalState(s, [p], fetch, fetch), None, fetch);
    assert Run(connected, [e]) == Handle(s, e);
  }

  lemma {:induction false} OfGroupHas(all: seq<Pane>, group: Option<Group>, p: Pane)
    requires group.Some?
    ensures p in OfGroup(all, group) ==> p in all && p.group == group
  {
    if all != [] { OfGroupHas(all[1..], group, p); }
  }

  /** `new_pane` asks for no group. With a group selected, the new pane is therefore selected and
      hidden, after any run and whatever else is listed. */
  lemma NewPaneIsHidden(connected: bool, events: seq<Event>, id: Id, all: seq<Pane>,
                        fetch: Fetch, again: Fetch, last: Fetch)
    requires Run(connected, events).selectedGroup.Some?
    requires forall p :: p in all && p.id == id ==> p.group.None?
    ensures var s := Run(connected, events + [NewPane(Some(id), all, fetch, again, last)]);
      s.selected == Some(id) && !SelectionListed(s)
  {
    SubscriptionFollowsSelection(connected, events);
    var e := NewPane(Some(id), all, fetch, again, last);
    assert (events + [e])[..|events|] == events;
    var s := Run(connected, events);
    SelectionListedIff(s, e);
    RefreshSyncs(s, all, fetch, again);
    SelectPaneEstablishes(RefreshTerminalState(s, all, fetch, again), Some(id), last);
    forall p | p in OfGroup(all, s.selectedGroup) ensures p.id != id {
      OfGroupHas(all, s.selectedGroup, p);
    }
  }

  /** A run to which that applies. */
  lemma NewPaneCanBeHidden(connected: bool, group: Group, id: Id, fetch: Fetch)
    ensures exists events: seq<Event> :: !SelectionListed(Run(connected, events))
  {
    var choose, create := SelectGroup(Some(group), [], fetch), NewPane(Some(id), [Pane(id, None)], fetch, fetch, fetch);
    assert [choose][..0] == [];
    SyncPanesSyncs(Mount(connected).(selectedGroup := Some(group)), [], fetch);
    GroupIsKept(Mount(connected).(selectedGroup := Some(group)), [], fetch);
    assert Run(connected, [choose]) == Handle(Mount(connected), choose);
    NewPaneIsHidden(connected, [choose], id, [Pane(id, None)], fetch, fetch, fetch);
  }

  lemma GroupIsKept(s: Socket, panes: seq<Pane>, fetch: Fetch)
    ensures SyncPanes(s, panes, fetch).selectedGroup == s.selectedGroup
  {
  }
}
