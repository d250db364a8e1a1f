/** The desktop client's pane list (gui_client_rs/src/main.rs): it takes over every snapshot
    and refetches the list on every other lifecycle frame. */
module GuiFollower {
  import opened Wrappers
  import opened PaneRegistry
  import opened LifecycleStream

  /** lifecycle_task: fetching the list, or waiting for a frame. */
  datatype GuiPhase = Fetching(scan: Scan, initial: bool) | Idle

  /** `open` are the panes with a running stream (pane_states). `stale` records that the last
      refetch failed. */
  datatype Gui = Gui(phase: GuiPhase, panes: set<Id>, open: set<Id>, selected: Option<Id>, stale: bool)

  const INIT_GUI: Gui := Gui(Fetching(Scan(0, {}), true), {}, {}, None, false)

  /** The Msg::PanesUpdated branch of update. */
  function PanesUpdated(gui: Gui, ids: set<Id>): Gui {
    gui.(panes := ids, open := gui.open * ids, stale := false,
         selected := if gui.selected.Some? && gui.selected.value !in ids then None else gui.selected)
  }

  /** A click on a listed pane (select_pane). */
  function Chosen(gui: Gui, id: Id): Gui {
    if id in gui.panes then gui.(open := gui.open + {id}, selected := Some(id)) else gui
  }

  /** The panes missed, because a delete request held them just then, by the stream's listing,
      by the listings in the frames on their way, by the refetch under way and by the list on
      display. They only record the run. */
  datatype Missed = Missed(stream: set<Id>, frames: seq<set<Id>>, fetch: set<Id>, list: set<Id>)

  datatype System = System(reg: Registry, conn: Conn, gui: Gui, missed: Missed)

  datatype Label = Server(act: Act) | Serve | Follow | FetchFails | Select(id: Id)

  const INIT: System := System(InitRegistry(), NEW_CONN, INIT_GUI, Missed({}, [], {}, {}))

  /** The stream is served one step further. */
  function ServeStep(cfg: Config, sys: System): System {
    var conn := AdvanceConn(cfg, sys.reg, sys.conn);
    var missed := sys.missed.(stream := AdvanceMissed(cfg, sys.reg, sys.conn, sys.missed.stream));
    var sent := |conn.queue| > |sys.conn.queue|;
    sys.(conn := conn, missed := if sent then missed.(frames := missed.frames + [missed.stream]) else missed)
  }

  /** lifecycle_task is at a list request. */
  function FetchStep(cfg: Config, sys: System): System
    requires sys.gui.phase.Fetching?
  {
    var scan, initial := sys.gui.phase.scan, sys.gui.phase.initial;
    if scan.shard < cfg.shards
    then sys.(gui := sys.gui.(phase := Fetching(ReadShard(cfg, sys.reg.panes, scan), initial)),
              missed := sys.missed.(fetch := MissedInShard(cfg, sys.reg, scan, sys.missed.fetch)))
    else sys.(gui := PanesUpdated(sys.gui, scan.seen).(phase := Idle),
              missed := sys.missed.(list := sys.missed.fetch))
  }

  /** lifecycle_task takes the next frame: a snapshot replaces the list, an event has it fetched. */
  function FrameStep(sys: System): System {
    if sys.conn.queue == [] || sys.missed.frames == [] then sys
    else
      var popped := sys.(conn := sys.conn.(queue := sys.conn.queue[1..]),
                         missed := sys.missed.(frames := sys.missed.frames[1..]));
      match sys.conn.queue[0]
      case Snapshot(ids) =>
        popped.(gui := PanesUpdated(sys.gui, ids), missed := popped.missed.(list := sys.missed.frames[0]))
      case Event(_) =>
        popped.(gui := sys.gui.(phase := Fetching(Scan(0, {}), false)), missed := popped.missed.(fetch := {}))
  }

  function Step(cfg: Config, sys: System, act: Label): System {
    match act
    case Server(a) => sys.(reg := RegistryStep(sys.reg, a))
    case Serve =>
      // The stream is opened once the initial list request is over.
      if sys.gui.phase.Fetching? && sys.gui.phase.initial then sys else ServeStep(cfg, sys)
    case Follow => if sys.gui.phase.Fetching? then FetchStep(cfg, sys) else FrameStep(sys)
    case FetchFails =>
      if sys.gui.phase.Fetching? then sys.(gui := sys.gui.(phase := Idle, stale := true)) else sys
    case Select(id) => sys.(gui := Chosen(sys.gui, id))
  }

  function Run(cfg: Config, labels: seq<Label>): System {
    if labels == [] then INIT
    else Step(cfg, Run(cfg, labels[..|labels| - 1]), labels[|labels| - 1])
  }

  lemma RunSnoc(cfg: Config, labels: seq<Label>, act: Label)
    ensures Run(cfg, labels + [act]) == Step(cfg, Run(cfg, labels), act)
  {
    assert (labels + [act])[..|labels|] == labels;
  }

  /** Before the client runs, a run is just what the server does. */
  lemma {:induction false} ServerOnly(cfg: Config, acts: seq<Act>, trace: seq<Label>)
    requires |trace| == |acts| && forall i :: 0 <= i < |acts| ==> trace[i] == Server(acts[i])
    ensures Run(cfg, trace) == INIT.(reg := RegistryRun(acts))
  {
    if acts != [] {
      ServerOnly(cfg, acts[..|acts| - 1], trace[..|acts| - 1]);
    }
  }

  // ---- Invariant ----------------------------------------------------------------------

  /** What the list will say about this pane once every frame sent so far is processed. */
  ghost predicate WillAgree(cfg: Config, sys: System, id: Id)
    requires |sys.missed.frames| == |sys.conn.queue|
  {
    match sys.conn.phase
    case Unsubscribed => true
    case Snapshotting(scan) => ScanAgrees(cfg, sys.reg, scan, sys.missed.stream, id)
    case Listening =>
      if sys.conn.queue != [] then
        match sys.conn.queue[|sys.conn.queue| - 1]
        case Snapshot(ids) => ListAgrees(sys.reg, ids, sys.missed.frames[|sys.conn.queue| - 1], id)
        case Event(_) => true
      else
        match sys.gui.phase
        case Fetching(scan, initial) => !initial && ScanAgrees(cfg, sys.reg, scan, sys.missed.fetch, id)
        case Idle => sys.gui.stale || ListAgrees(sys.reg, sys.gui.panes, sys.missed.list, id)
  }

  ghost predicate EventWaiting(sys: System, id: Id) {
    exists j :: sys.conn.cursor <= j < |sys.reg.channel| && sys.reg.channel[j].id == id
  }

  /** Every pane is about to be announced, or has an announcement waiting, or its final listing
      is right but for what that listing missed. */
  ghost predicate PaneInv(cfg: Config, sys: System, id: Id)
    requires |sys.missed.frames| == |sys.conn.queue|
  {
    Unannounced(sys.reg, id) || EventWaiting(sys, id) || WillAgree(cfg, sys, id)
  }

  ghost predicate GuiInv(sys: System) {
    && sys.conn.cursor <= |sys.reg.channel|
    && |sys.missed.frames| == |sys.conn.queue|
    && (sys.gui.phase.Fetching? && sys.gui.phase.initial ==> sys.conn == NEW_CONN)
    && sys.gui.open <= sys.gui.panes
    && (sys.gui.selected.Some? ==> sys.gui.selected.value in sys.gui.open)
  }

  /** A listing misses a pane only for a delete under way, undone or carried out. */
  ghost predicate MissedInv(sys: System) {
    forall id :: MissedSomewhere(sys.missed, id) ==> Excused(sys.reg, id)
  }

  ghost predicate MissedSomewhere(missed: Missed, id: Id) {
    || id in missed.stream || id in missed.fetch || id in missed.list
    || exists k :: 0 <= k < |missed.frames| && id in missed.frames[k]
  }

  ghost predicate Inv(cfg: Config, sys: System) {
    RegistryInv(sys.reg) && GuiInv(sys) && MissedInv(sys) && forall id :: PaneInv(cfg, sys, id)
  }

  lemma ServerKeepsPaneInv(cfg: Config, sys: System, act: Act, id: Id)
    requires OwnerInv(sys.reg) && GuiInv(sys) && PaneInv(cfg, sys, id)
    ensures PaneInv(cfg, Step(cfg, sys, Server(act)), id)
  {
    var next, adds := Step(cfg, sys, Server(act)), ChannelAdds(sys.reg, act);
    ChannelStep(sys.reg, act);
    if EventWaiting(sys, id) {
      var j :| sys.conn.cursor <= j < |sys.reg.channel| && sys.reg.channel[j].id == id;
      assert next.reg.channel[j].id == id;
    } else if adds == [] {
      SilentStep(sys.reg, act, id);
    } else {
      AnnounceStep(sys.reg, act, id);
      if adds[0].id == id { assert next.reg.channel[|sys.reg.channel|].id == id; }
    }
  }

  lemma ServeKeepsPaneInv(cfg: Config, sys: System, id: Id)
    requires ValidConfig(cfg) && OwnerInv(sys.reg) && GuiInv(sys) && PaneInv(cfg, sys, id)
    ensures GuiInv(Step(cfg, sys, Serve)) && PaneInv(cfg, Step(cfg, sys, Serve), id)
  {
    var next := Step(cfg, sys, Serve);
    if EventWaiting(sys, id) && next.conn.cursor <= sys.conn.cursor {
      var j :| sys.conn.cursor <= j < |sys.reg.channel| && sys.reg.channel[j].id == id;
      assert next.reg.channel[j].id == id;
    }
  }

  lemma FollowKeepsPaneInv(cfg: Config, sys: System, act: Label, id: Id)
    requires ValidConfig(cfg) && OwnerInv(sys.reg) && GuiInv(sys) && PaneInv(cfg, sys, id)
    requires act.Follow? || act.FetchFails? || act.Select?
    ensures GuiInv(Step(cfg, sys, act)) && PaneInv(cfg, Step(cfg, sys, act), id)
  {
    var next := Step(cfg, sys, act);
    assert next.reg == sys.reg && next.conn.cursor == sys.conn.cursor;
    assert EventWaiting(next, id) <==> EventWaiting(sys, id);
  }

  lemma MissedInvStep(cfg: Config, sys: System, act: Label)
    requires OwnerInv(sys.reg) && GuiInv(sys) && MissedInv(sys)
    ensures MissedInv(Step(cfg, sys, act))
  {
    var next := Step(cfg, sys, act);
    forall id | MissedSomewhere(next.missed, id) ensures Excused(next.reg, id) {
      if MissedSomewhere(sys.missed, id) {
        if act.Server? { ExcusedStep(sys.reg, act.act, id); }
      } else {
        NewlyMissed(cfg, sys, act, id);
      }
    }
  }

  /** Only a pane that a delete request holds right now is added to what a listing missed. */
  lemma NewlyMissed(cfg: Config, sys: System, act: Label, id: Id)
    requires MissedSomewhere(Step(cfg, sys, act).missed, id) && !MissedSomewhere(sys.missed, id)
    ensures id in Held(sys.reg) && Step(cfg, sys, act).reg == sys.reg
  {
  }

  lemma StepKeepsInv(cfg: Config, sys: System, act: Label)
    requires ValidConfig(cfg) && Inv(cfg, sys)
    ensures Inv(cfg, Step(cfg, sys, act))
  {
    if act.Server? {
      RegistryStepKeepsInv(sys.reg, act.act);
      ChannelStep(sys.reg, act.act);
    }
    MissedInvStep(cfg, sys, act);
    PaneInvStep(cfg, sys, act);
  }

  lemma PaneInvStep(cfg: Config, sys: System, act: Label)
    requires ValidConfig(cfg) && OwnerInv(sys.reg) && GuiInv(sys) && forall id :: PaneInv(cfg, sys, id)
    ensures GuiInv(Step(cfg, sys, act)) && forall id :: PaneInv(cfg, Step(cfg, sys, act), id)
  {
    if act.Server? { ChannelStep(sys.reg, act.act); }
    forall id ensures GuiInv(Step(cfg, sys, act)) && PaneInv(cfg, Step(cfg, sys, act), id) {
      match act
      case Server(a) => ServerKeepsPaneInv(cfg, sys, a, id);
      case Serve => ServeKeepsPaneInv(cfg, sys, id);
      case _ => FollowKeepsPaneInv(cfg, sys, act, id);
    }
  }

  lemma {:induction false} RunKeepsInv(cfg: Config, labels: seq<Label>)
    requires ValidConfig(cfg)
    ensures Inv(cfg, Run(cfg, labels))
  {
    if labels != [] {
      RunKeepsInv(cfg, labels[..|labels| - 1]);
      StepKeepsInv(cfg, Run(cfg, labels[..|labels| - 1]), labels[|labels| - 1]);
    }
  }

  // ---- Convergence ------------------------------------------------------------------------

  /** All requests are over, and every event and frame has been processed. */
  ghost predicate Quiet(sys: System) {
    && AllHandlersDone(sys.reg)
    && sys.conn.phase.Listening? && sys.conn.cursor == |sys.reg.channel| && sys.conn.queue == []
    && sys.gui.phase.Idle?
  }

  /** Once everything is quiet and the last list fetch succeeded, the pane list is wrong about a
      pane exactly if the pane is listed in the registry, and the listing on display read it
      while a delete request, undone since, had it out of the registry. */
  lemma GuiConvergesIff(cfg: Config, labels: seq<Label>, id: Id)
    requires ValidConfig(cfg)
    requires Quiet(Run(cfg, labels)) && !Run(cfg, labels).gui.stale
    ensures var sys := Run(cfg, labels);
      (id in sys.gui.panes <==> id in sys.reg.panes) <==> !(id in sys.missed.list && id in sys.reg.panes)
  {
    RunKeepsInv(cfg, labels);
    var sys := Run(cfg, labels);
    DoneMeansNotPending(sys.reg, id);
    assert PaneInv(cfg, sys, id);
  }

  /** A pane in the registry that the listing on display missed was put back by a failed delete. */
  lemma MissedWasUndone(cfg: Config, labels: seq<Label>)
    requires ValidConfig(cfg)
    ensures var sys := Run(cfg, labels);
      forall id :: id in sys.missed.list && id in sys.reg.panes ==> id in sys.reg.undone
  {
    RunKeepsInv(cfg, labels);
    var sys := Run(cfg, labels);
    forall id | id in sys.missed.list && id in sys.reg.panes ensures id in sys.reg.undone {
      assert MissedSomewhere(sys.missed, id);
      ExcusedAndListed(sys.reg, id);
    }
  }

  /** In particular the list keeps no dead pane, ever; and it equals the registry's if no pane
      in the registry was put back by a failed delete: through any number of lag snapshots, and
      whatever the order of Created and Deleted for an id. */
  lemma GuiConverges(cfg: Config, labels: seq<Label>)
    requires ValidConfig(cfg)
    requires Quiet(Run(cfg, labels)) && !Run(cfg, labels).gui.stale
    ensures var sys := Run(cfg, labels);
      && sys.gui.panes <= sys.reg.panes
      && (forall id :: id !in sys.reg.undone ==> (id in sys.gui.panes <==> id in sys.reg.panes))
      && (sys.missed.list !! sys.reg.panes <==> sys.gui.panes == sys.reg.panes)
  {
    MissedWasUndone(cfg, labels);
    var sys := Run(cfg, labels);
    forall id
      ensures (id in sys.gui.panes <==> id in sys.reg.panes) <==> !(id in sys.missed.list && id in sys.reg.panes)
    {
      GuiConvergesIff(cfg, labels, id);
    }
  }

  /** In every state the GUI streams only panes it lists, and selects only one it streams. */
  lemma {:induction false} SelectionIsListed(cfg: Config, labels: seq<Label>)
    requires ValidConfig(cfg)
    ensures var gui := Run(cfg, labels).gui;
      gui.open <= gui.panes && (gui.selected.Some? ==> gui.selected.value in gui.open)
  {
    RunKeepsInv(cfg, labels);
  }

  // ---- The selection and the streams ----------------------------------------------------------

  /** The pane was clicked on in step k, listed then, and has been listed ever since. */
  ghost predicate OpenedAt(cfg: Config, labels: seq<Label>, id: Id, k: nat) {
    && k < |labels| && labels[k] == Select(id)
    && forall j :: k <= j <= |labels| ==> id in Run(cfg, labels[..j]).gui.panes
  }

  /** No other listed pane was clicked on since. */
  ghost predicate LastChosen(cfg: Config, labels: seq<Label>, id: Id, k: nat) {
    forall j :: k < j < |labels| && labels[j].Select? && labels[j].id in Run(cfg, labels[..j]).gui.panes ==>
      labels[j].id == id
  }

  ghost predicate SelectedAt(cfg: Config, labels: seq<Label>, id: Id, k: nat) {
    OpenedAt(cfg, labels, id, k) && LastChosen(cfg, labels, id, k)
  }

  /** A click on a listed pane selects it; any other step clears the selection if its pane leaves
      the list, and leaves it alone otherwise. */
  lemma SelectionStep(cfg: Config, sys: System, act: Label)
    requires sys.gui.selected.Some? ==> sys.gui.selected.value in sys.gui.panes
    ensures var gui, next := sys.gui, Step(cfg, sys, act).gui;
      if act.Select? && act.id in gui.panes then next.selected == Some(act.id) && next.panes == gui.panes
      else next.selected == if gui.selected.Some? && gui.selected.value in next.panes then gui.selected else None
  {
  }

  /** A step opens the stream of a listed pane clicked on, and ends those of panes that leave the
      list; no other step opens or ends one. */
  lemma OpenStep(cfg: Config, sys: System, act: Label)
    requires sys.gui.open <= sys.gui.panes
    ensures var gui, next := sys.gui, Step(cfg, sys, act).gui;
      next.open == (gui.open + if act.Select? && act.id in gui.panes then {act.id} else {}) * next.panes
  {
  }

  lemma OpenedNext(cfg: Config, labels: seq<Label>, id: Id, k: nat)
    requires labels != []
    ensures var init, act := labels[..|labels| - 1], labels[|labels| - 1];
      OpenedAt(cfg, labels, id, k)
      <==> (if k == |init| then act == Select(id) && id in Run(cfg, init).gui.panes else OpenedAt(cfg, init, id, k))
           && id in Run(cfg, labels).gui.panes
  {
    var init := labels[..|labels| - 1];
    assert labels[..|labels|] == labels;
    assert forall j :: 0 <= j < |labels| ==> labels[..j] == init[..j];
    if OpenedAt(cfg, init, id, k) && id in Run(cfg, labels).gui.panes {
      forall j | k <= j <= |labels| ensures id in Run(cfg, labels[..j]).gui.panes {
        if j < |labels| { assert id in Run(cfg, init[..j]).gui.panes; }
      }
    }
    if OpenedAt(cfg, labels, id, k) {
      forall j | k <= j <= |init| ensures id in Run(cfg, init[..j]).gui.panes {
        assert id in Run(cfg, labels[..j]).gui.panes;
      }
      assert id in Run(cfg, labels[..|labels|]).gui.panes;
    }
  }

  lemma LastChosenNext(cfg: Config, labels: seq<Label>, id: Id, k: nat)
    requires labels != []
    ensures var init, act := labels[..|labels| - 1], labels[|labels| - 1];
      var other := act.Select? && act.id in Run(cfg, init).gui.panes && act.id != id;
      LastChosen(cfg, labels, id, k) <==> k >= |init| || (LastChosen(cfg, init, id, k) && !other)
  {
    var n := |labels| - 1;
    assert forall j :: 0 <= j <= n ==> labels[..n][..j] == labels[..j];
  }

  /** A click on a listed pane selects it; without one on another, what was selected stays so
      while it is listed. */
  lemma SelectedNext(cfg: Config, labels: seq<Label>, id: Id, k: nat)
    requires labels != []
    ensures var init, act := labels[..|labels| - 1], labels[|labels| - 1];
      var clicked := act.Select? && act.id in Run(cfg, init).gui.panes;
      SelectedAt(cfg, labels, id, k)
      <==> (if k == |init| then clicked && act.id == id
            else SelectedAt(cfg, init, id, k) && !(clicked && act.id != id))
           && id in Run(cfg, labels).gui.panes
  {
    OpenedNext(cfg, labels, id, k);
    LastChosenNext(cfg, labels, id, k);
  }

  /** A pane is selected exactly if it was clicked on while it was listed, has been listed ever
      since, and no other listed pane was clicked on since. */
  lemma {:induction false} SelectedIff(cfg: Config, labels: seq<Label>, id: Id)
    requires ValidConfig(cfg)
    ensures Run(cfg, labels).gui.selected == Some(id)
      <==> exists k: nat :: SelectedAt(cfg, labels, id, k)
  {
    if labels != [] {
      var init, act := labels[..|labels| - 1], labels[|labels| - 1];
      SelectedIff(cfg, init, id);
      SelectionIsListed(cfg, init);
      SelectionStep(cfg, Run(cfg, init), act);
      SelectedNext(cfg, labels, id, |init|);
      if k: nat :| SelectedAt(cfg, labels, id, k) { SelectedNext(cfg, labels, id, k); }
      if k: nat :| SelectedAt(cfg, init, id, k) { SelectedNext(cfg, labels, id, k); }
    }
  }

  /** The stream of a pane runs exactly if the pane was clicked on while it was listed, and has
      been listed ever since. */
  lemma {:induction false} StreamedIff(cfg: Config, labels: seq<Label>, id: Id)
    requires ValidConfig(cfg)
    ensures id in Run(cfg, labels).gui.open <==> exists k: nat :: OpenedAt(cfg, labels, id, k)
  {
    if labels != [] {
      var init, act := labels[..|labels| - 1], labels[|labels| - 1];
      StreamedIff(cfg, init, id);
      SelectionIsListed(cfg, init);
      OpenStep(cfg, Run(cfg, init), act);
      OpenedNext(cfg, labels, id, |init|);
      if k: nat :| OpenedAt(cfg, labels, id, k) { OpenedNext(cfg, labels, id, k); }
      if k: nat :| OpenedAt(cfg, init, id, k) { OpenedNext(cfg, labels, id, k); }
    }
  }
}
