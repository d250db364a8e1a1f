/** lifecycle_task and the Msg::PanesUpdated branch of update in gui_client_rs/src/main.rs as
    the imperative code they are, with the server and the user acting in between, proved to be
    a run of GuiFollower. */
module GuiApp {
  import opened Wrappers
  import opened PaneRegistry
  import opened LifecycleStream
  import opened LifecycleHandlers
  import G = GuiFollower

  /** The number of a spawned output stream. */
  type Task = nat

  class App {
    var panes: set<Id>
    var paneStates: map<Id, Task>
    var aborted: set<Task>
    var selected: Option<Id>

    ghost function View(phase: G.GuiPhase, stale: bool): G.Gui reads this {
      G.Gui(phase, panes, paneStates.Keys, selected, stale)
    }

    constructor ()
      ensures panes == {} && paneStates == map[] && aborted == {} && selected == None
    {
      panes, paneStates, aborted, selected := {}, map[], {}, None;
    }

    /** The streams of these panes are aborted and dropped, all others kept. */
    method DropStreams(removed: set<Id>)
      requires removed <= paneStates.Keys
      modifies this`paneStates, this`aborted
      ensures paneStates == old(paneStates) - removed
      ensures aborted == old(aborted) + set id | id in removed :: old(paneStates)[id]
    {
      var todo := removed;
      ghost var gone: set<Id> := {};
      while todo != {}
        invariant todo !! gone && todo + gone == removed
        invariant paneStates == old(paneStates) - gone
        invariant aborted == old(aborted) + set id | id in gone :: old(paneStates)[id]
        decreases |todo|
      {
        var id :| id in todo;
        AbortStream(id, gone, old(paneStates), old(aborted));
        todo, gone := todo - {id}, gone + {id};
      }
    }

    method AbortStream(id: Id, ghost gone: set<Id>, ghost states: map<Id, Task>, ghost before: set<Task>)
      requires id in paneStates && id !in gone && paneStates == states - gone
      requires aborted == before + set k | k in gone && k in states :: states[k]
      modifies this`paneStates, this`aborted
      ensures paneStates == states - (gone + {id})
      ensures aborted == before + set k | k in gone + {id} && k in states :: states[k]
    {
      aborted := aborted + {paneStates[id]};
      paneStates := paneStates - {id};
    }

    /** The Msg::PanesUpdated branch: streams of panes no longer listed end, and a selection no
        longer listed is cleared. */
    method PanesUpdated(ids: set<Id>)
      modifies this
      ensures forall phase, stale :: View(phase, false) == G.PanesUpdated(old(View(phase, stale)), ids)
      ensures panes == ids && paneStates == old(paneStates) - (old(paneStates).Keys - ids)
      ensures selected == if old(selected).Some? && old(selected).value in ids then old(selected) else None
      ensures aborted == old(aborted) + set id | id in old(paneStates).Keys - ids :: old(paneStates)[id]
    {
      DropStreams(paneStates.Keys - ids);
      if selected.Some? && selected.value !in ids {
        selected := None;
      }
      panes := ids;
      assert paneStates.Keys == old(paneStates).Keys * ids;
    }

    /** select_pane, called for a listed pane: its stream is started unless it is running, and
        the pane is selected. */
    method Select(id: Id, task: Task)
      modifies this`paneStates, this`selected
      ensures forall phase, stale :: View(phase, stale) == G.Chosen(old(View(phase, stale)), id)
      ensures id in panes ==> selected == Some(id)
      ensures id in panes ==>
        paneStates == if id in old(paneStates) then old(paneStates) else old(paneStates)[id := task]
      ensures id !in panes ==> selected == old(selected) && paneStates == old(paneStates)
    {
      if id in panes {
        if id !in paneStates {
          paneStates := paneStates[id := task];
        }
        selected := Some(id);
      }
    }
  }

  /** What the user or the rest of the server does between two statements of lifecycle_task. */
  datatype Other = Act(act: Act) | ServeStream | UserSelects(id: Id, task: Task)

  /** Everything that was done besides lifecycle_task itself: the other tasks of the server, the
      clicks, and the steps of the stream's server end. */
  datatype Doings = Doings(tasks: OtherTasks, clicks: seq<Id>, served: nat)

  /** The stream is served once it is open. */
  function Do(d: Doings, open: bool, other: Other): Doings {
    match other
    case Act(act) => d.(tasks := TaskStep(d.tasks, act))
    case ServeStream => if open then d.(served := d.served + 1) else d
    case UserSelects(id, _) => d.(clicks := d.clicks + [id])
  }

  function DoAll(d: Doings, open: bool, others: seq<Other>): Doings {
    if others == [] then d else Do(DoAll(d, open, others[..|others| - 1]), open, others[|others| - 1])
  }

  lemma DoAllNext(d: Doings, open: bool, others: seq<Other>, other: Other)
    ensures DoAll(d, open, others + [other]) == Do(DoAll(d, open, others), open, other)
  {
    assert (others + [other])[..|others|] == others;
  }

  lemma {:induction false} DoAllSplit(d: Doings, open: bool, others: seq<Other>, more: seq<Other>)
    ensures DoAll(d, open, others + more) == DoAll(DoAll(d, open, others), open, more)
    decreases |more|
  {
    if more == [] {
      assert others + more == others;
    } else {
      var n := |more| - 1;
      DoAllSplit(d, open, others, more[..n]);
      LastApart(others, more);
      DoAllNext(d, open, others + more[..n], more[n]);
    }
  }

  function ActsIn(others: seq<Other>): seq<Act> {
    if others == [] then []
    else
      var last := others[|others| - 1];
      ActsIn(others[..|others| - 1]) + if last.Act? then [last.act] else []
  }

  function ClicksIn(others: seq<Other>): seq<Id> {
    if others == [] then []
    else
      var last := others[|others| - 1];
      ClicksIn(others[..|others| - 1]) + if last.UserSelects? then [last.id] else []
  }

  function ServesIn(others: seq<Other>): nat {
    if others == [] then 0
    else ServesIn(others[..|others| - 1]) + if others[|others| - 1].ServeStream? then 1 else 0
  }

  lemma DoneNext(d: Doings, done: Doings, open: bool, acts: seq<Act>, clicks: seq<Id>, other: Other)
    requires done.tasks == TaskRun(d.tasks, acts) && done.clicks == d.clicks + clicks
    ensures Do(done, open, other).tasks == TaskRun(d.tasks, acts + if other.Act? then [other.act] else [])
    ensures Do(done, open, other).clicks == d.clicks + (clicks + if other.UserSelects? then [other.id] else [])
  {
    if other.Act? { TaskRunNext(d.tasks, acts, other.act); } else { assert acts + [] == acts; }
  }

  /** Nothing is left out: all statements of the server's tasks, all clicks, and, once the stream
      is open, all steps of its server end are done, each kind in its order. */
  lemma {:induction false} AllIsDone(d: Doings, open: bool, others: seq<Other>)
    ensures var done := DoAll(d, open, others);
      && done.tasks == TaskRun(d.tasks, ActsIn(others)) && done.clicks == d.clicks + ClicksIn(others)
      && done.served == d.served + if open then ServesIn(others) else 0
  {
    if others != [] {
      var init := others[..|others| - 1];
      AllIsDone(d, open, init);
      DoneNext(d, DoAll(d, open, init), open, ActsIn(init), ClicksIn(init), others[|others| - 1]);
    }
  }

  lemma BurstNext(d: Doings, open: bool, bursts: seq<seq<Other>>, k: nat)
    requires k < |bursts|
    ensures DoAll(DoAll(d, open, Flat(bursts[..k])), open, bursts[k]) == DoAll(d, open, Flat(bursts[..k + 1]))
  {
    assert bursts[..k + 1][..k] == bursts[..k];
    DoAllSplit(d, open, Flat(bursts[..k]), bursts[k]);
  }

  lemma BurstEmpty(bursts: seq<seq<Other>>, k: nat)
    requires k < |bursts|
    ensures Flat(bursts[..k + 1]) == [] ==> Flat(bursts[..k]) == [] && bursts[k] == []
  {
    assert bursts[..k + 1][..k] == bursts[..k];
  }

  function Clicks(trace: seq<G.Label>): seq<Id> {
    if trace == [] then []
    else
      var last := trace[|trace| - 1];
      Clicks(trace[..|trace| - 1]) + if last.Select? then [last.id] else []
  }

  function Serves(trace: seq<G.Label>): nat {
    if trace == [] then 0
    else
      var last := trace[|trace| - 1];
      Serves(trace[..|trace| - 1]) + if last.Serve? then 1 else 0
  }

  lemma TraceNext(trace: seq<G.Label>, act: G.Label)
    ensures Clicks(trace + [act]) == Clicks(trace) + if act.Select? then [act.id] else []
    ensures Serves(trace + [act]) == Serves(trace) + if act.Serve? then 1 else 0
  {
    assert (trace + [act])[..|trace|] == trace;
  }

  /** A step of the stream's server end sends at most one frame. */
  lemma {:induction false} QueueIsServed(cfg: Config, trace: seq<G.Label>)
    ensures |G.Run(cfg, trace).conn.queue| <= Serves(trace)
  {
    if trace != [] {
      QueueIsServed(cfg, trace[..|trace| - 1]);
    }
  }

  /** A list request as it will go: what happens before each shard is read, and whether the
      request fails in the end. */
  datatype Request = Request(others: seq<seq<Other>>, fails: bool)

  /** The other tasks before the next frame is read, and the refetch it may call for. */
  datatype Turn = Turn(before: seq<Other>, refetch: Request)

  /** What else happens during a turn: the list is only fetched for an event. */
  function OthersOf(turn: Turn, fetched: bool): seq<Other> {
    turn.before + if fetched then Flat(turn.refetch.others) else []
  }

  function OthersOfTurns(turns: seq<Turn>, fetched: seq<bool>): seq<Other>
    requires |turns| == |fetched|
  {
    if turns == [] then []
    else
      var n := |turns| - 1;
      OthersOfTurns(turns[..n], fetched[..n]) + OthersOf(turns[n], fetched[n])
  }

  lemma TurnNext(d: Doings, turns: seq<Turn>, k: nat, fetched: seq<bool>, last: bool)
    requires k < |turns| && |fetched| == k
    ensures DoAll(DoAll(d, true, OthersOfTurns(turns[..k], fetched)), true, OthersOf(turns[k], last))
         == DoAll(d, true, OthersOfTurns(turns[..k + 1], fetched + [last]))
  {
    assert turns[..k + 1][..k] == turns[..k] && (fetched + [last])[..k] == fetched;
    DoAllSplit(d, true, OthersOfTurns(turns[..k], fetched), OthersOf(turns[k], last));
  }

  /** During how many turns, at the end, nothing else happens. */
  function QuietTail(turns: seq<Turn>): (n: nat)
    ensures n <= |turns|
    ensures forall i, fetched :: |turns| - n <= i < |turns| ==> OthersOf(turns[i], fetched) == []
  {
    if turns == [] then 0
    else
      var last := turns[|turns| - 1];
      if last.before == [] && Flat(last.refetch.others) == [] then 1 + QuietTail(turns[..|turns| - 1]) else 0
  }

  /** How many of the quiet turns at the end have been taken after i turns. */
  function Taken(turns: seq<Turn>, i: nat): nat {
    if i + QuietTail(turns) >= |turns| then i + QuietTail(turns) - |turns| else 0
  }

  predicate Covers(cfg: Config, request: Request) { |request.others| == cfg.shards }

  /** The registry as far as a listing or the stream can see it. */
  function Seen(panes: set<Id>, channel: seq<LifecycleEvent>): Registry {
    InitRegistry().(panes := panes, channel := channel)
  }

  lemma StreamSeesPanesAndChannel(cfg: Config, reg: Registry, conn: Conn)
    ensures AdvanceConn(cfg, reg, conn) == AdvanceConn(cfg, Seen(reg.panes, reg.channel), conn)
  {
  }

  /** The list has the panes of each shard that were in the registry when that shard was read. */
  ghost predicate ReadFrom(cfg: Config, read: seq<set<Id>>, list: set<Id>) {
    forall id :: id in list <==> cfg.shardOf(id) < |read| && id in read[cfg.shardOf(id)]
  }

  lemma ReadFromNext(cfg: Config, read: seq<set<Id>>, scan: Scan, panes: set<Id>)
    requires |read| == scan.shard && ReadFrom(cfg, read, scan.seen)
    ensures ReadFrom(cfg, read + [panes], ReadShard(cfg, panes, scan).seen)
  {
  }

  class LifecycleTask {
    const cfg: Config
    const rt: Runtime
    const state: AppState
    const app: App
    /** The server's end of the stream, and the frames on their way. */
    var conn: Conn
    var streamOpen: bool
    ghost var stale: bool
    ghost var missed: G.Missed
    ghost var trace: seq<G.Label>

    ghost predicate At(phase: G.GuiPhase) reads this, rt, state, app {
      && rt.state == state && rt.Valid() && (streamOpen <==> !(phase.Fetching? && phase.initial))
      && |missed.frames| == |conn.queue|
      && G.Run(cfg, trace) == G.System(state.View(), conn, app.View(phase, stale), missed)
    }

    ghost function Done(): Doings reads this`trace, rt, rt.state { Doings(rt.Tasks(), Clicks(trace), Serves(trace)) }

    constructor (cfg: Config, rt: Runtime, app: App)
      requires rt.Valid()
      requires app.panes == {} && app.paneStates == map[] && app.selected == None
      ensures this.cfg == cfg && this.rt == rt && this.state == rt.state && this.app == app
      ensures At(G.Fetching(Scan(0, {}), true)) && conn == NEW_CONN
    {
      this.cfg, this.rt, this.state, this.app := cfg, rt, rt.state, app;
      conn, streamOpen, stale, missed := NEW_CONN, false, false, G.INIT.missed;
      trace := seq(|rt.state.acts|, i requires 0 <= i < |rt.state.acts| reads rt.state => G.Server(rt.state.acts[i]));
      new;
      G.ServerOnly(cfg, state.acts, trace);
    }

    /** What the run records as missed once it has taken this step. */
    ghost function MissedAfter(before: G.System, label_: G.Label): G.Missed reads this {
      G.Step(cfg, before, label_).missed
    }

    /** A statement of another task of the server. */
    method ServerActs(act: Act, ghost phase: G.GuiPhase)
      requires At(phase)
      modifies rt, state, this`trace
      ensures At(phase)
      ensures Done() == Do(old(Done()), streamOpen, Act(act))
    {
      G.RunSnoc(cfg, trace, G.Server(act));
      TraceNext(trace, G.Server(act));
      var done := rt.Perform(act);
      if done { trace := trace + [G.Server(act)]; }
    }

    /** A step of the server's end of the stream. */
    method StreamMoves(ghost phase: G.GuiPhase)
      requires At(phase)
      modifies this`conn, this`missed, this`trace
      ensures At(phase) && old(conn.queue) <= conn.queue
      ensures Done() == Do(old(Done()), streamOpen, ServeStream)
    {
      if streamOpen {
        ghost var before := G.Run(cfg, trace);
        G.RunSnoc(cfg, trace, G.Serve);
        TraceNext(trace, G.Serve);
        StreamSeesPanesAndChannel(cfg, state.View(), conn);
        conn := AdvanceConn(cfg, Seen(state.panes, state.channel), conn);
        missed := MissedAfter(before, G.Serve);
        trace := trace + [G.Serve];
      }
    }

    /** A click. */
    method UserActs(id: Id, task: Task, ghost phase: G.GuiPhase)
      requires At(phase)
      modifies app`paneStates, app`selected, this`trace
      ensures At(phase)
      ensures Done() == Do(old(Done()), streamOpen, UserSelects(id, task))
    {
      G.RunSnoc(cfg, trace, G.Select(id));
      TraceNext(trace, G.Select(id));
      app.Select(id, task);
      trace := trace + [G.Select(id)];
    }

    method OneOther(other: Other, ghost phase: G.GuiPhase)
      requires At(phase)
      modifies rt, state, app`paneStates, app`selected, this`conn, this`missed, this`trace
      ensures At(phase) && old(conn.queue) <= conn.queue && Done() == Do(old(Done()), streamOpen, other)
    {
      match other {
        case Act(act) => ServerActs(act, phase);
        case ServeStream => StreamMoves(phase);
        case UserSelects(id, task) => UserActs(id, task, phase);
      }
    }

    method Interleave(others: seq<Other>, ghost phase: G.GuiPhase)
      requires At(phase)
      modifies rt, state, app`paneStates, app`selected, this`conn, this`missed, this`trace
      ensures At(phase) && app.panes == old(app.panes) && old(conn.queue) <= conn.queue
      ensures Done() == DoAll(old(Done()), streamOpen, others) && (others == [] ==> conn == old(conn))
    {
      ghost var before := Done();
      var i := 0;
      while i < |others|
        invariant i <= |others| && At(phase) && old(conn.queue) <= conn.queue && (i == 0 ==> conn == old(conn))
        invariant Done() == DoAll(before, streamOpen, others[..i])
      {
        OtherNext(others, i, phase, before);
        i := i + 1;
      }
      assert others[..i] == others;
    }

    method OtherNext(others: seq<Other>, i: nat, ghost phase: G.GuiPhase, ghost before: Doings)
      requires At(phase) && i < |others| && Done() == DoAll(before, streamOpen, others[..i])
      modifies rt, state, app`paneStates, app`selected, this`conn, this`missed, this`trace
      ensures At(phase) && old(conn.queue) <= conn.queue
      ensures Done() == DoAll(before, streamOpen, others[..i + 1])
    {
      DoAllNext(before, streamOpen, others[..i], others[i]);
      assert others[..i + 1] == others[..i] + [others[i]];
      OneOther(others[i], phase);
    }

    /** One shard of a list request is read. */
    method ReadNext(scan: Scan, ghost initial: bool) returns (next: Scan)
      requires At(G.Fetching(scan, initial)) && scan.shard < cfg.shards
      modifies this`missed, this`trace
      ensures At(G.Fetching(next, initial)) && next == ReadShard(cfg, state.panes, scan)
      ensures Done() == old(Done())
    {
      ghost var before := G.Run(cfg, trace);
      G.RunSnoc(cfg, trace, G.Follow);
      TraceNext(trace, G.Follow);
      next := ReadShard(cfg, state.panes, scan);
      missed := MissedAfter(before, G.Follow);
      trace := trace + [G.Follow];
    }

    /** One shard, after whatever else happened before it was read; `begun` is what had been done
        when the request began. */
    method ReadOne(bursts: seq<seq<Other>>, scan: Scan, ghost read: seq<set<Id>>, ghost initial: bool,
                   ghost begun: Doings, ghost first: Conn) returns (next: Scan)
      requires |read| == scan.shard && ReadFrom(cfg, read, scan.seen)
      requires At(G.Fetching(scan, initial)) && scan.shard < cfg.shards == |bursts|
      requires Done() == DoAll(begun, !initial, Flat(bursts[..scan.shard]))
      requires Flat(bursts[..scan.shard]) == [] ==> conn == first
      modifies rt, state, app`paneStates, app`selected, this`conn, this`missed, this`trace
      ensures At(G.Fetching(next, initial)) && next.shard == scan.shard + 1
      ensures app.panes == old(app.panes) && ReadFrom(cfg, read + [state.panes], next.seen)
      ensures Done() == DoAll(begun, !initial, Flat(bursts[..next.shard]))
      ensures Flat(bursts[..next.shard]) == [] ==> conn == first
    {
      BurstNext(begun, !initial, bursts, scan.shard);
      BurstEmpty(bursts, scan.shard);
      Interleave(bursts[scan.shard], G.Fetching(scan, initial));
      ReadFromNext(cfg, read, scan, state.panes);
      next := ReadNext(scan, initial);
    }

    /** list_panes. `read` is the registry as it was when each shard was read. */
    method ReadAll(bursts: seq<seq<Other>>, ghost initial: bool) returns (scan: Scan, ghost read: seq<set<Id>>)
      requires At(G.Fetching(Scan(0, {}), initial)) && |bursts| == cfg.shards
      modifies rt, state, app`paneStates, app`selected, this`conn, this`missed, this`trace
      ensures At(G.Fetching(scan, initial)) && scan.shard == cfg.shards && app.panes == old(app.panes)
      ensures |read| == cfg.shards && ReadFrom(cfg, read, scan.seen)
      ensures read != [] ==> read[|read| - 1] == state.panes
      ensures Done() == DoAll(old(Done()), !initial, Flat(bursts)) && (Flat(bursts) == [] ==> conn == old(conn))
    {
      ghost var begun, first := Done(), conn;
      scan, read := Scan(0, {}), [];
      while scan.shard < cfg.shards
        invariant scan.shard <= cfg.shards && At(G.Fetching(scan, initial)) && app.panes == old(app.panes)
        invariant |read| == scan.shard && ReadFrom(cfg, read, scan.seen)
        invariant read != [] ==> read[|read| - 1] == state.panes
        invariant Done() == DoAll(begun, !initial, Flat(bursts[..scan.shard]))
        invariant Flat(bursts[..scan.shard]) == [] ==> conn == first
      {
        scan := ReadOne(bursts, scan, read, initial, begun, first);
        read := read + [state.panes];
      }
      assert bursts[..scan.shard] == bursts;
    }

    /** A list request, and PanesUpdated with its result if it succeeds. */
    method Fetch(request: Request, ghost initial: bool) returns (ghost read: seq<set<Id>>)
      requires At(G.Fetching(Scan(0, {}), initial)) && Covers(cfg, request)
      modifies rt, state, app, this
      ensures At(G.Idle) && (stale <==> request.fails)
      ensures |read| == cfg.shards && (read != [] ==> read[|read| - 1] == state.panes)
      ensures if request.fails then app.panes == old(app.panes) else ReadFrom(cfg, read, app.panes)
      ensures Done() == DoAll(old(Done()), !initial, Flat(request.others))
      ensures Flat(request.others) == [] ==> conn == old(conn)
    {
      var scan;
      scan, read := ReadAll(request.others, initial);
      if request.fails { GiveUp(scan, initial); } else { TakeOver(scan, initial); }
    }

    method GiveUp(ghost scan: Scan, ghost initial: bool)
      requires At(G.Fetching(scan, initial))
      modifies this
      ensures At(G.Idle) && stale
      ensures Done() == old(Done()) && conn == old(conn)
    {
      G.RunSnoc(cfg, trace, G.FetchFails);
      TraceNext(trace, G.FetchFails);
      streamOpen, stale, trace := true, true, trace + [G.FetchFails];
    }

    /** The list that was read replaces the one on display. */
    method TakeOver(scan: Scan, ghost initial: bool)
      requires At(G.Fetching(scan, initial)) && scan.shard >= cfg.shards
      modifies app, this
      ensures At(G.Idle) && !stale && app.panes == scan.seen
      ensures Done() == old(Done()) && conn == old(conn)
    {
      ghost var before := G.Run(cfg, trace);
      G.RunSnoc(cfg, trace, G.Follow);
      TraceNext(trace, G.Follow);
      ghost var was := app.View(G.Fetching(scan, initial), stale);
      app.PanesUpdated(scan.seen);
      assert app.View(G.Fetching(scan, initial), false) == G.PanesUpdated(was, scan.seen);
      missed := MissedAfter(before, G.Follow);
      streamOpen, stale, trace := true, false, trace + [G.Follow];
    }

    /** A snapshot replaces the list on display. */
    method TakeSnapshot()
      requires At(G.Idle) && conn.queue != [] && conn.queue[0].Snapshot?
      modifies app, this
      ensures At(G.Idle) && !stale && app.panes == old(conn).queue[0].ids
      ensures conn == old(conn).(queue := old(conn).queue[1..])
      ensures Done() == old(Done())
    {
      ghost var before := G.Run(cfg, trace);
      G.RunSnoc(cfg, trace, G.Follow);
      TraceNext(trace, G.Follow);
      var ids := conn.queue[0].ids;
      ghost var was := app.View(G.Idle, stale);
      app.PanesUpdated(ids);
      assert app.View(G.Idle, false) == G.PanesUpdated(was, ids);
      missed := MissedAfter(before, G.Follow);
      conn, stale, trace := conn.(queue := conn.queue[1..]), false, trace + [G.Follow];
    }

    /** Any other event only has the list fetched. */
    method TakeEvent()
      requires At(G.Idle) && conn.queue != [] && conn.queue[0].Event?
      modifies this
      ensures At(G.Fetching(Scan(0, {}), false)) && conn == old(conn).(queue := old(conn).queue[1..])
      ensures Done() == old(Done())
    {
      ghost var before := G.Run(cfg, trace);
      G.RunSnoc(cfg, trace, G.Follow);
      TraceNext(trace, G.Follow);
      missed := MissedAfter(before, G.Follow);
      conn, trace := conn.(queue := conn.queue[1..]), trace + [G.Follow];
    }

    /** The next frame, if one has arrived: a snapshot is taken over, any other event fetches the
        list again. `waiting` are the frames that have arrived by then. */
    method TakeTurn(turn: Turn) returns (frame: Option<Frame>, ghost waiting: seq<Frame>, ghost read: seq<set<Id>>)
      requires At(G.Idle) && Covers(cfg, turn.refetch)
      modifies rt, state, app, this
      ensures At(G.Idle)
      ensures old(conn.queue) <= waiting && frame == if waiting == [] then None else Some(waiting[0])
      ensures frame.None? ==> conn.queue == [] && app.panes == old(app.panes)
      ensures frame.Some? && frame.value.Snapshot? ==> app.panes == frame.value.ids && !stale
      ensures frame.Some? && frame.value.Snapshot? ==> conn.queue == waiting[1..]
      ensures frame.Some? && frame.value.Event? ==> (stale <==> turn.refetch.fails) && |read| == cfg.shards
      ensures frame.Some? && frame.value.Event? ==>
        if turn.refetch.fails then app.panes == old(app.panes) else ReadFrom(cfg, read, app.panes)
      ensures Done() == DoAll(old(Done()), true, OthersOf(turn, frame.Some? && frame.value.Event?))
      ensures OthersOf(turn, true) == [] ==> waiting == old(conn.queue)
      ensures OthersOf(turn, true) == [] && frame.Some? ==> conn.queue == waiting[1..]
    {
      read := [];
      DoAllSplit(Done(), true, turn.before, Flat(turn.refetch.others));
      assert OthersOf(turn, false) == turn.before;
      Interleave(turn.before, G.Idle);
      waiting := conn.queue;
      if conn.queue == [] {
        return None, waiting, read;
      }
      frame := Some(conn.queue[0]);
      if frame.value.Snapshot? {
        TakeSnapshot();
      } else {
        TakeEvent();
        read := Fetch(turn.refetch, false);
      }
    }

    /** The pane list is the registry's, but for the panes listed there that the listing on
        display missed; and those were put back by a failed delete. */
    ghost predicate ListTells() reads this, state, app {
      && app.panes <= state.panes
      && (forall id :: (id in app.panes <==> id in state.panes) <==> !(id in missed.list && id in state.panes))
      && (forall id :: id in missed.list && id in state.panes ==> id in state.undone)
    }

    /** lifecycle_task from start to end. Whatever the server and the user did in between: once
        no request is under way, the stream is drained and the last list request succeeded, the
        pane list is as ListTells says. */
    method RunTask(first: Request, turns: seq<Turn>) returns (ghost fetched: seq<bool>)
      requires At(G.Fetching(Scan(0, {}), true)) && ValidConfig(cfg)
      requires Covers(cfg, first) && forall turn :: turn in turns ==> Covers(cfg, turn.refetch)
      modifies rt, state, app, this
      ensures At(G.Idle) && app.paneStates.Keys <= app.panes
      ensures app.selected.Some? ==> app.selected.value in app.panes
      ensures AllHandlersDone(state.View()) && Drained(conn, state.channel) && !stale ==> ListTells()
      ensures |fetched| == |turns|
      ensures Done() == DoAll(DoAll(old(Done()), false, Flat(first.others)), true, OthersOfTurns(turns, fetched))
      ensures QuietTail(turns) >= Serves(trace) ==> conn.queue == []
    {
      ghost var _ := Fetch(first, true);
      ghost var begun := Done();
      QueueIsServed(cfg, trace);
      fetched := [];
      var i := 0;
      while i < |turns|
        invariant i <= |turns| && At(G.Idle) && |fetched| == i
        invariant Done() == DoAll(begun, true, OthersOfTurns(turns[..i], fetched))
        invariant conn.queue == [] || |conn.queue| + Taken(turns, i) <= Serves(trace)
      {
        var fetch := TakeNext(turns, i, begun, fetched);
        fetched := fetched + [fetch];
        i := i + 1;
      }
      assert turns[..i] == turns;
      ListSettles();
    }

    /** Turn number i. A frame less is waiting after it, if nothing else happens. */
    method TakeNext(turns: seq<Turn>, i: nat, ghost begun: Doings, ghost fetched: seq<bool>) returns (fetch: bool)
      requires At(G.Idle) && i < |turns| && Covers(cfg, turns[i].refetch) && |fetched| == i
      requires Done() == DoAll(begun, true, OthersOfTurns(turns[..i], fetched))
      requires conn.queue == [] || |conn.queue| + Taken(turns, i) <= Serves(trace)
      modifies rt, state, app, this
      ensures At(G.Idle) && Done() == DoAll(begun, true, OthersOfTurns(turns[..i + 1], fetched + [fetch]))
      ensures conn.queue == [] || |conn.queue| + Taken(turns, i + 1) <= Serves(trace)
    {
      var frame;
      ghost var waiting, read;
      frame, waiting, read := TakeTurn(turns[i]);
      fetch := frame.Some? && frame.value.Event?;
      TurnNext(begun, turns, i, fetched, fetch);
      QueueIsServed(cfg, trace);
    }

    lemma ListSettles()
      requires At(G.Idle) && ValidConfig(cfg)
      ensures app.paneStates.Keys <= app.panes && (app.selected.Some? ==> app.selected.value in app.panes)
      ensures AllHandlersDone(state.View()) && Drained(conn, state.channel) && !stale ==> ListTells()
    {
      G.SelectionIsListed(cfg, trace);
      if AllHandlersDone(state.View()) && Drained(conn, state.channel) && !stale {
        G.GuiConverges(cfg, trace);
        forall id {
          G.GuiConvergesIff(cfg, trace, id);
        }
        G.MissedWasUndone(cfg, trace);
      }
    }
  }

  predicate Drained(conn: Conn, channel: seq<LifecycleEvent>) {
    conn.phase.Listening? && conn.cursor == |channel| && conn.queue == []
  }
}
