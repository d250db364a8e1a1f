/** handle_ws and send_snapshot of server/src/handlers/lifecycle.rs as the loop they are, with
    every other task of the server running in between, proved to be a run of FoldFollower. */
module LifecycleSocket {
  import opened Wrappers
  import opened PaneRegistry
  import opened LifecycleStream
  import opened LifecycleHandlers
  import F = FoldFollower

  /** Outcomes of recv on the lifecycle receiver; Closed cannot happen while the state lives. */
  datatype RecvError = Lagged(missed: nat)

  /** What the other tasks do during one turn of the select loop: before the receive, and before
      each shard of the listing, should one be needed. */
  datatype Turn = Turn(before: seq<Act>, duringScan: seq<seq<Act>>)

  /** What the other tasks did during a turn: the listing is only made after a lag. */
  function ActsOf(turn: Turn, lagged: bool): seq<Act> { turn.before + if lagged then Flat(turn.duringScan) else [] }

  function ActsOfTurns(turns: seq<Turn>, lagged: seq<bool>): seq<Act>
    requires |turns| == |lagged|
  {
    if turns == [] then []
    else
      var n := |turns| - 1;
      ActsOfTurns(turns[..n], lagged[..n]) + ActsOf(turns[n], lagged[n])
  }

  /** During how many turns, at the end, the other tasks do nothing. */
  function QuietTail(turns: seq<Turn>): (n: nat)
    ensures n <= |turns|
    ensures forall i, lagged :: |turns| - n <= i < |turns| ==> ActsOf(turns[i], lagged) == []
  {
    if turns == [] then 0
    else
      var last := turns[|turns| - 1];
      if last.before == [] && Flat(last.duringScan) == [] then 1 + QuietTail(turns[..|turns| - 1]) else 0
  }

  /** One more frame went out, and it is a snapshot. */
  predicate Resynced(before: seq<Frame>, wire: seq<Frame>) {
    |wire| == |before| + 1 && wire[..|before|] == before && wire[|before|].Snapshot?
  }

  /** One client's connection. `wire` are the frames sent on the socket, `since` and `missed`
      the cursor at the last snapshot and what it missed, and `trace` the run so far. */
  class Connection {
    const cfg: Config
    const rt: Runtime
    const state: AppState
    var cursor: nat
    var wire: seq<Frame>
    ghost var since: nat
    ghost var missed: set<Id>
    ghost var trace: seq<F.Label>

    ghost predicate At(phase: Phase) reads this, rt, state {
      && rt.state == state && rt.Valid()
      && F.Run(cfg, trace) == F.System(state.View(), Conn(phase, cursor, wire, since), {}, missed)
    }

    constructor (cfg: Config, rt: Runtime)
      requires rt.Valid()
      ensures this.cfg == cfg && this.rt == rt && this.state == rt.state
      ensures At(Unsubscribed) && wire == []
    {
      this.cfg, this.rt, this.state := cfg, rt, rt.state;
      cursor, wire, since, missed := 0, [], 0, {};
      trace := seq(|rt.state.acts|, i requires 0 <= i < |rt.state.acts| reads rt.state => F.Server(rt.state.acts[i]));
      new;
      ServerOnly(cfg, state.acts, trace);
    }

    /** The run takes the connection's next step. */
    ghost method Served(before: Conn)
      requires rt.state == state && rt.Valid()
      requires F.Run(cfg, trace) == F.System(state.View(), before, {}, missed)
      modifies this`trace, this`missed
      ensures F.Run(cfg, trace) == F.System(state.View(), AdvanceConn(cfg, state.View(), before), {}, missed)
    {
      F.RunSnoc(cfg, trace, F.Serve);
      missed := AdvanceMissed(cfg, state.View(), before, missed);
      trace := trace + [F.Serve];
    }

    /** One statement of another task. */
    method OneAct(act: Act, ghost phase: Phase)
      requires At(phase)
      modifies rt, state, this`trace
      ensures At(phase) && |state.channel| >= |old(state.channel)|
      ensures rt.Tasks() == TaskStep(old(rt.Tasks()), act)
    {
      ChannelStep(state.View(), act);
      F.RunSnoc(cfg, trace, F.Server(act));
      var done := rt.Perform(act);
      if done { trace := trace + [F.Server(act)]; }
    }

    /** The other tasks of the server run for a while. */
    method Interleave(others: seq<Act>, ghost phase: Phase)
      requires At(phase)
      modifies rt, state, this`trace
      ensures At(phase) && |state.channel| >= |old(state.channel)|
      ensures rt.Tasks() == TaskRun(old(rt.Tasks()), others)
    {
      var i := 0;
      while i < |others|
        invariant i <= |others| && At(phase) && |state.channel| >= |old(state.channel)|
        invariant rt.Tasks() == TaskRun(old(rt.Tasks()), others[..i])
      {
        OneAct(others[i], phase);
        assert others[..i + 1] == others[..i] + [others[i]];
        TaskRunNext(old(rt.Tasks()), others[..i], others[i]);
        i := i + 1;
      }
      assert others[..i] == others;
    }

    method Subscribe()
      requires At(Unsubscribed)
      modifies this`cursor, this`since, this`missed, this`trace
      ensures At(Snapshotting(Scan(0, {}))) && wire == old(wire)
      ensures cursor == |state.channel| && since == cursor
    {
      Served(Conn(Unsubscribed, cursor, wire, since));
      cursor, since := |state.channel|, |state.channel|;
    }

    /** recv: the next event, or how far the ring has overtaken this receiver, which then
        continues with the oldest event still there. */
    method Receive() returns (r: Option<Result<LifecycleEvent, RecvError>>)
      requires At(Listening)
      modifies this`cursor
      ensures r.None? <==> old(cursor) >= |state.channel|
      ensures r.None? ==> cursor == old(cursor)
      ensures r.Some? && r.value.Ok? ==> |state.channel| - old(cursor) <= cfg.capacity
      ensures r.Some? && r.value.Ok? ==> cursor == old(cursor) + 1 && r.value.value == state.channel[old(cursor)]
      ensures r.Some? && r.value.Err? ==> |state.channel| - old(cursor) > cfg.capacity
      ensures r.Some? && r.value.Err? ==> cursor == |state.channel| - cfg.capacity
    {
      if cursor >= |state.channel| { return None; }
      if |state.channel| - cursor > cfg.capacity {
        r := Some(Err(Lagged(|state.channel| - cfg.capacity - cursor)));
        cursor := |state.channel| - cfg.capacity;
      } else {
        r := Some(Ok(state.channel[cursor]));
        cursor := cursor + 1;
      }
    }

    /** send_snapshot: the panes are listed shard by shard, and the listing sent. */
    method SendSnapshot(others: seq<seq<Act>>)
      requires At(Snapshotting(Scan(0, {}))) && |others| == cfg.shards
      modifies rt, state, this`wire, this`trace, this`missed
      ensures At(Listening) && |state.channel| >= |old(state.channel)|
      ensures Resynced(old(wire), wire) && rt.Tasks() == TaskRun(old(rt.Tasks()), Flat(others))
    {
      var scan := Scan(0, {});
      while scan.shard < cfg.shards
        invariant scan.shard <= cfg.shards && At(Snapshotting(scan)) && wire == old(wire)
        invariant |state.channel| >= |old(state.channel)|
        invariant rt.Tasks() == TaskRun(old(rt.Tasks()), Flat(others[..scan.shard]))
      {
        BurstNext(old(rt.Tasks()), others, scan.shard);
        Interleave(others[scan.shard], Snapshotting(scan));
        Served(Conn(Snapshotting(scan), cursor, wire, since));
        scan := ReadShard(cfg, state.panes, scan);
      }
      assert others[..scan.shard] == others;
      Served(Conn(Snapshotting(scan), cursor, wire, since));
      wire := wire + [Snapshot(scan.seen)];
      assert wire == old(wire) + [Snapshot(scan.seen)];
    }

    /** One turn of the select loop: nothing if no event is waiting, else the next event, or a
        fresh snapshot if the ring has overtaken this receiver. */
    method TakeTurn(turn: Turn) returns (r: Option<Result<LifecycleEvent, RecvError>>)
      requires At(Listening) && |turn.duringScan| == cfg.shards
      modifies rt, state, this
      ensures At(Listening) && old(wire) <= wire && (r.None? <==> wire == old(wire))
      ensures r.None? ==> cursor == old(cursor) >= |state.channel|
      ensures r.Some? && r.value.Ok? ==> cursor == old(cursor) + 1 <= |state.channel|
      ensures r.Some? && r.value.Ok? ==> wire == old(wire) + [Event(state.channel[old(cursor)])]
      ensures r.Some? && r.value.Err? ==> |state.channel| - old(cursor) > cfg.capacity && cursor == since
      ensures r.Some? && r.value.Err? ==> Resynced(old(wire), wire) && cursor > old(cursor)
      ensures rt.Tasks() == TaskRun(old(rt.Tasks()), ActsOf(turn, r.Some? && r.value.Err?))
    {
      Interleave(turn.before, Listening);
      r := ReceiveAndSend();
      if r.Some? && r.value.Err? {
        TaskRunSplit(old(rt.Tasks()), turn.before, Flat(turn.duringScan));
        SendSnapshot(turn.duringScan);
      } else {
        assert ActsOf(turn, false) == turn.before;
      }
    }

    /** A receive, and the event it brings is sent on. */
    method ReceiveAndSend() returns (r: Option<Result<LifecycleEvent, RecvError>>)
      requires At(Listening)
      modifies this`cursor, this`wire, this`since, this`trace, this`missed
      ensures At(if r.Some? && r.value.Err? then Snapshotting(Scan(0, {})) else Listening)
      ensures r.None? ==> cursor == old(cursor) >= |state.channel|
      ensures r.Some? && r.value.Ok? ==> cursor == old(cursor) + 1 <= |state.channel|
      ensures r.Some? && r.value.Err? ==> |state.channel| - old(cursor) > cfg.capacity && cursor == since
      ensures r.Some? && r.value.Err? ==> cursor > old(cursor)
      ensures wire == if r.Some? && r.value.Ok? then old(wire) + [Event(state.channel[old(cursor)])] else old(wire)
    {
      ghost var before := Conn(Listening, cursor, wire, since);
      r := Receive();
      if r.Some? {
        Served(before);
        match r.value {
          case Ok(event) => wire := wire + [Event(event)];
          case Err(_) => since := cursor;
        }
      }
    }

    /** What the frames on the wire, followed by the events still waiting, leave a client with
        that folds them: of all panes that are not just being announced as created, exactly those
        that are listed or in the hands of a delete request, but for those the last snapshot
        missed and no Created has restored; and also the dead panes whose Deleted was broadcast
        before the Created the client replays on its last snapshot. */
    ghost predicate WireTells() reads this, state {
      && since <= cursor <= |state.channel|
      && (forall id :: !Unannounced(state.View(), id) ==>
           (id in F.ApplyEvents(F.ApplyFrames({}, wire), state.channel[cursor..])
            <==> F.Expected(state.View(), since, missed, id)))
      && (forall id :: id in missed && id in state.panes ==> id in state.undone)
    }

    lemma WireSettles()
      requires At(Listening) && ValidConfig(cfg)
      ensures WireTells()
    {
      F.RunKeepsInv(cfg, trace);
      SettledByWire(cfg, F.Run(cfg, trace));
    }

    /** The select loop: every turn is taken, and if the other tasks do nothing for long enough in
        the end, every event is sent. */
    method SelectLoop(turns: seq<Turn>) returns (ghost lagged: seq<bool>)
      requires At(Listening) && forall turn :: turn in turns ==> |turn.duringScan| == cfg.shards
      modifies rt, state, this
      ensures At(Listening) && old(wire) <= wire
      ensures |lagged| == |turns| && rt.Tasks() == TaskRun(old(rt.Tasks()), ActsOfTurns(turns, lagged))
      ensures QuietTail(turns) >= |state.channel| ==> cursor >= |state.channel|
    {
      lagged := [];
      var i := 0;
      while i < |turns|
        invariant i <= |turns| && At(Listening) && old(wire) <= wire && |lagged| == i
        invariant rt.Tasks() == TaskRun(old(rt.Tasks()), ActsOfTurns(turns[..i], lagged))
        invariant cursor >= Taken(turns, i) || cursor >= |state.channel|
      {
        ghost var before := lagged;
        TurnNext(old(rt.Tasks()), turns, i, lagged);
        var r := TakeTurn(turns[i]);
        lagged := before + [r.Some? && r.value.Err?];
        i := i + 1;
      }
      assert turns[..i] == turns;
    }

    /** handle_ws, up to the moment the client goes away, whatever the other tasks do. */
    method HandleWs(listing: seq<seq<Act>>, turns: seq<Turn>) returns (ghost lagged: seq<bool>)
      requires At(Unsubscribed) && wire == [] && ValidConfig(cfg)
      requires |listing| == cfg.shards && forall turn :: turn in turns ==> |turn.duringScan| == cfg.shards
      modifies rt, state, this
      ensures At(Listening) && wire != [] && wire[0].Snapshot? && WireTells()
      ensures |lagged| == |turns|
      ensures rt.Tasks() == TaskRun(old(rt.Tasks()), Flat(listing) + ActsOfTurns(turns, lagged))
      ensures QuietTail(turns) >= |state.channel| ==> cursor == |state.channel|
    {
      Subscribe();
      SendSnapshot(listing);
      lagged := SelectLoop(turns);
      TaskRunSplit(old(rt.Tasks()), Flat(listing), ActsOfTurns(turns, lagged));
      WireSettles();
    }
  }

  lemma BurstNext(t: OtherTasks, bursts: seq<seq<Act>>, k: nat)
    requires k < |bursts|
    ensures TaskRun(TaskRun(t, Flat(bursts[..k])), bursts[k]) == TaskRun(t, Flat(bursts[..k + 1]))
  {
    assert bursts[..k + 1][..k] == bursts[..k];
    TaskRunSplit(t, Flat(bursts[..k]), bursts[k]);
  }

  lemma TurnNext(t: OtherTasks, turns: seq<Turn>, k: nat, lagged: seq<bool>)
    requires k < |turns| && |lagged| == k
    ensures forall last: bool ::
      TaskRun(TaskRun(t, ActsOfTurns(turns[..k], lagged)), ActsOf(turns[k], last))
        == TaskRun(t, ActsOfTurns(turns[..k + 1], lagged + [last]))
  {
    forall last: bool
      ensures TaskRun(TaskRun(t, ActsOfTurns(turns[..k], lagged)), ActsOf(turns[k], last))
           == TaskRun(t, ActsOfTurns(turns[..k + 1], lagged + [last]))
    {
      assert turns[..k + 1][..k] == turns[..k] && (lagged + [last])[..k] == lagged;
      TaskRunSplit(t, ActsOfTurns(turns[..k], lagged), ActsOf(turns[k], last));
    }
  }

  /** How many of the quiet turns at the end have been taken after i turns. */
  function Taken(turns: seq<Turn>, i: nat): nat {
    if i + QuietTail(turns) >= |turns| then i + QuietTail(turns) - |turns| else 0
  }

  /** The invariant of FoldFollower, read off the frames on the wire. */
  lemma SettledByWire(cfg: Config, sys: F.System)
    requires F.Inv(cfg, sys) && sys.conn.phase.Listening?
    ensures forall id :: !Unannounced(sys.reg, id) ==>
      (id in F.ApplyEvents(F.ApplyFrames(sys.view, sys.conn.queue), sys.reg.channel[sys.conn.cursor..])
       <==> F.Expected(sys.reg, sys.conn.since, sys.missed, id))
    ensures forall id :: id in sys.missed && id in sys.reg.panes ==> id in sys.reg.undone
  {
    forall id | !Unannounced(sys.reg, id)
      ensures id in F.ApplyEvents(F.ApplyFrames(sys.view, sys.conn.queue), sys.reg.channel[sys.conn.cursor..])
         <==> F.Expected(sys.reg, sys.conn.since, sys.missed, id)
    {
      assert F.PaneInv(cfg, sys, id);
    }
    forall id | id in sys.missed && id in sys.reg.panes ensures id in sys.reg.undone {
      ExcusedAndListed(sys.reg, id);
    }
  }

  /** Before anyone subscribes, a run is just what the server does. */
  lemma {:induction false} ServerOnly(cfg: Config, acts: seq<Act>, trace: seq<F.Label>)
    requires |trace| == |acts| && forall i :: 0 <= i < |acts| ==> trace[i] == F.Server(acts[i])
    ensures F.Run(cfg, trace) == F.System(RegistryRun(acts), NEW_CONN, {}, {})
  {
    if acts != [] {
      ServerOnly(cfg, acts[..|acts| - 1], trace[..|acts| - 1]);
    }
  }
}
