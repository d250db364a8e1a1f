/** The quiet states that GuiFollower and FoldFollower speak of are reached: once no more
    requests come in, the requests under way, the stream and the client need only go on. */
module LifecycleProgress {
  import opened PaneRegistry
  import opened LifecycleStream
  import F = FoldFollower
  import G = GuiFollower

  // ---- The requests ------------------------------------------------------------------------

  function StepsOfDelete(stage: DeleteStage): nat {
    match stage
    case Requested => 4
    case Removed => 3
    case Killed => 2
    case KillFailed => 1
    case DeleteAnnounced => 1
    case _ => 0
  }

  function DeletesLeft(deletes: seq<DeleteOp>): nat {
    if deletes == [] then 0
    else DeletesLeft(deletes[..|deletes| - 1]) + StepsOfDelete(deletes[|deletes| - 1].stage)
  }

  function AtCreateStage(creates: map<Id, CreateStage>, stage: CreateStage): set<Id> {
    set id | id in creates && creates[id] == stage
  }

  function CreatesLeft(creates: map<Id, CreateStage>): nat {
    2 * |AtCreateStage(creates, Spawned)| + |AtCreateStage(creates, Inserted)|
  }

  /** Statements the requests under way still have to run, at most. */
  function RequestsLeft(reg: Registry): nat { DeletesLeft(reg.deletes) + CreatesLeft(reg.creates) }

  lemma {:induction false} DeletesLeftAfter(deletes: seq<DeleteOp>, op: nat, stage: DeleteStage)
    requires op < |deletes|
    ensures DeletesLeft(deletes[op := deletes[op].(stage := stage)]) + StepsOfDelete(deletes[op].stage)
         == DeletesLeft(deletes) + StepsOfDelete(stage)
  {
    var n := |deletes| - 1;
    var after := deletes[op := deletes[op].(stage := stage)];
    if op == n {
      assert after[..n] == deletes[..n];
    } else {
      DeletesLeftAfter(deletes[..n], op, stage);
      assert after[..n] == deletes[..n][op := deletes[op].(stage := stage)];
    }
  }

  /** The next statement of a delete request. */
  function NextOfDelete(op: nat, stage: DeleteStage, killOk: bool): Act
    requires StepsOfDelete(stage) > 0
  {
    match stage
    case Requested => Remove(op)
    case Removed => Kill(op, killOk)
    case KillFailed => Reinsert(op)
    case Killed => AnnounceDeleted(op)
    case DeleteAnnounced => Reap(op)
  }

  function StageAfter(stage: DeleteStage, killOk: bool, listed: bool): (next: DeleteStage)
    requires StepsOfDelete(stage) > 0
    ensures StepsOfDelete(next) < StepsOfDelete(stage)
  {
    match stage
    case Requested => if listed then Removed else NotFound
    case Removed => if killOk then Killed else KillFailed
    case KillFailed => Failed
    case Killed => DeleteAnnounced
    case DeleteAnnounced => Reaped
  }

  /** No request has come in. */
  predicate SameRequests(reg: Registry, next: Registry) {
    reg.creates.Keys == next.creates.Keys && |reg.deletes| == |next.deletes|
  }

  lemma DeleteMoves(reg: Registry, op: nat, killOk: bool)
    requires op < |reg.deletes| && StepsOfDelete(reg.deletes[op].stage) > 0
    ensures var stage := reg.deletes[op].stage;
      var next := RegistryStep(reg, NextOfDelete(op, stage, killOk));
      var moved := Moved(reg, op, StageAfter(stage, killOk, reg.deletes[op].id in reg.panes));
      next.creates == reg.creates && next.deletes == moved.deletes
  {
  }

  lemma DeleteGoesOn(reg: Registry, op: nat, killOk: bool)
    requires op < |reg.deletes| && StepsOfDelete(reg.deletes[op].stage) > 0
    ensures var next := RegistryStep(reg, NextOfDelete(op, reg.deletes[op].stage, killOk));
      RequestsLeft(next) < RequestsLeft(reg) && SameRequests(reg, next)
  {
    DeleteMoves(reg, op, killOk);
    DeletesLeftAfter(reg.deletes, op, StageAfter(reg.deletes[op].stage, killOk, reg.deletes[op].id in reg.panes));
  }

  lemma CreatesLeftInserted(creates: map<Id, CreateStage>, id: Id)
    requires id in creates && creates[id] == Spawned
    ensures CreatesLeft(creates[id := Inserted]) == CreatesLeft(creates) - 1
  {
    var after := creates[id := Inserted];
    assert AtCreateStage(after, Spawned) == AtCreateStage(creates, Spawned) - {id};
    assert AtCreateStage(after, Inserted) == AtCreateStage(creates, Inserted) + {id};
  }

  lemma CreatesLeftAnnounced(creates: map<Id, CreateStage>, id: Id)
    requires id in creates && creates[id] == Inserted
    ensures CreatesLeft(creates[id := CreateAnnounced]) == CreatesLeft(creates) - 1
  {
    var after := creates[id := CreateAnnounced];
    assert AtCreateStage(after, Spawned) == AtCreateStage(creates, Spawned);
    assert AtCreateStage(after, Inserted) == AtCreateStage(creates, Inserted) - {id};
  }

  lemma CreateGoesOn(reg: Registry, id: Id)
    requires id in reg.creates && reg.creates[id] != CreateAnnounced
    ensures var act := if reg.creates[id] == Spawned then Insert(id) else AnnounceCreated(id);
      RequestsLeft(RegistryStep(reg, act)) < RequestsLeft(reg) && SameRequests(reg, RegistryStep(reg, act))
  {
    if reg.creates[id] == Spawned {
      CreatesLeftInserted(reg.creates, id);
    } else {
      CreatesLeftAnnounced(reg.creates, id);
    }
  }

  /** As long as some request is under way, one can go on; `killOk` says how kills will go. */
  lemma SomeRequestGoesOn(reg: Registry, killOk: bool) returns (act: Act)
    requires !AllHandlersDone(reg)
    ensures RequestsLeft(RegistryStep(reg, act)) < RequestsLeft(reg) && SameRequests(reg, RegistryStep(reg, act))
  {
    if op: nat :| op < |reg.deletes| && StepsOfDelete(reg.deletes[op].stage) > 0 {
      act := NextOfDelete(op, reg.deletes[op].stage, killOk);
      DeleteGoesOn(reg, op, killOk);
    } else {
      assert forall op: nat :: op < |reg.deletes| ==> StepsOfDelete(reg.deletes[op].stage) == 0;
      var id :| id in reg.creates && reg.creates[id] != CreateAnnounced;
      act := if reg.creates[id] == Spawned then Insert(id) else AnnounceCreated(id);
      CreateGoesOn(reg, id);
    }
  }

  // ---- The stream --------------------------------------------------------------------------

  function EventsLeft(reg: Registry, conn: Conn): nat {
    if conn.cursor < |reg.channel| then |reg.channel| - conn.cursor else 0
  }

  function ListingLeft(cfg: Config, conn: Conn): nat {
    match conn.phase
    case Unsubscribed => cfg.shards + 2
    case Snapshotting(scan) => if scan.shard < cfg.shards then cfg.shards - scan.shard + 1 else 1
    case Listening => 0
  }

  predicate Served(reg: Registry, conn: Conn) { conn.phase.Listening? && conn.cursor == |reg.channel| }

  /** Fewer events are waiting, or the listing is further on. */
  predicate Nearer(cfg: Config, reg: Registry, conn: Conn, next: Conn) {
    || EventsLeft(reg, next) < EventsLeft(reg, conn)
    || (EventsLeft(reg, next) == EventsLeft(reg, conn) && ListingLeft(cfg, next) < ListingLeft(cfg, conn))
  }

  lemma StreamGoesOn(cfg: Config, reg: Registry, conn: Conn)
    requires ValidConfig(cfg) && conn.cursor <= |reg.channel| && !Served(reg, conn)
    ensures Nearer(cfg, reg, conn, AdvanceConn(cfg, reg, conn))
  {
  }

  // ---- A folding client ----------------------------------------------------------------------

  /** Continuations of a run are lists of labels that begin with it. */
  lemma Longer<T>(labels: seq<T>, label_: T, all: seq<T>)
    requires labels + [label_] <= all
    ensures labels <= all
  {
  }

  lemma FoldRequestGoesOn(cfg: Config, labels: seq<F.Label>, sys: F.System, killOk: bool) returns (act: Act)
    requires sys == F.Run(cfg, labels) && !AllHandlersDone(sys.reg)
    ensures var next := F.Run(cfg, labels + [F.Server(act)]);
      RequestsLeft(next.reg) < RequestsLeft(sys.reg) && SameRequests(sys.reg, next.reg)
  {
    act := SomeRequestGoesOn(sys.reg, killOk);
    F.RunSnoc(cfg, labels, F.Server(act));
  }

  lemma {:induction false} FoldRequestsEnd(cfg: Config, labels: seq<F.Label>, killOk: bool) returns (all: seq<F.Label>)
    ensures labels <= all && AllHandlersDone(F.Run(cfg, all).reg)
    ensures SameRequests(F.Run(cfg, labels).reg, F.Run(cfg, all).reg)
    decreases RequestsLeft(F.Run(cfg, labels).reg)
  {
    if AllHandlersDone(F.Run(cfg, labels).reg) {
      all := labels;
    } else {
      var act := FoldRequestGoesOn(cfg, labels, F.Run(cfg, labels), killOk);
      all := FoldRequestsEnd(cfg, labels + [F.Server(act)], killOk);
      Longer(labels, F.Server(act), all);
    }
  }

  lemma FoldStreamGoesOn(cfg: Config, labels: seq<F.Label>, sys: F.System)
    requires ValidConfig(cfg) && sys == F.Run(cfg, labels) && !Served(sys.reg, sys.conn)
    ensures var next := F.Run(cfg, labels + [F.Serve]);
      next.reg == sys.reg && Nearer(cfg, sys.reg, sys.conn, next.conn)
  {
    F.RunKeepsInv(cfg, labels);
    StreamGoesOn(cfg, sys.reg, sys.conn);
    F.RunSnoc(cfg, labels, F.Serve);
  }

  lemma {:induction false} FoldIsServed(cfg: Config, labels: seq<F.Label>) returns (all: seq<F.Label>)
    requires ValidConfig(cfg)
    ensures labels <= all && F.Run(cfg, all).reg == F.Run(cfg, labels).reg
    ensures Served(F.Run(cfg, all).reg, F.Run(cfg, all).conn)
    decreases EventsLeft(F.Run(cfg, labels).reg, F.Run(cfg, labels).conn), ListingLeft(cfg, F.Run(cfg, labels).conn)
  {
    if Served(F.Run(cfg, labels).reg, F.Run(cfg, labels).conn) {
      all := labels;
    } else {
      FoldStreamGoesOn(cfg, labels, F.Run(cfg, labels));
      all := FoldIsServed(cfg, labels + [F.Serve]);
      Longer(labels, F.Serve, all);
    }
  }

  lemma FoldFollows(cfg: Config, labels: seq<F.Label>, sys: F.System)
    requires sys == F.Run(cfg, labels) && sys.conn.queue != []
    ensures var next := F.Run(cfg, labels + [F.Follow]);
      && next.reg == sys.reg && |next.conn.queue| < |sys.conn.queue|
      && next.conn.phase == sys.conn.phase && next.conn.cursor == sys.conn.cursor
  {
    F.RunSnoc(cfg, labels, F.Follow);
  }

  lemma {:induction false} FoldCatchesUp(cfg: Config, labels: seq<F.Label>) returns (all: seq<F.Label>)
    ensures labels <= all
    ensures var sys, next := F.Run(cfg, labels), F.Run(cfg, all);
      && next.conn.queue == [] && next.reg == sys.reg
      && next.conn.phase == sys.conn.phase && next.conn.cursor == sys.conn.cursor
    decreases |F.Run(cfg, labels).conn.queue|
  {
    if F.Run(cfg, labels).conn.queue == [] {
      all := labels;
    } else {
      FoldFollows(cfg, labels, F.Run(cfg, labels));
      all := FoldCatchesUp(cfg, labels + [F.Follow]);
      Longer(labels, F.Follow, all);
    }
  }

  /** Every run can be continued to a quiet state without any new request, however the kills
      still to come turn out: FoldConvergesIff then applies. */
  lemma FoldGetsQuiet(cfg: Config, labels: seq<F.Label>, killOk: bool) returns (all: seq<F.Label>)
    requires ValidConfig(cfg)
    ensures labels <= all && F.Quiet(F.Run(cfg, all))
    ensures SameRequests(F.Run(cfg, labels).reg, F.Run(cfg, all).reg)
  {
    var requested := FoldRequestsEnd(cfg, labels, killOk);
    var served := FoldIsServed(cfg, requested);
    all := FoldCatchesUp(cfg, served);
  }

  // ---- The desktop client ----------------------------------------------------------------------

  /** The list was read successfully last, or something is under way that has it read again. */
  predicate Fresh(sys: G.System) {
    || !sys.gui.stale || sys.gui.phase.Fetching?
    || sys.conn.queue != [] || !Served(sys.reg, sys.conn)
  }

  lemma FreshStep(cfg: Config, sys: G.System, act: G.Label)
    requires Fresh(sys) && G.GuiInv(sys) && G.GuiInv(G.Step(cfg, sys, act)) && !act.FetchFails?
    ensures Fresh(G.Step(cfg, sys, act))
  {
    if act.Server? { ChannelStep(sys.reg, act.act); }
  }

  lemma StaleStep(cfg: Config, sys: G.System, act: G.Label)
    requires G.GuiInv(sys) && !Fresh(sys) && G.Step(cfg, sys, act).reg.channel == sys.reg.channel
    ensures !Fresh(G.Step(cfg, sys, act)) && G.Step(cfg, sys, act).gui.panes == sys.gui.panes
  {
  }

  lemma GuiChannelStep(cfg: Config, sys: G.System, act: G.Label)
    ensures sys.reg.channel <= G.Step(cfg, sys, act).reg.channel
  {
    if act.Server? { ChannelStep(sys.reg, act.act); }
  }

  /** Unless the server has announced something in between, a stale list that nothing will have read
      again is still stale, and still the same. */
  predicate StaleKept(sys: G.System, next: G.System) {
    && sys.reg.channel <= next.reg.channel
    && (!Fresh(sys) && next.reg.channel == sys.reg.channel ==> !Fresh(next) && next.gui.panes == sys.gui.panes)
  }

  lemma StaleKeptTrans(sys: G.System, mid: G.System, next: G.System)
    requires StaleKept(sys, mid) && StaleKept(mid, next)
    ensures StaleKept(sys, next)
  {
  }

  /** A list that is not Fresh stays stale and as it is over every run, for as long as the
      server announces nothing. */
  lemma {:induction false} StaleStays(cfg: Config, labels: seq<G.Label>, more: seq<G.Label>)
    requires ValidConfig(cfg)
    ensures StaleKept(G.Run(cfg, labels), G.Run(cfg, labels + more))
    decreases |more|
  {
    if more == [] {
      assert labels + more == labels;
    } else {
      StaleNext(cfg, labels, G.Run(cfg, labels), more[0]);
      StaleStays(cfg, labels + [more[0]], more[1..]);
      assert labels + [more[0]] + more[1..] == labels + more;
      StaleKeptTrans(G.Run(cfg, labels), G.Run(cfg, labels + [more[0]]), G.Run(cfg, labels + more));
    }
  }

  lemma StaleNext(cfg: Config, labels: seq<G.Label>, sys: G.System, act: G.Label)
    requires ValidConfig(cfg) && sys == G.Run(cfg, labels)
    ensures StaleKept(sys, G.Run(cfg, labels + [act]))
  {
    G.RunSnoc(cfg, labels, act);
    G.RunKeepsInv(cfg, labels);
    GuiChannelStep(cfg, sys, act);
    if !Fresh(sys) && G.Step(cfg, sys, act).reg.channel == sys.reg.channel { StaleStep(cfg, sys, act); }
  }

  /** One step of a run, with no list request failing. */
  lemma GuiSnoc(cfg: Config, labels: seq<G.Label>, sys: G.System, act: G.Label)
    requires ValidConfig(cfg) && sys == G.Run(cfg, labels) && !act.FetchFails?
    ensures G.Run(cfg, labels + [act]) == G.Step(cfg, sys, act) && G.GuiInv(sys)
    ensures Fresh(sys) ==> Fresh(G.Run(cfg, labels + [act]))
  {
    G.RunSnoc(cfg, labels, act);
    G.RunKeepsInv(cfg, labels);
    G.RunKeepsInv(cfg, labels + [act]);
    if Fresh(sys) { FreshStep(cfg, sys, act); }
  }

  lemma GuiRequestGoesOn(cfg: Config, labels: seq<G.Label>, sys: G.System, killOk: bool) returns (act: Act)
    requires ValidConfig(cfg) && sys == G.Run(cfg, labels) && !AllHandlersDone(sys.reg)
    ensures var next := G.Run(cfg, labels + [G.Server(act)]);
      && RequestsLeft(next.reg) < RequestsLeft(sys.reg) && SameRequests(sys.reg, next.reg)
      && (Fresh(sys) ==> Fresh(next))
  {
    act := SomeRequestGoesOn(sys.reg, killOk);
    GuiSnoc(cfg, labels, sys, G.Server(act));
  }

  lemma {:induction false} GuiRequestsEnd(cfg: Config, labels: seq<G.Label>, killOk: bool) returns (all: seq<G.Label>)
    requires ValidConfig(cfg)
    ensures labels <= all && AllHandlersDone(G.Run(cfg, all).reg)
    ensures SameRequests(G.Run(cfg, labels).reg, G.Run(cfg, all).reg)
    ensures Fresh(G.Run(cfg, labels)) ==> Fresh(G.Run(cfg, all))
    decreases RequestsLeft(G.Run(cfg, labels).reg)
  {
    if AllHandlersDone(G.Run(cfg, labels).reg) {
      all := labels;
    } else {
      var act := GuiRequestGoesOn(cfg, labels, G.Run(cfg, labels), killOk);
      all := GuiRequestsEnd(cfg, labels + [G.Server(act)], killOk);
      Longer(labels, G.Server(act), all);
    }
  }

  function FetchLeft(cfg: Config, gui: G.Gui): nat {
    match gui.phase
    case Fetching(scan, _) => if scan.shard < cfg.shards then cfg.shards - scan.shard + 1 else 1
    case Idle => 0
  }

  predicate CaughtUp(sys: G.System) { sys.gui.phase.Idle? && sys.conn.queue == [] }

  lemma GuiFollows(cfg: Config, labels: seq<G.Label>, sys: G.System)
    requires ValidConfig(cfg) && sys == G.Run(cfg, labels) && !CaughtUp(sys)
    ensures var next := G.Run(cfg, labels + [G.Follow]);
      && next.reg == sys.reg && next.conn.phase == sys.conn.phase && next.conn.cursor == sys.conn.cursor
      && (|next.conn.queue| < |sys.conn.queue|
          || (|next.conn.queue| == |sys.conn.queue| && FetchLeft(cfg, next.gui) < FetchLeft(cfg, sys.gui)))
      && (Fresh(sys) ==> Fresh(next))
  {
    GuiSnoc(cfg, labels, sys, G.Follow);
  }

  lemma {:induction false} GuiCatchesUp(cfg: Config, labels: seq<G.Label>) returns (all: seq<G.Label>)
    requires ValidConfig(cfg)
    ensures labels <= all && CaughtUp(G.Run(cfg, all))
    ensures var sys, next := G.Run(cfg, labels), G.Run(cfg, all);
      && next.reg == sys.reg && next.conn.phase == sys.conn.phase && next.conn.cursor == sys.conn.cursor
      && (Fresh(sys) ==> Fresh(next))
    decreases |G.Run(cfg, labels).conn.queue|, FetchLeft(cfg, G.Run(cfg, labels).gui)
  {
    if CaughtUp(G.Run(cfg, labels)) {
      all := labels;
    } else {
      GuiFollows(cfg, labels, G.Run(cfg, labels));
      all := GuiCatchesUp(cfg, labels + [G.Follow]);
      Longer(labels, G.Follow, all);
    }
  }

  lemma GuiStreamGoesOn(cfg: Config, labels: seq<G.Label>, sys: G.System)
    requires ValidConfig(cfg) && sys == G.Run(cfg, labels) && sys.gui.phase.Idle? && !Served(sys.reg, sys.conn)
    ensures var next := G.Run(cfg, labels + [G.Serve]);
      && next.reg == sys.reg && next.gui == sys.gui && Nearer(cfg, sys.reg, sys.conn, next.conn)
      && (Fresh(sys) ==> Fresh(next))
  {
    GuiSnoc(cfg, labels, sys, G.Serve);
    StreamGoesOn(cfg, sys.reg, sys.conn);
  }

  lemma {:induction false} GuiIsServed(cfg: Config, labels: seq<G.Label>) returns (all: seq<G.Label>)
    requires ValidConfig(cfg) && G.Run(cfg, labels).gui.phase.Idle?
    ensures labels <= all && G.Run(cfg, all).reg == G.Run(cfg, labels).reg
    ensures Served(G.Run(cfg, all).reg, G.Run(cfg, all).conn)
    ensures Fresh(G.Run(cfg, labels)) ==> Fresh(G.Run(cfg, all))
    decreases EventsLeft(G.Run(cfg, labels).reg, G.Run(cfg, labels).conn), ListingLeft(cfg, G.Run(cfg, labels).conn)
  {
    if Served(G.Run(cfg, labels).reg, G.Run(cfg, labels).conn) {
      all := labels;
    } else {
      GuiStreamGoesOn(cfg, labels, G.Run(cfg, labels));
      all := GuiIsServed(cfg, labels + [G.Serve]);
      Longer(labels, G.Serve, all);
    }
  }

  /** Every run can be continued to a quiet state without any new request, and with the last list
      request successful unless the list was stale with nothing under way that has it read
      again: GuiConvergesIff then applies. */
  lemma GuiGetsQuiet(cfg: Config, labels: seq<G.Label>, killOk: bool) returns (all: seq<G.Label>)
    requires ValidConfig(cfg)
    ensures labels <= all && G.Quiet(G.Run(cfg, all))
    ensures SameRequests(G.Run(cfg, labels).reg, G.Run(cfg, all).reg)
    ensures Fresh(G.Run(cfg, labels)) ==> !G.Run(cfg, all).gui.stale
  {
    var requested := GuiRequestsEnd(cfg, labels, killOk);
    var idle := GuiCatchesUp(cfg, requested);
    var served := GuiIsServed(cfg, idle);
    all := GuiCatchesUp(cfg, served);
  }
}
