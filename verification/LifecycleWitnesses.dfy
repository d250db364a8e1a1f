/** Runs in which a follower of the lifecycle stream ends up wrong: a delete whose kill fails
    is undone without an announcement, and Deleted can be broadcast before Created. */
module LifecycleWitnesses {
  import opened PaneRegistry
  import opened LifecycleStream
  import G = GuiFollower
  import F = FoldFollower

  lemma GuiServer(cfg: Config, labels: seq<G.Label>, act: Act)
    ensures G.Run(cfg, labels + [G.Server(act)])
         == G.Run(cfg, labels).(reg := RegistryStep(G.Run(cfg, labels).reg, act))
  {
    G.RunSnoc(cfg, labels, G.Server(act));
  }

  /** Pane 0 was created, and a delete request has taken it out of the registry. */
  function BeingDeleted(): Registry {
    Registry({}, [Created(0)], map[0 := CreateAnnounced], [DeleteOp(0, Removed)], map[0 := DeleteRequest(0)],
             {0}, multiset{}, {}, {})
  }

  lemma NothingToRead(cfg: Config, k: nat)
    ensures ReadShard(cfg, {}, Scan(k, {})) == Scan(k + 1, {})
    ensures MissedInShard(cfg, InitRegistry(), Scan(k, {}), {}) == {}
  {
  }

  lemma PaneIsMissed(cfg: Config, k: nat)
    ensures MissedInShard(cfg, BeingDeleted(), Scan(k, {}), if cfg.shardOf(0) < k then {0} else {})
         == if cfg.shardOf(0) < k + 1 then {0} else {}
  {
    assert Held(BeingDeleted()) == {0};
  }

  /** The first list request, with nothing to list, from shard k on. */
  function ReadingNothing(k: nat): G.System {
    G.INIT.(gui := G.INIT_GUI.(phase := G.Fetching(Scan(k, {}), true)))
  }

  lemma {:induction false} GuiReadsNothing(cfg: Config, labels: seq<G.Label>, k: nat) returns (more: seq<G.Label>)
    requires k <= cfg.shards && G.Run(cfg, labels) == ReadingNothing(k)
    ensures G.Run(cfg, more) == ReadingNothing(cfg.shards)
    decreases cfg.shards - k
  {
    more := labels;
    if k < cfg.shards {
      G.RunSnoc(cfg, labels, G.Follow);
      NothingToRead(cfg, k);
      more := GuiReadsNothing(cfg, labels + [G.Follow], k + 1);
    }
  }

  lemma GuiListedNothing(cfg: Config) returns (labels: seq<G.Label>)
    requires ValidConfig(cfg)
    ensures G.Run(cfg, labels) == G.INIT.(gui := G.Gui(G.Idle, {}, {}, G.INIT_GUI.selected, false))
  {
    labels := GuiReadsNothing(cfg, [], 0);
    G.RunSnoc(cfg, labels, G.Follow);
    labels := labels + [G.Follow];
  }

  lemma GuiDuringDelete(cfg: Config) returns (labels: seq<G.Label>)
    requires ValidConfig(cfg)
    ensures G.Run(cfg, labels) == G.System(
      BeingDeleted(), NEW_CONN, G.Gui(G.Idle, {}, {}, G.INIT_GUI.selected, false), G.Missed({}, [], {}, {}))
  {
    labels := GuiListedNothing(cfg);
    GuiServer(cfg, labels, Spawn(0));
    labels := labels + [G.Server(Spawn(0))];
    GuiServer(cfg, labels, Insert(0));
    labels := labels + [G.Server(Insert(0))];
    GuiServer(cfg, labels, AnnounceCreated(0));
    labels := labels + [G.Server(AnnounceCreated(0))];
    GuiServer(cfg, labels, RequestDelete(0));
    labels := labels + [G.Server(RequestDelete(0))];
    GuiServer(cfg, labels, Remove(0));
    labels := labels + [G.Server(Remove(0))];
  }

  /** A snapshot under way while pane 0 is being deleted, from shard k on. */
  function ListingDuringDelete(cfg: Config, k: nat): G.System {
    G.System(BeingDeleted(), Conn(Snapshotting(Scan(k, {})), 1, [], 1),
             G.Gui(G.Idle, {}, {}, G.INIT_GUI.selected, false),
             G.Missed(if cfg.shardOf(0) < k then {0} else {}, [], {}, {}))
  }

  lemma {:induction false} GuiListsDuringDelete(cfg: Config, labels: seq<G.Label>, k: nat) returns (more: seq<G.Label>)
    requires k <= cfg.shards && G.Run(cfg, labels) == ListingDuringDelete(cfg, k)
    ensures G.Run(cfg, more) == ListingDuringDelete(cfg, cfg.shards)
    decreases cfg.shards - k
  {
    more := labels;
    if k < cfg.shards {
      G.RunSnoc(cfg, labels, G.Serve);
      NothingToRead(cfg, k);
      PaneIsMissed(cfg, k);
      more := GuiListsDuringDelete(cfg, labels + [G.Serve], k + 1);
    }
  }

  lemma GuiSnapshotDuringDelete(cfg: Config) returns (labels: seq<G.Label>)
    requires ValidConfig(cfg)
    ensures G.Run(cfg, labels) == G.System(
      BeingDeleted(), Conn(Listening, 1, [], 1), G.Gui(G.Idle, {}, {}, G.INIT_GUI.selected, false),
      G.Missed({0}, [], {}, {0}))
  {
    labels := GuiDuringDelete(cfg);
    G.RunSnoc(cfg, labels, G.Serve);
    labels := GuiListsDuringDelete(cfg, labels + [G.Serve], 0);
    G.RunSnoc(cfg, labels, G.Serve);
    labels := labels + [G.Serve];
    G.RunSnoc(cfg, labels, G.Follow);
    labels := labels + [G.Follow];
  }

  /** A pane put back after a failed kill can stay missing from the GUI although everything is
      quiet and every fetch succeeded. */
  lemma GuiCanMissAnUndonePane(cfg: Config)
    requires ValidConfig(cfg)
    ensures exists labels: seq<G.Label> ::
      var sys := G.Run(cfg, labels);
      G.Quiet(sys) && !sys.gui.stale && sys.reg.panes == {0} && sys.gui.panes == {}
  {
    var labels := GuiSnapshotDuringDelete(cfg);
    GuiServer(cfg, labels, Kill(0, false));
    labels := labels + [G.Server(Kill(0, false))];
    GuiServer(cfg, labels, Reinsert(0));
    labels := labels + [G.Server(Reinsert(0))];
    assert G.Quiet(G.Run(cfg, labels));
  }

  lemma FoldServer(cfg: Config, labels: seq<F.Label>, act: Act)
    ensures F.Run(cfg, labels + [F.Server(act)])
         == F.Run(cfg, labels).(reg := RegistryStep(F.Run(cfg, labels).reg, act))
  {
    F.RunSnoc(cfg, labels, F.Server(act));
  }

  /** A snapshot of the empty registry under way, from shard k on. */
  function ListingNothing(k: nat): F.System {
    F.System(InitRegistry(), Conn(Snapshotting(Scan(k, {})), 0, [], 0), {}, {})
  }

  lemma {:induction false} FoldListsNothing(cfg: Config, labels: seq<F.Label>, k: nat) returns (more: seq<F.Label>)
    requires k <= cfg.shards && F.Run(cfg, labels) == ListingNothing(k)
    ensures F.Run(cfg, more) == ListingNothing(cfg.shards)
    decreases cfg.shards - k
  {
    more := labels;
    if k < cfg.shards {
      F.RunSnoc(cfg, labels, F.Serve);
      NothingToRead(cfg, k);
      more := FoldListsNothing(cfg, labels + [F.Serve], k + 1);
    }
  }

  lemma FoldConnected(cfg: Config) returns (labels: seq<F.Label>)
    requires ValidConfig(cfg)
    ensures F.Run(cfg, labels) == F.System(InitRegistry(), Conn(Listening, 0, [Snapshot({})], 0), {}, {})
  {
    F.RunSnoc(cfg, [], F.Serve);
    labels := FoldListsNothing(cfg, [] + [F.Serve], 0);
    F.RunSnoc(cfg, labels, F.Serve);
    labels := labels + [F.Serve];
    assert [] + [Snapshot({})] == [Snapshot({})];
  }

  /** Pane 0 was inserted and deleted before its creation was announced. */
  function DeletedFirst(): Registry {
    Registry({}, [Deleted(0)], map[0 := Inserted], [DeleteOp(0, Reaped)], map[0 := DeleteRequest(0)],
             {}, multiset{0}, {0}, {})
  }

  lemma FoldBeforeKill(cfg: Config) returns (labels: seq<F.Label>)
    requires ValidConfig(cfg)
    ensures F.Run(cfg, labels) == F.System(
      BeingDeleted().(channel := [], creates := map[0 := Inserted]), Conn(Listening, 0, [Snapshot({})], 0), {}, {})
  {
    labels := FoldConnected(cfg);
    FoldServer(cfg, labels, Spawn(0));
    labels := labels + [F.Server(Spawn(0))];
    FoldServer(cfg, labels, Insert(0));
    labels := labels + [F.Server(Insert(0))];
    FoldServer(cfg, labels, RequestDelete(0));
    labels := labels + [F.Server(RequestDelete(0))];
    FoldServer(cfg, labels, Remove(0));
    labels := labels + [F.Server(Remove(0))];
  }

  lemma FoldKilled(cfg: Config) returns (labels: seq<F.Label>)
    requires ValidConfig(cfg)
    ensures F.Run(cfg, labels) == F.System(
      BeingDeleted().(channel := [], creates := map[0 := Inserted], deletes := [DeleteOp(0, Killed)]),
      Conn(Listening, 0, [Snapshot({})], 0), {}, {})
  {
    labels := FoldBeforeKill(cfg);
    FoldServer(cfg, labels, Kill(0, true));
    labels := labels + [F.Server(Kill(0, true))];
  }

  lemma FoldDeletedFirst(cfg: Config) returns (labels: seq<F.Label>)
    requires ValidConfig(cfg)
    ensures F.Run(cfg, labels) == F.System(DeletedFirst(), Conn(Listening, 0, [Snapshot({})], 0), {}, {})
  {
    labels := FoldKilled(cfg);
    FoldServer(cfg, labels, AnnounceDeleted(0));
    labels := labels + [F.Server(AnnounceDeleted(0))];
    FoldServer(cfg, labels, Reap(0));
    labels := labels + [F.Server(Reap(0))];
  }

  lemma FoldReceivedBoth(cfg: Config) returns (labels: seq<F.Label>)
    requires ValidConfig(cfg)
    ensures F.Run(cfg, labels) == F.System(
      DeletedFirst().(channel := [Deleted(0), Created(0)], creates := map[0 := CreateAnnounced]),
      Conn(Listening, 2, [Snapshot({}), Event(Deleted(0)), Event(Created(0))], 0), {}, {})
  {
    labels := FoldDeletedFirst(cfg);
    F.RunSnoc(cfg, labels, F.Serve);
    labels := labels + [F.Serve];
    FoldServer(cfg, labels, AnnounceCreated(0));
    labels := labels + [F.Server(AnnounceCreated(0))];
    F.RunSnoc(cfg, labels, F.Serve);
    labels := labels + [F.Serve];
  }

  /** With every kill successful, a client that folds events can keep a pane that is gone. */
  lemma FoldCanKeepADeadPane(cfg: Config)
    requires ValidConfig(cfg)
    ensures exists labels: seq<F.Label> ::
      var sys := F.Run(cfg, labels);
      F.Quiet(sys) && sys.reg.undone == {} && sys.reg.panes == {} && sys.view == {0}
  {
    var labels := FoldReceivedBoth(cfg);
    F.RunSnoc(cfg, labels, F.Follow);
    labels := labels + [F.Follow];
    F.RunSnoc(cfg, labels, F.Follow);
    labels := labels + [F.Follow];
    F.RunSnoc(cfg, labels, F.Follow);
    labels := labels + [F.Follow];
    assert F.Quiet(F.Run(cfg, labels));
  }
}
