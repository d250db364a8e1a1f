/** The lifecycle WebSocket of server/src/handlers/lifecycle.rs over a changing registry. */
module LifecycleStream {
  import opened PaneRegistry

  /** Capacity of the lifecycle channel (1024 in AppState), and the shards of the registry map,
      which a listing visits one after the other. */
  datatype Config = Config(capacity: nat, shards: nat, shardOf: Id -> nat)

  ghost predicate ValidConfig(cfg: Config) {
    cfg.capacity >= 1 && forall id :: cfg.shardOf(id) < cfg.shards
  }

  /** list_pane_infos under way: the shards before `shard` have been read. */
  datatype Scan = Scan(shard: nat, seen: set<Id>)

  function ReadShard(cfg: Config, panes: set<Id>, scan: Scan): Scan {
    Scan(scan.shard + 1, scan.seen + (set id | id in panes && cfg.shardOf(id) == scan.shard))
  }

  datatype Frame = Snapshot(ids: set<Id>) | Event(event: LifecycleEvent)

  datatype Phase = Unsubscribed | Snapshotting(scan: Scan) | Listening

  /** One client's handle_ws, and the frames it sent that the client has not processed.
      `since` records the cursor when the last snapshot was begun. */
  datatype Conn = Conn(phase: Phase, cursor: nat, queue: seq<Frame>, since: nat)

  const NEW_CONN: Conn := Conn(Unsubscribed, 0, [], 0)

  function AdvanceConn(cfg: Config, reg: Registry, conn: Conn): Conn {
    match conn.phase
    case Unsubscribed =>
      conn.(cursor := |reg.channel|, since := |reg.channel|, phase := Snapshotting(Scan(0, {})))
    case Snapshotting(scan) =>
      if scan.shard < cfg.shards then conn.(phase := Snapshotting(ReadShard(cfg, reg.panes, scan)))
      else conn.(phase := Listening, queue := conn.queue + [Snapshot(scan.seen)])
    case Listening =>
      if conn.cursor >= |reg.channel| then conn
      else if |reg.channel| - conn.cursor > cfg.capacity then       // RecvError::Lagged
        var oldest := |reg.channel| - cfg.capacity;
        conn.(cursor := oldest, since := oldest, phase := Snapshotting(Scan(0, {})))
      else conn.(cursor := conn.cursor + 1, queue := conn.queue + [Event(reg.channel[conn.cursor])])
  }

  // ---- About a single pane ----------------------------------------------------------------

  /** A create request has inserted the pane and not announced it yet. */
  predicate Unannounced(reg: Registry, id: Id) { id in reg.creates && reg.creates[id] == Inserted }

  /** A delete request has the pane in its hands: it may still announce it or put it back. */
  predicate IsHeld(reg: Registry, id: Id) {
    && id in reg.owner && reg.owner[id].DeleteRequest? && reg.owner[id].op < |reg.deletes|
    && reg.deletes[reg.owner[id].op].stage in {Removed, KillFailed, Killed}
  }

  function Held(reg: Registry): set<Id> { set id | id in reg.owner && IsHeld(reg, id) }

  /** Listed, or out of the registry only as long as its delete request holds it. */
  predicate Present(reg: Registry, id: Id) { id in reg.panes || IsHeld(reg, id) }

  /** A request has changed the registry for this pane and has not announced it yet. */
  predicate Pending(reg: Registry, id: Id) { Unannounced(reg, id) || IsHeld(reg, id) }

  /** Every request has run to its end. */
  ghost predicate AllHandlersDone(reg: Registry) {
    && (forall id :: id in reg.creates ==> reg.creates[id] == CreateAnnounced)
    && forall op :: 0 <= op < |reg.deletes| ==> reg.deletes[op].stage in {NotFound, Failed, Reaped}
  }

  lemma DoneMeansNotPending(reg: Registry, id: Id)
    requires AllHandlersDone(reg)
    ensures !Pending(reg, id)
  {
  }

  /** The shard a scan reads next may have lost panes to delete requests that still hold them:
      they are added to what the scan has missed so far. Only a record of the run. */
  function MissedInShard(cfg: Config, reg: Registry, scan: Scan, missed: set<Id>): set<Id> {
    missed + (set id | id in Held(reg) && cfg.shardOf(id) == scan.shard)
  }

  /** The panes missed by the last listing of a connection, as it advances. */
  function AdvanceMissed(cfg: Config, reg: Registry, conn: Conn, missed: set<Id>): set<Id> {
    match conn.phase
    case Unsubscribed => {}
    case Snapshotting(scan) => if scan.shard < cfg.shards then MissedInShard(cfg, reg, scan, missed) else missed
    case Listening =>
      if conn.cursor < |reg.channel| && |reg.channel| - conn.cursor > cfg.capacity then {} else missed
  }

  /** What a list says about a pane, given the panes it missed. */
  predicate ListAgrees(reg: Registry, list: set<Id>, missed: set<Id>, id: Id) {
    if Present(reg, id) then id in list <==> id !in missed else id !in list
  }

  /** What a scan says about a pane once it has read the pane's shard. */
  predicate ScanAgrees(cfg: Config, reg: Registry, scan: Scan, missed: set<Id>, id: Id) {
    if cfg.shardOf(id) >= scan.shard then id !in scan.seen && id !in missed
    else ListAgrees(reg, scan.seen, missed, id)
  }

  /** A pane no list may miss without a reason: its delete is under way, was undone, or was
      carried out. */
  predicate Excused(reg: Registry, id: Id) { IsHeld(reg, id) || id in reg.undone || Gone(reg, id) }

  // ---- One step, seen from a single pane --------------------------------------------------

  /** A step that announces something leaves the registry's panes alone, and takes at most the
      announced pane out of a delete request's hands. */
  lemma AnnounceStep(reg: Registry, act: Act, id: Id)
    requires OwnerInv(reg) && ChannelAdds(reg, act) != []
    ensures var next, adds := RegistryStep(reg, act), ChannelAdds(reg, act);
      && |adds| == 1 && next.panes == reg.panes
      && (id != adds[0].id ==> (IsHeld(next, id) <==> IsHeld(reg, id)))
      && (id != adds[0].id ==> (Unannounced(next, id) <==> Unannounced(reg, id)))
  {
    if act.AnnounceDeleted? { HeldOnDelete(reg, act, act.op, id); }
  }

  /** A step without an announcement changes neither whether a pane is present nor whether its
      creation is unannounced, except that it may insert it. */
  lemma SilentStep(reg: Registry, act: Act, id: Id)
    requires OwnerInv(reg) && ChannelAdds(reg, act) == []
    ensures var next := RegistryStep(reg, act);
      && (Unannounced(reg, id) ==> Unannounced(next, id))
      && (!Unannounced(next, id) ==> (Present(next, id) <==> Present(reg, id)))
  {
    if act.Remove? || act.Kill? || act.Reinsert? || act.AnnounceDeleted? || act.Reap? {
      HeldOnDelete(reg, act, act.op, id);
    }
  }

  predicate OfRequest(act: Act, op: nat) {
    || act == Remove(op) || act == Reinsert(op) || act == AnnounceDeleted(op) || act == Reap(op)
    || (act.Kill? && act.op == op)
  }

  /** The same for a step of a delete request, and an excused pane stays excused. */
  lemma HeldOnDelete(reg: Registry, act: Act, op: nat, id: Id)
    requires OwnerInv(reg) && OfRequest(act, op)
    ensures var next, adds := RegistryStep(reg, act), ChannelAdds(reg, act);
      && next.creates == reg.creates
      && (adds == [] ==> (Present(next, id) <==> Present(reg, id)))
      && (adds != [] && id != adds[0].id ==> (IsHeld(next, id) <==> IsHeld(reg, id)))
      && (IsHeld(reg, id) ==> Excused(next, id))
  {
    if op < |reg.deletes| {
      if reg.deletes[op].id == id { HeldOnOwnDelete(reg, act, op); } else { HeldOnOtherDelete(reg, act, op, id); }
    }
  }

  lemma HeldOnOtherDelete(reg: Registry, act: Act, op: nat, id: Id)
    requires OfRequest(act, op) && op < |reg.deletes| && reg.deletes[op].id != id
    requires id in reg.owner && reg.owner[id].DeleteRequest? ==>
      reg.owner[id].op < |reg.deletes| && reg.deletes[reg.owner[id].op].id == id
    ensures var next := RegistryStep(reg, act);
      (IsHeld(next, id) <==> IsHeld(reg, id)) && (id in next.panes <==> id in reg.panes)
  {
    var next := RegistryStep(reg, act);
    assert id in next.owner <==> id in reg.owner;
    assert id in reg.owner ==> next.owner[id] == reg.owner[id];
  }

  lemma HeldOnOwnDelete(reg: Registry, act: Act, op: nat)
    requires OfRequest(act, op) && op < |reg.deletes|
    requires Holds(reg.deletes[op].stage) ==>
      reg.deletes[op].id in reg.owner && reg.owner[reg.deletes[op].id] == DeleteRequest(op)
    requires reg.deletes[op].id in reg.panes ==>
      reg.deletes[op].id in reg.owner && reg.owner[reg.deletes[op].id] == Listed
    ensures var id, next, adds := reg.deletes[op].id, RegistryStep(reg, act), ChannelAdds(reg, act);
      && (adds == [] ==> (Present(next, id) <==> Present(reg, id)))
      && (adds != [] ==> adds[0].id == id)
      && (IsHeld(reg, id) ==> Excused(next, id))
  {
  }

  /** A pane stays excused for good. */
  lemma ExcusedStep(reg: Registry, act: Act, id: Id)
    requires OwnerInv(reg) && Excused(reg, id)
    ensures Excused(RegistryStep(reg, act), id)
  {
    if Gone(reg, id) {
      GoneStep(reg, act, id);
    } else if act.Remove? || act.Kill? || act.Reinsert? || act.AnnounceDeleted? || act.Reap? {
      HeldOnDelete(reg, act, act.op, id);
    }
  }

  /** A listed pane that some listing missed was put back by a failed delete. */
  lemma ExcusedAndListed(reg: Registry, id: Id)
    requires OwnerInv(reg) && Excused(reg, id) && id in reg.panes
    ensures id in reg.undone
  {
  }
}
