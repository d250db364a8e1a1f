/** The pane registry under concurrent create and delete requests, the PTY read loops and
    shutdown (server/src/handlers/create.rs, delete.rs, server/src/pane.rs, server/src/main.rs).

    As in StreamProtocol, a label that is not enabled changes nothing. */
module PaneRegistry {
  /** A pane's UUID. Uuid::new_v4 is taken to be fresh. */
  type Id = nat

  datatype LifecycleEvent = Created(id: Id) | Deleted(id: Id)

  /** create_pane_handler: the pane is spawned, then inserted, then announced. */
  datatype CreateStage = Spawned | Inserted | CreateAnnounced

  /** delete_pane_handler: remove, kill, then either announce and reap, or reinsert. */
  datatype DeleteStage =
    | Requested | NotFound
    | Removed | KillFailed | Failed
    | Killed | DeleteAnnounced | Reaped

  datatype DeleteOp = DeleteOp(id: Id, stage: DeleteStage)

  /** Who holds the pane, as a record of the run: its create request, the registry, or the
      delete request with this number. */
  datatype Owner = CreateRequest | Listed | DeleteRequest(op: nat)

  /** `children` are the panes whose child handle is still in its Option; `takes` counts the
      successful takes, `reached` the panes some task has tried to take from, and `undone` the
      panes put back after a failed kill. */
  datatype Registry = Registry(
    panes: set<Id>, channel: seq<LifecycleEvent>,
    creates: map<Id, CreateStage>, deletes: seq<DeleteOp>, owner: map<Id, Owner>,
    children: set<Id>, takes: multiset<Id>, reached: set<Id>, undone: set<Id>)

  datatype Act =
    | Spawn(id: Id) | Insert(id: Id) | AnnounceCreated(id: Id)
    | RequestDelete(id: Id) | Remove(op: nat) | Kill(op: nat, ok: bool) | Reinsert(op: nat)
    | AnnounceDeleted(op: nat) | Reap(op: nat)
    | ReadLoopExit(id: Id) | ShutdownTake(id: Id)

  function InitRegistry(): Registry { Registry({}, [], map[], [], map[], {}, multiset{}, {}, {}) }

  /** take_child: whoever comes first gets the handle. */
  function Take(reg: Registry, id: Id): Registry {
    if id in reg.children
    then reg.(children := reg.children - {id}, takes := reg.takes + multiset{id}, reached := reg.reached + {id})
    else reg.(reached := reg.reached + {id})
  }

  predicate AtStage(reg: Registry, op: nat, stage: DeleteStage) {
    op < |reg.deletes| && reg.deletes[op].stage == stage
  }

  function Moved(reg: Registry, op: nat, stage: DeleteStage): Registry
    requires op < |reg.deletes|
  {
    reg.(deletes := reg.deletes[op := reg.deletes[op].(stage := stage)])
  }

  function RegistryStep(reg: Registry, act: Act): Registry {
    match act
    case Spawn(id) =>
      if id in reg.creates then reg
      else reg.(creates := reg.creates[id := Spawned], owner := reg.owner[id := CreateRequest],
                children := reg.children + {id})
    case Insert(id) =>
      if id in reg.creates && reg.creates[id] == Spawned
      then reg.(creates := reg.creates[id := Inserted], owner := reg.owner[id := Listed], panes := reg.panes + {id})
      else reg
    case AnnounceCreated(id) =>
      if id in reg.creates && reg.creates[id] == Inserted
      then reg.(creates := reg.creates[id := CreateAnnounced], channel := reg.channel + [Created(id)])
      else reg
    case RequestDelete(id) => reg.(deletes := reg.deletes + [DeleteOp(id, Requested)])
    case Remove(op) =>
      if !AtStage(reg, op, Requested) then reg
      else if reg.deletes[op].id in reg.panes
      then Moved(reg, op, Removed).(panes := reg.panes - {reg.deletes[op].id},
                                    owner := reg.owner[reg.deletes[op].id := DeleteRequest(op)])
      else Moved(reg, op, NotFound)
    case Kill(op, ok) =>
      if AtStage(reg, op, Removed) then Moved(reg, op, if ok then Killed else KillFailed) else reg
    case Reinsert(op) =>
      if AtStage(reg, op, KillFailed)
      then Moved(reg, op, Failed).(panes := reg.panes + {reg.deletes[op].id},
                                   owner := reg.owner[reg.deletes[op].id := Listed],
                                   undone := reg.undone + {reg.deletes[op].id})
      else reg
    case AnnounceDeleted(op) =>
      if AtStage(reg, op, Killed)
      then Moved(reg, op, DeleteAnnounced).(channel := reg.channel + [Deleted(reg.deletes[op].id)])
      else reg
    case Reap(op) =>
      if AtStage(reg, op, DeleteAnnounced) then Take(Moved(reg, op, Reaped), reg.deletes[op].id) else reg
    case ReadLoopExit(id) => if id in reg.creates then Take(reg, id) else reg
    case ShutdownTake(id) => if id in reg.panes then Take(reg, id) else reg
  }

  function RegistryRun(acts: seq<Act>): Registry {
    if acts == [] then InitRegistry()
    else RegistryStep(RegistryRun(acts[..|acts| - 1]), acts[|acts| - 1])
  }

  lemma RegistryRunSnoc(acts: seq<Act>, act: Act)
    ensures RegistryRun(acts + [act]) == RegistryStep(RegistryRun(acts), act)
  {
    assert (acts + [act])[..|acts|] == acts;
  }

  // ---- Invariant ---------------------------------------------------------------------

  /** A delete request at this stage has the pane in its hands, or has finished it off. */
  predicate Holds(stage: DeleteStage) { stage in {Removed, KillFailed, Killed, DeleteAnnounced, Reaped} }

  predicate Announced(stage: DeleteStage) { stage in {DeleteAnnounced, Reaped} }

  ghost predicate OwnerInv(reg: Registry) {
    && reg.owner.Keys == reg.creates.Keys
    && (forall id :: id in reg.panes <==> id in reg.owner && reg.owner[id] == Listed)
    && (forall id :: id in reg.creates ==> (reg.creates[id] == Spawned <==> reg.owner[id] == CreateRequest))
    && (forall op :: 0 <= op < |reg.deletes| && Holds(reg.deletes[op].stage) ==>
          reg.deletes[op].id in reg.owner && reg.owner[reg.deletes[op].id] == DeleteRequest(op))
    && (forall id :: id in reg.owner && reg.owner[id].DeleteRequest? ==>
          reg.owner[id].op < |reg.deletes| && reg.deletes[reg.owner[id].op].id == id
          && Holds(reg.deletes[reg.owner[id].op].stage))
  }

  /** Finished off: killed and announced. */
  predicate Gone(reg: Registry, id: Id) {
    && id in reg.owner && reg.owner[id].DeleteRequest? && reg.owner[id].op < |reg.deletes|
    && Announced(reg.deletes[reg.owner[id].op].stage)
  }

  ghost predicate ChannelInv(reg: Registry) {
    && (forall id :: multiset(reg.channel)[Created(id)]
          == if id in reg.creates && reg.creates[id] == CreateAnnounced then 1 else 0)
    && (forall id :: multiset(reg.channel)[Deleted(id)] == if Gone(reg, id) then 1 else 0)
  }

  ghost predicate ChildInv(reg: Registry) {
    && reg.reached <= reg.creates.Keys
    && reg.children == reg.creates.Keys - reg.reached
    && forall id :: reg.takes[id] == if id in reg.reached then 1 else 0
  }

  ghost predicate RegistryInv(reg: Registry) { OwnerInv(reg) && ChannelInv(reg) && ChildInv(reg) }

  /** Moving a held pane's delete request between two holding stages changes no owner. */
  lemma OwnerInvMove(reg: Registry, op: nat, stage: DeleteStage)
    requires OwnerInv(reg) && op < |reg.deletes|
    requires Holds(reg.deletes[op].stage) <==> Holds(stage)
    ensures OwnerInv(Moved(reg, op, stage))
  {
  }

  lemma OwnerInvRemove(reg: Registry, op: nat)
    requires OwnerInv(reg) && AtStage(reg, op, Requested) && reg.deletes[op].id in reg.panes
    ensures OwnerInv(RegistryStep(reg, Remove(op)))
  {
    var next := RegistryStep(reg, Remove(op));
    assert next.owner.Keys == reg.owner.Keys;
    forall k | 0 <= k < |next.deletes| && Holds(next.deletes[k].stage)
      ensures next.deletes[k].id in next.owner && next.owner[next.deletes[k].id] == DeleteRequest(k)
    {
      assert k != op ==> reg.deletes[k] == next.deletes[k];
    }
  }

  lemma OwnerInvReinsert(reg: Registry, op: nat)
    requires OwnerInv(reg) && AtStage(reg, op, KillFailed)
    ensures OwnerInv(RegistryStep(reg, Reinsert(op)))
  {
    var next, id := RegistryStep(reg, Reinsert(op)), reg.deletes[op].id;
    assert reg.owner[id] == DeleteRequest(op);
    assert next.owner.Keys == reg.owner.Keys;
    forall k | 0 <= k < |next.deletes| && Holds(next.deletes[k].stage)
      ensures next.deletes[k].id in next.owner && next.owner[next.deletes[k].id] == DeleteRequest(k)
    {
      assert k != op && reg.deletes[k] == next.deletes[k];
    }
  }

  lemma OwnerInvSpawn(reg: Registry, id: Id)
    requires OwnerInv(reg)
    ensures OwnerInv(RegistryStep(reg, Spawn(id)))
  {
  }

  lemma OwnerInvInsert(reg: Registry, id: Id)
    requires OwnerInv(reg)
    ensures OwnerInv(RegistryStep(reg, Insert(id)))
  {
  }

  lemma OwnerInvAnnounceCreated(reg: Registry, id: Id)
    requires OwnerInv(reg)
    ensures OwnerInv(RegistryStep(reg, AnnounceCreated(id)))
  {
  }

  lemma OwnerInvRequest(reg: Registry, id: Id)
    requires OwnerInv(reg)
    ensures OwnerInv(RegistryStep(reg, RequestDelete(id)))
  {
  }

  lemma OwnerInvRemoveOrReinsert(reg: Registry, act: Act)
    requires OwnerInv(reg) && (act.Remove? || act.Reinsert?)
    ensures OwnerInv(RegistryStep(reg, act))
  {
    if act.Remove? && AtStage(reg, act.op, Requested) {
      if reg.deletes[act.op].id in reg.panes {
        OwnerInvRemove(reg, act.op);
      } else {
        OwnerInvMove(reg, act.op, NotFound);
      }
    } else if act.Reinsert? && AtStage(reg, act.op, KillFailed) {
      OwnerInvReinsert(reg, act.op);
    }
  }

  lemma OwnerInvKill(reg: Registry, op: nat, ok: bool)
    requires OwnerInv(reg)
    ensures OwnerInv(RegistryStep(reg, Kill(op, ok)))
  {
    if AtStage(reg, op, Removed) { OwnerInvMove(reg, op, if ok then Killed else KillFailed); }
  }

  lemma OwnerInvAnnounce(reg: Registry, op: nat)
    requires OwnerInv(reg)
    ensures OwnerInv(RegistryStep(reg, AnnounceDeleted(op)))
  {
    if AtStage(reg, op, Killed) { OwnerInvMove(reg, op, DeleteAnnounced); }
  }

  lemma OwnerInvReap(reg: Registry, op: nat)
    requires OwnerInv(reg)
    ensures OwnerInv(RegistryStep(reg, Reap(op)))
  {
    if AtStage(reg, op, DeleteAnnounced) { OwnerInvMove(reg, op, Reaped); }
  }

  lemma OwnerInvStep(reg: Registry, act: Act)
    requires OwnerInv(reg)
    ensures OwnerInv(RegistryStep(reg, act))
  {
    if act.Spawn? {
      OwnerInvSpawn(reg, act.id);
    } else if act.Insert? {
      OwnerInvInsert(reg, act.id);
    } else if act.AnnounceCreated? {
      OwnerInvAnnounceCreated(reg, act.id);
    } else if act.RequestDelete? {
      OwnerInvRequest(reg, act.id);
    } else if act.Remove? || act.Reinsert? {
      OwnerInvRemoveOrReinsert(reg, act);
    } else if act.Kill? {
      OwnerInvKill(reg, act.op, act.ok);
    } else if act.AnnounceDeleted? {
      OwnerInvAnnounce(reg, act.op);
    } else if act.Reap? {
      OwnerInvReap(reg, act.op);
    }
  }

  /** Which panes are gone changes only when a delete is announced. */
  lemma GoneStep(reg: Registry, act: Act, id: Id)
    requires OwnerInv(reg)
    ensures Gone(RegistryStep(reg, act), id) <==>
      Gone(reg, id) || (act.AnnounceDeleted? && AtStage(reg, act.op, Killed) && reg.deletes[act.op].id == id)
  {
    if act.Remove? || act.Kill? || act.Reinsert? || act.AnnounceDeleted? || act.Reap? {
      if act.op < |reg.deletes| { GoneOnDelete(reg, act, act.op, id); }
    }
  }

  lemma GoneOnDelete(reg: Registry, act: Act, op: nat, id: Id)
    requires act == Remove(op) || act == Reinsert(op) || act == AnnounceDeleted(op) || act == Reap(op)
          || (act.Kill? && act.op == op)
    requires op < |reg.deletes|
    requires Holds(reg.deletes[op].stage) ==>
      reg.deletes[op].id in reg.owner && reg.owner[reg.deletes[op].id] == DeleteRequest(op)
    requires reg.deletes[op].id in reg.panes ==>
      reg.deletes[op].id in reg.owner && reg.owner[reg.deletes[op].id] == Listed
    requires id in reg.owner && reg.owner[id].DeleteRequest? ==>
      reg.owner[id].op < |reg.deletes| && reg.deletes[reg.owner[id].op].id == id
    ensures Gone(RegistryStep(reg, act), id) <==>
      Gone(reg, id) || (act == AnnounceDeleted(op) && AtStage(reg, op, Killed) && reg.deletes[op].id == id)
  {
  }

  function ChannelAdds(reg: Registry, act: Act): seq<LifecycleEvent> {
    match act
    case AnnounceCreated(id) => if id in reg.creates && reg.creates[id] == Inserted then [Created(id)] else []
    case AnnounceDeleted(op) => if AtStage(reg, op, Killed) then [Deleted(reg.deletes[op].id)] else []
    case _ => []
  }

  lemma ChannelStep(reg: Registry, act: Act)
    ensures RegistryStep(reg, act).channel == reg.channel + ChannelAdds(reg, act)
  {
  }

  lemma CreatedStep(reg: Registry, act: Act, id: Id)
    ensures var next := RegistryStep(reg, act);
      (id in next.creates && next.creates[id] == CreateAnnounced)
        <==> (id in reg.creates && reg.creates[id] == CreateAnnounced)
             || (act == AnnounceCreated(id) && id in reg.creates && reg.creates[id] == Inserted)
  {
  }

  lemma DeletedCountStep(reg: Registry, act: Act, id: Id)
    requires OwnerInv(reg) && ChannelInv(reg)
    ensures var next := RegistryStep(reg, act);
      multiset(next.channel)[Deleted(id)] == if Gone(next, id) then 1 else 0
  {
    ChannelStep(reg, act);
    GoneStep(reg, act, id);
    if act.AnnounceDeleted? && AtStage(reg, act.op, Killed) {
      assert !Gone(reg, reg.deletes[act.op].id);
    }
  }

  lemma CreatedCountStep(reg: Registry, act: Act, id: Id)
    requires ChannelInv(reg)
    ensures var next := RegistryStep(reg, act);
      multiset(next.channel)[Created(id)] == if id in next.creates && next.creates[id] == CreateAnnounced then 1 else 0
  {
    ChannelStep(reg, act);
    CreatedStep(reg, act, id);
  }

  lemma ChannelInvStep(reg: Registry, act: Act)
    requires OwnerInv(reg) && ChannelInv(reg)
    ensures ChannelInv(RegistryStep(reg, act))
  {
    var next := RegistryStep(reg, act);
    forall id ensures multiset(next.channel)[Deleted(id)] == if Gone(next, id) then 1 else 0 {
      DeletedCountStep(reg, act, id);
    }
    forall id
      ensures multiset(next.channel)[Created(id)]
           == if id in next.creates && next.creates[id] == CreateAnnounced then 1 else 0
    {
      CreatedCountStep(reg, act, id);
    }
  }

  lemma ChildInvTake(reg: Registry, id: Id)
    requires ChildInv(reg) && id in reg.creates
    ensures ChildInv(Take(reg, id))
  {
  }

  lemma ChildInvSpawn(reg: Registry, id: Id)
    requires ChildInv(reg)
    ensures ChildInv(RegistryStep(reg, Spawn(id)))
  {
  }

  lemma ChildInvStep(reg: Registry, act: Act)
    requires OwnerInv(reg) && ChildInv(reg)
    ensures ChildInv(RegistryStep(reg, act))
  {
    if act.Spawn? {
      ChildInvSpawn(reg, act.id);
    } else if act.Reap? {
      if AtStage(reg, act.op, DeleteAnnounced) { ChildInvTake(Moved(reg, act.op, Reaped), reg.deletes[act.op].id); }
    } else if act.ReadLoopExit? || act.ShutdownTake? {
      if act.id in reg.creates { ChildInvTake(reg, act.id); }
    } else {
      ChildInvUntouched(reg, act);
    }
  }

  lemma ChildInvUntouched(reg: Registry, act: Act)
    requires ChildInv(reg)
    requires !act.Spawn? && !act.Reap? && !act.ReadLoopExit? && !act.ShutdownTake?
    ensures ChildInv(RegistryStep(reg, act))
  {
    var next := RegistryStep(reg, act);
    assert next.children == reg.children && next.takes == reg.takes && next.reached == reg.reached;
    assert next.creates.Keys == reg.creates.Keys;
  }

  /** Every step of every request keeps the invariant. */
  lemma RegistryStepKeepsInv(reg: Registry, act: Act)
    requires RegistryInv(reg)
    ensures RegistryInv(RegistryStep(reg, act))
  {
    OwnerInvStep(reg, act);
    ChannelInvStep(reg, act);
    ChildInvStep(reg, act);
  }

  lemma {:induction false} RegistryRunKeepsInv(acts: seq<Act>)
    ensures RegistryInv(RegistryRun(acts))
  {
    if acts != [] {
      var reg, act := RegistryRun(acts[..|acts| - 1]), acts[|acts| - 1];
      RegistryRunKeepsInv(acts[..|acts| - 1]);
      RegistryStepKeepsInv(reg, act);
    }
  }

  // ---- What the run guarantees ---------------------------------------------------------

  /** Each id is announced at most once as created and at most once as deleted. */
  lemma AnnouncedAtMostOnce(acts: seq<Act>, id: Id)
    ensures multiset(RegistryRun(acts).channel)[Created(id)] <= 1
    ensures multiset(RegistryRun(acts).channel)[Deleted(id)] <= 1
  {
    RegistryRunKeepsInv(acts);
  }

  lemma GoneAfterStep(acts: seq<Act>, act: Act, id: Id)
    requires Gone(RegistryRun(acts), id)
    ensures Gone(RegistryRun(acts + [act]), id)
  {
    RegistryRunKeepsInv(acts);
    GoneStep(RegistryRun(acts), act, id);
    RegistryRunSnoc(acts, act);
  }

  lemma {:induction false} GoneStaysGone(acts: seq<Act>, more: seq<Act>, id: Id)
    requires Gone(RegistryRun(acts), id)
    ensures Gone(RegistryRun(acts + more), id)
    decreases |more|
  {
    if more == [] {
      assert acts + more == acts;
    } else {
      GoneAfterStep(acts, more[0], id);
      GoneStaysGone(acts + [more[0]], more[1..], id);
      assert acts + [more[0]] + more[1..] == acts + more;
    }
  }

  /** A pane announced as deleted is not in the registry, and never will be again. */
  lemma DeletedMeansGoneForGood(acts: seq<Act>, more: seq<Act>, id: Id)
    requires Deleted(id) in RegistryRun(acts).channel
    ensures id !in RegistryRun(acts + more).panes
  {
    RegistryRunKeepsInv(acts);
    assert multiset(RegistryRun(acts).channel)[Deleted(id)] > 0;
    GoneStaysGone(acts, more, id);
    RegistryRunKeepsInv(acts + more);
  }

  /** The child handle is taken at most once, and exactly once as soon as any of the read loop,
      a delete request and shutdown has reached its take. */
  lemma ChildTakenExactlyOnce(acts: seq<Act>, id: Id)
    ensures RegistryRun(acts).takes[id] == if id in RegistryRun(acts).reached then 1 else 0
    ensures id in RegistryRun(acts).children
       <==> id in RegistryRun(acts).creates && id !in RegistryRun(acts).reached
  {
    RegistryRunKeepsInv(acts);
  }
}
