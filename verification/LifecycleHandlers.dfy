/** create_pane_handler and delete_pane_handler as the imperative code they are, interleaved
    with every other task, proved to take only steps of PaneRegistry. */
module LifecycleHandlers {
  import opened Wrappers
  import opened PaneRegistry

  datatype HandlerError = NotFoundError | InternalError

  /** The shared state of the server: the registry, the lifecycle channel, and the panes whose
      child handle is still there. The ghost fields are the records of PaneRegistry, among them
      where each request stands, and the run so far. */
  class AppState {
    var panes: set<Id>
    var channel: seq<LifecycleEvent>
    var children: set<Id>
    ghost var creates: map<Id, CreateStage>
    ghost var deletes: seq<DeleteOp>
    ghost var owner: map<Id, Owner>
    ghost var takes: multiset<Id>
    ghost var reached: set<Id>
    ghost var undone: set<Id>
    ghost var acts: seq<Act>

    ghost function View(): Registry reads this {
      Registry(panes, channel, creates, deletes, owner, children, takes, reached, undone)
    }

    ghost predicate Valid() reads this { View() == RegistryRun(acts) }

    /** The request is at this point of its code. */
    ghost predicate Creating(id: Id, stage: CreateStage) reads this { id in creates && creates[id] == stage }

    ghost predicate Deleting(op: nat, id: Id, stage: DeleteStage) reads this {
      op < |deletes| && deletes[op] == DeleteOp(id, stage)
    }

    /** One step of PaneRegistry was taken. */
    twostate predicate Took(act: Act) reads this {
      Valid() && View() == RegistryStep(old(View()), act) && acts == old(acts) + [act]
    }

    constructor ()
      ensures Valid() && acts == [] && panes == {} && channel == []
    {
      panes, channel, children, creates, deletes := {}, [], {}, map[], [];
      owner, takes, reached, undone, acts := map[], multiset{}, {}, {}, [];
    }

    /** The ghost records follow the step just taken. */
    ghost method Noted(next: Registry, act: Act)
      requires panes == next.panes && channel == next.channel && children == next.children
      modifies this`creates, this`deletes, this`owner, this`takes, this`reached, this`undone, this`acts
      ensures View() == next && acts == old(acts) + [act]
    {
      creates, deletes, owner := next.creates, next.deletes, next.owner;
      takes, reached, undone := next.takes, next.reached, next.undone;
      acts := acts + [act];
    }

    /** create_pane: the child of a pane under its fresh id is running. */
    method SpawnPane(id: Id)
      requires Valid() && id !in creates
      modifies this
      ensures Took(Spawn(id)) && Creating(id, Spawned)
    {
      ghost var before := View();
      children := children + {id};
      RegistryRunSnoc(acts, Spawn(id));
      Noted(RegistryStep(before, Spawn(id)), Spawn(id));
    }

    method InsertPane(id: Id)
      requires Valid() && Creating(id, Spawned)
      modifies this
      ensures Took(Insert(id)) && Creating(id, Inserted) && panes == old(panes) + {id} && channel == old(channel)
    {
      ghost var before := View();
      panes := panes + {id};
      RegistryRunSnoc(acts, Insert(id));
      Noted(RegistryStep(before, Insert(id)), Insert(id));
    }

    method SendCreated(id: Id)
      requires Valid() && Creating(id, Inserted)
      modifies this
      ensures Took(AnnounceCreated(id)) && Creating(id, CreateAnnounced)
      ensures panes == old(panes) && channel == old(channel) + [Created(id)]
    {
      ghost var before := View();
      channel := channel + [Created(id)];
      RegistryRunSnoc(acts, AnnounceCreated(id));
      Noted(RegistryStep(before, AnnounceCreated(id)), AnnounceCreated(id));
    }

    /** A request to delete this pane came in. */
    ghost method Accept(id: Id) returns (op: nat)
      requires Valid()
      modifies this
      ensures Took(RequestDelete(id)) && op == |old(deletes)| && deletes == old(deletes) + [DeleteOp(id, Requested)]
      ensures unchanged(`panes) && unchanged(`channel) && unchanged(`children) && unchanged(`creates)
    {
      var before := View();
      op := |deletes|;
      RegistryRunSnoc(acts, RequestDelete(id));
      Noted(RegistryStep(before, RequestDelete(id)), RequestDelete(id));
    }

    /** The removal in AppState::remove_pane, for an id already resolved. */
    method RemovePane(id: Id, ghost op: nat) returns (found: bool)
      requires Valid() && Deleting(op, id, Requested)
      modifies this
      ensures Took(Remove(op)) && Deleting(op, id, if found then Removed else NotFound)
      ensures found == (id in old(panes)) && panes == old(panes) - {id} && channel == old(channel)
    {
      ghost var before := View();
      found := id in panes;
      panes := panes - {id};
      RegistryRunSnoc(acts, Remove(op));
      Noted(RegistryStep(before, Remove(op)), Remove(op));
    }

    /** The kill has succeeded or failed. */
    ghost method Killing(op: nat, id: Id, ok: bool)
      requires Valid() && Deleting(op, id, Removed)
      modifies this
      ensures Took(Kill(op, ok)) && Deleting(op, id, if ok then Killed else KillFailed)
      ensures unchanged(`panes) && unchanged(`channel) && unchanged(`children) && unchanged(`creates)
    {
      RegistryRunSnoc(acts, Kill(op, ok));
      Noted(RegistryStep(View(), Kill(op, ok)), Kill(op, ok));
    }

    method ReinsertPane(id: Id, ghost op: nat)
      requires Valid() && Deleting(op, id, KillFailed)
      modifies this
      ensures Took(Reinsert(op)) && Deleting(op, id, Failed)
      ensures panes == old(panes) + {id} && id in undone && channel == old(channel)
    {
      ghost var before := View();
      panes := panes + {id};
      RegistryRunSnoc(acts, Reinsert(op));
      Noted(RegistryStep(before, Reinsert(op)), Reinsert(op));
    }

    method SendDeleted(id: Id, ghost op: nat)
      requires Valid() && Deleting(op, id, Killed)
      modifies this
      ensures Took(AnnounceDeleted(op)) && Deleting(op, id, DeleteAnnounced)
      ensures panes == old(panes) && channel == old(channel) + [Deleted(id)]
    {
      ghost var before := View();
      channel := channel + [Deleted(id)];
      RegistryRunSnoc(acts, AnnounceDeleted(op));
      Noted(RegistryStep(before, AnnounceDeleted(op)), AnnounceDeleted(op));
    }

    /** Who may take a pane's child: its read loop, its delete request once announced, and
        shutdown, which visits only listed panes. */
    ghost predicate MayTake(id: Id, act: Act) reads this {
      match act
      case ReadLoopExit(x) => x == id && id in creates
      case ShutdownTake(x) => x == id && id in panes
      case Reap(op) => Deleting(op, id, DeleteAnnounced)
      case _ => false
    }

    /** take_child: whoever comes first gets the handle. */
    method TakeChild(id: Id, ghost act: Act) returns (got: bool)
      requires Valid() && MayTake(id, act)
      modifies this
      ensures Took(act) && got == (id in old(children)) && children == old(children) - {id}
      ensures panes == old(panes) && channel == old(channel) && id in reached
      ensures act.Reap? ==> Deleting(act.op, id, Reaped)
    {
      ghost var before := View();
      got := id in children;
      children := children - {id};
      RegistryRunSnoc(acts, act);
      Noted(RegistryStep(before, act), act);
    }
  }

  /** The server as it stands, and which of its requests the other tasks have in hand. */
  datatype OtherTasks = OtherTasks(reg: Registry, creating: set<Id>, deleting: set<nat>)

  /** This is the next statement of one of the other tasks. */
  predicate Ready(t: OtherTasks, act: Act) {
    match act
    case Spawn(id) => id !in t.reg.creates
    case Insert(id) => id in t.creating && id in t.reg.creates && t.reg.creates[id] == Spawned
    case AnnounceCreated(id) => id in t.creating && id in t.reg.creates && t.reg.creates[id] == Inserted
    case RequestDelete(_) => true
    case Remove(op) => op in t.deleting && AtStage(t.reg, op, Requested)
    case Kill(op, _) => op in t.deleting && AtStage(t.reg, op, Removed)
    case Reinsert(op) => op in t.deleting && AtStage(t.reg, op, KillFailed)
    case AnnounceDeleted(op) => op in t.deleting && AtStage(t.reg, op, Killed)
    case Reap(op) => op in t.deleting && AtStage(t.reg, op, DeleteAnnounced)
    case ReadLoopExit(id) => id in t.reg.creates
    case ShutdownTake(id) => id in t.reg.panes
  }

  /** A new request is another task's, too. */
  function TaskStep(t: OtherTasks, act: Act): OtherTasks {
    if !Ready(t, act) then t
    else OtherTasks(RegistryStep(t.reg, act), if act.Spawn? then t.creating + {act.id} else t.creating,
                    if act.RequestDelete? then t.deleting + {|t.reg.deletes|} else t.deleting)
  }

  /** The other tasks run for a while. */
  function TaskRun(t: OtherTasks, acts: seq<Act>): OtherTasks {
    if acts == [] then t else TaskStep(TaskRun(t, acts[..|acts| - 1]), acts[|acts| - 1])
  }

  /** A statement of the request under consideration. */
  function OwnStep(t: OtherTasks, act: Act): OtherTasks { t.(reg := RegistryStep(t.reg, act)) }

  /** A whole create request, with what the other tasks do between its statements. */
  function CreateRun(t: OtherTasks, id: Id, others: seq<seq<Act>>): OtherTasks
    requires |others| == 2
  {
    var inserted := OwnStep(TaskRun(OwnStep(t, Spawn(id)), others[0]), Insert(id));
    OwnStep(TaskRun(inserted, others[1]), AnnounceCreated(id))
  }

  /** A whole delete request, and its answer: whether the pane is found depends on what is listed
      at the removal, and the rest on the kill. */
  function DeleteRun(t: OtherTasks, id: Id, killOk: bool, others: seq<seq<Act>>): (OtherTasks, Result<(), HandlerError>)
    requires |others| == 4
  {
    var op := |t.reg.deletes|;
    var begun := TaskRun(OwnStep(t, RequestDelete(id)), others[0]);
    var removed := OwnStep(begun, Remove(op));
    if id !in begun.reg.panes then (removed, Err(NotFoundError))
    else
      var killed := TaskRun(OwnStep(TaskRun(removed, others[1]), Kill(op, killOk)), others[2]);
      if killOk then (FinishRun(killed, op, others[3]), Ok(())) else (OwnStep(killed, Reinsert(op)), Err(InternalError))
  }

  function FinishRun(t: OtherTasks, op: nat, others: seq<Act>): OtherTasks {
    OwnStep(TaskRun(OwnStep(t, AnnounceDeleted(op)), others), Reap(op))
  }

  lemma TaskRunNext(t: OtherTasks, acts: seq<Act>, act: Act)
    ensures TaskRun(t, acts + [act]) == TaskStep(TaskRun(t, acts), act)
  {
    assert (acts + [act])[..|acts|] == acts;
  }

  lemma {:induction false} TaskRunSplit(t: OtherTasks, acts: seq<Act>, more: seq<Act>)
    ensures TaskRun(t, acts + more) == TaskRun(TaskRun(t, acts), more)
    decreases |more|
  {
    if more == [] {
      assert acts + more == acts;
    } else {
      var n := |more| - 1;
      TaskRunSplit(t, acts, more[..n]);
      LastApart(acts, more);
      TaskRunNext(t, acts + more[..n], more[n]);
    }
  }

  /** When every request is in some task's hands, the tasks take exactly the steps that have an
      effect on the registry, and others are not in anyone's hands. */
  lemma TasksTakeEveryStep(t: OtherTasks, act: Act)
    requires t.creating == t.reg.creates.Keys && forall op: nat :: op in t.deleting <==> op < |t.reg.deletes|
    ensures var next := TaskStep(t, act);
      && next.reg == RegistryStep(t.reg, act)
      && next.creating == next.reg.creates.Keys && forall op: nat :: op in next.deleting <==> op < |next.reg.deletes|
  {
  }

  /** The runtime and the tasks it runs besides the one under consideration, with the point each
      of them has reached, the ids drawn so far, and the number of delete requests accepted. */
  class Runtime {
    const state: AppState
    var drawn: set<Id>
    var accepted: nat
    var creating: map<Id, CreateStage>
    var deleting: map<nat, DeleteOp>

    ghost predicate Valid() reads this, state {
      && state.Valid() && drawn == state.creates.Keys && accepted == |state.deletes|
      && (forall id :: id in creating ==> state.Creating(id, creating[id]))
      && forall op :: op in deleting ==> state.Deleting(op, deleting[op].id, deleting[op].stage)
    }

    ghost function Tasks(): OtherTasks reads this, state {
      OtherTasks(state.View(), creating.Keys, deleting.Keys)
    }

    /** The request whose own code is being followed is not among the other tasks. */
    ghost predicate LeavesCreate(id: Id) reads this { id !in creating && id in drawn }

    ghost predicate LeavesDelete(op: nat) reads this { op !in deleting && op < accepted }

    /** And it stands where it stood. */
    twostate predicate StillLeavesCreate(id: Id) reads this, state {
      LeavesCreate(id) && forall stage :: old(state.Creating(id, stage)) ==> state.Creating(id, stage)
    }

    twostate predicate StillLeavesDelete(op: nat) reads this, state {
      LeavesDelete(op) && forall id, stage :: old(state.Deleting(op, id, stage)) ==> state.Deleting(op, id, stage)
    }

    constructor (state: AppState)
      requires state.Valid() && state.acts == []
      ensures this.state == state && Valid()
    {
      this.state := state;
      drawn, accepted, creating, deleting := {}, 0, map[], map[];
    }

    /** Another task spawns a pane. */
    method PerformSpawn(act: Act) returns (done: bool)
      requires Valid() && act.Spawn?
      modifies this, state
      ensures Valid() && StepOrNothing(done, act) && drawn >= old(drawn)
      ensures creating.Keys <= old(creating).Keys + (drawn - old(drawn)) && deleting == old(deleting)
      ensures accepted == old(accepted)
    {
      done := act.id !in drawn;
      if done {
        state.SpawnPane(act.id);
        drawn, creating := drawn + {act.id}, creating[act.id := Spawned];
      }
    }

    /** Its create request inserts the pane. */
    method PerformInsert(act: Act) returns (done: bool)
      requires Valid() && act.Insert?
      modifies this, state
      ensures Valid() && StepOrNothing(done, act) && drawn == old(drawn)
      ensures (done ==> act.id in old(creating)) && creating.Keys == old(creating).Keys && deleting == old(deleting)
      ensures accepted == old(accepted)
    {
      done := act.id in creating && creating[act.id] == Spawned;
      if done {
        state.InsertPane(act.id);
        creating := creating[act.id := Inserted];
      }
    }

    /** And announces it. */
    method PerformSendCreated(act: Act) returns (done: bool)
      requires Valid() && act.AnnounceCreated?
      modifies this, state
      ensures Valid() && StepOrNothing(done, act) && drawn == old(drawn)
      ensures (done ==> act.id in old(creating)) && creating.Keys == old(creating).Keys && deleting == old(deleting)
      ensures accepted == old(accepted)
    {
      done := act.id in creating && creating[act.id] == Inserted;
      if done {
        state.SendCreated(act.id);
        creating := creating[act.id := CreateAnnounced];
      }
    }

    /** A delete request of another task comes in. */
    method PerformRequest(id: Id)
      requires Valid()
      modifies this, state
      ensures Valid() && state.Took(RequestDelete(id)) && drawn == old(drawn) && creating == old(creating)
      ensures accepted == old(accepted) + 1 && deleting.Keys == old(deleting).Keys + {old(accepted)}
    {
      ghost var op := state.Accept(id);
      deleting := deleting[accepted := DeleteOp(id, Requested)];
      accepted := accepted + 1;
    }

    /** Another task's delete request removes its pane. */
    method PerformRemove(act: Act) returns (done: bool)
      requires Valid() && act.Remove?
      modifies this, state
      ensures Valid() && StepOrNothing(done, act) && drawn == old(drawn) && creating == old(creating)
      ensures (done ==> act.op in old(deleting)) && deleting.Keys == old(deleting).Keys
      ensures accepted == old(accepted)
    {
      done := act.op in deleting && deleting[act.op].stage == Requested;
      if done {
        var id := deleting[act.op].id;
        var found := state.RemovePane(id, act.op);
        deleting := deleting[act.op := DeleteOp(id, if found then Removed else NotFound)];
      }
    }

    /** It kills the process. */
    method PerformKill(act: Act) returns (done: bool)
      requires Valid() && act.Kill?
      modifies this, state
      ensures Valid() && StepOrNothing(done, act) && drawn == old(drawn) && creating == old(creating)
      ensures (done ==> act.op in old(deleting)) && deleting.Keys == old(deleting).Keys
      ensures accepted == old(accepted)
    {
      done := act.op in deleting && deleting[act.op].stage == Removed;
      if done {
        var id := deleting[act.op].id;
        state.Killing(act.op, id, act.ok);
        deleting := deleting[act.op := DeleteOp(id, if act.ok then Killed else KillFailed)];
      }
    }

    /** It puts the pane back after a failed kill. */
    method PerformReinsert(act: Act) returns (done: bool)
      requires Valid() && act.Reinsert?
      modifies this, state
      ensures Valid() && StepOrNothing(done, act) && drawn == old(drawn) && creating == old(creating)
      ensures (done ==> act.op in old(deleting)) && deleting.Keys == old(deleting).Keys
      ensures accepted == old(accepted)
    {
      done := act.op in deleting && deleting[act.op].stage == KillFailed;
      if done {
        var id := deleting[act.op].id;
        state.ReinsertPane(id, act.op);
        deleting := deleting[act.op := DeleteOp(id, Failed)];
      }
    }

    /** It announces the deletion. */
    method PerformAnnounce(act: Act) returns (done: bool)
      requires Valid() && act.AnnounceDeleted?
      modifies this, state
      ensures Valid() && StepOrNothing(done, act) && drawn == old(drawn) && creating == old(creating)
      ensures (done ==> act.op in old(deleting)) && deleting.Keys == old(deleting).Keys
      ensures accepted == old(accepted)
    {
      done := act.op in deleting && deleting[act.op].stage == Killed;
      if done {
        var id := deleting[act.op].id;
        state.SendDeleted(id, act.op);
        deleting := deleting[act.op := DeleteOp(id, DeleteAnnounced)];
      }
    }

    /** It takes the child. */
    method PerformReap(act: Act) returns (done: bool)
      requires Valid() && act.Reap?
      modifies this, state
      ensures Valid() && StepOrNothing(done, act) && drawn == old(drawn) && creating == old(creating)
      ensures (done ==> act.op in old(deleting)) && deleting.Keys == old(deleting).Keys
      ensures accepted == old(accepted)
    {
      done := act.op in deleting && deleting[act.op].stage == DeleteAnnounced;
      if done {
        var id := deleting[act.op].id;
        var _ := state.TakeChild(id, act);
        deleting := deleting[act.op := DeleteOp(id, Reaped)];
      }
    }

    /** The end of a read loop, or shutdown at one of its panes. */
    method PerformTake(act: Act) returns (done: bool)
      requires Valid() && (act.ReadLoopExit? || act.ShutdownTake?)
      modifies state
      ensures Valid() && StepOrNothing(done, act)
    {
      done := if act.ReadLoopExit? then act.id in drawn else act.id in state.panes;
      if done {
        var _ := state.TakeChild(act.id, act);
      }
    }

    /** The statement was taken if it was some task's next one, and otherwise nothing was. */
    twostate predicate StepOrNothing(done: bool, act: Act) reads this, state {
      && Tasks() == TaskStep(old(Tasks()), act) && (done <==> Ready(old(Tasks()), act))
      && if done then state.Took(act) else state.acts == old(state.acts)
    }

    /** The tasks know their own requests only, and new ones get new names. */
    twostate predicate OnlyNewNames() reads this {
      && drawn >= old(drawn) && creating.Keys <= old(creating).Keys + (drawn - old(drawn))
      && accepted >= old(accepted)
      && forall op :: op in deleting ==> op in old(deleting) || old(accepted) <= op
    }

    /** One statement of some other task, if it is that task's next one. */
    method PerformNext(act: Act) returns (done: bool)
      requires Valid()
      modifies this, state
      ensures Valid() && StepOrNothing(done, act) && OnlyNewNames()
      ensures forall op: nat :: done && OfDelete(act, op) ==> op in old(deleting)
      ensures forall id :: done && OfCreate(act, id) ==> id in old(creating)
    {
      if act.Spawn? {
        done := PerformSpawn(act);
      } else if act.Insert? {
        done := PerformInsert(act);
      } else if act.AnnounceCreated? {
        done := PerformSendCreated(act);
      } else if act.RequestDelete? {
        PerformRequest(act.id);
        done := true;
      } else if act.Remove? {
        done := PerformRemove(act);
      } else if act.Kill? {
        done := PerformKill(act);
      } else if act.Reinsert? {
        done := PerformReinsert(act);
      } else if act.AnnounceDeleted? {
        done := PerformAnnounce(act);
      } else if act.Reap? {
        done := PerformReap(act);
      } else {
        done := PerformTake(act);
      }
    }

    /** The request under consideration stands still. */
    method Perform(act: Act) returns (done: bool)
      requires Valid()
      modifies this, state
      ensures Valid() && StepOrNothing(done, act)
      ensures forall op: nat :: old(LeavesDelete(op)) ==> StillLeavesDelete(op)
      ensures forall id :: old(LeavesCreate(id)) ==> StillLeavesCreate(id)
    {
      ghost var before := state.View();
      done := PerformNext(act);
      OthersLeave(before, state.View(), act);
    }

    /** The other tasks run for a while. */
    method Run(others: seq<Act>)
      requires Valid()
      modifies this, state
      ensures Valid() && Tasks() == TaskRun(old(Tasks()), others)
      ensures forall op: nat :: old(LeavesDelete(op)) ==> StillLeavesDelete(op)
      ensures forall id :: old(LeavesCreate(id)) ==> StillLeavesCreate(id)
    {
      var i := 0;
      while i < |others|
        invariant i <= |others| && Valid() && Tasks() == TaskRun(old(Tasks()), others[..i])
        invariant forall op: nat :: old(LeavesDelete(op)) ==> StillLeavesDelete(op)
        invariant forall id :: old(LeavesCreate(id)) ==> StillLeavesCreate(id)
      {
        var _ := Perform(others[i]);
        assert others[..i + 1] == others[..i] + [others[i]];
        TaskRunNext(old(Tasks()), others[..i], others[i]);
        i := i + 1;
      }
      assert others[..i] == others;
    }

    /** The create request under consideration spawns its pane. */
    method BeginCreate(id: Id)
      requires Valid() && id !in drawn
      modifies this`drawn, state
      ensures Valid() && LeavesCreate(id) && state.Creating(id, Spawned)
      ensures Tasks() == OwnStep(old(Tasks()), Spawn(id))
    {
      assert id !in creating;
      drawn := drawn + {id};
      state.SpawnPane(id);
    }

    /** The delete request under consideration comes in. */
    method AcceptDelete(id: Id) returns (ghost op: nat)
      requires Valid()
      modifies this`accepted, state
      ensures Valid() && op == old(accepted) && LeavesDelete(op) && state.Deleting(op, id, Requested)
      ensures Tasks() == OwnStep(old(Tasks()), RequestDelete(id))
    {
      assert accepted !in deleting;
      op := state.Accept(id);
      accepted := accepted + 1;
    }

    /** state.panes.insert in create_pane_handler. */
    method InsertCreated(id: Id)
      requires Valid() && LeavesCreate(id) && state.Creating(id, Spawned)
      modifies state
      ensures Valid() && LeavesCreate(id) && state.Creating(id, Inserted) && id in state.panes
      ensures Tasks() == OwnStep(old(Tasks()), Insert(id))
    {
      state.InsertPane(id);
    }

    /** Its pane_lifecycle_tx.send. */
    method AnnounceInserted(id: Id)
      requires Valid() && LeavesCreate(id) && state.Creating(id, Inserted)
      modifies state
      ensures Valid() && state.Creating(id, CreateAnnounced) && multiset(state.channel)[Created(id)] == 1
      ensures Tasks() == OwnStep(old(Tasks()), AnnounceCreated(id))
    {
      state.SendCreated(id);
      AnnouncedIsInChannel(state.acts, id);
    }

    /** create_pane_handler, once the pane is spawned under its fresh id: it is inserted and then
        announced, exactly once, whatever runs in between. */
    method CreatePaneHandler(id: Id, others: seq<seq<Act>>)
      requires Valid() && id !in drawn && |others| == 2
      modifies this, state
      ensures Valid() && state.Creating(id, CreateAnnounced)
      ensures multiset(state.channel)[Created(id)] == 1
      ensures Tasks() == CreateRun(old(Tasks()), id, others)
    {
      BeginCreate(id);
      Run(others[0]);
      InsertCreated(id);
      Run(others[1]);
      AnnounceInserted(id);
    }

    /** The removal of delete_pane_handler. */
    method RemoveRequested(id: Id, ghost op: nat) returns (found: bool)
      requires Valid() && LeavesDelete(op) && state.Deleting(op, id, Requested)
      modifies state
      ensures Valid() && LeavesDelete(op) && state.Deleting(op, id, if found then Removed else NotFound)
      ensures found == (id in old(state.panes)) && id !in state.panes
      ensures Tasks() == OwnStep(old(Tasks()), Remove(op))
    {
      found := state.RemovePane(id, op);
    }

    /** Its kill_process. */
    method KillRemoved(id: Id, ghost op: nat, ok: bool)
      requires Valid() && LeavesDelete(op) && state.Deleting(op, id, Removed)
      modifies state
      ensures Valid() && LeavesDelete(op) && state.Deleting(op, id, if ok then Killed else KillFailed)
      ensures state.channel == old(state.channel)
      ensures Tasks() == OwnStep(old(Tasks()), Kill(op, ok))
    {
      state.Killing(op, id, ok);
    }

    /** The tail of a failed kill: the pane goes back, and nothing is announced. */
    method UndoDelete(id: Id, ghost op: nat)
      requires Valid() && LeavesDelete(op) && state.Deleting(op, id, KillFailed)
      modifies state
      ensures Valid() && state.Deleting(op, id, Failed)
      ensures id in state.panes && id in state.undone && state.channel == old(state.channel)
      ensures Tasks() == OwnStep(old(Tasks()), Reinsert(op))
    {
      state.ReinsertPane(id, op);
    }

    /** The announcement of a successful kill. */
    method AnnounceKilled(id: Id, ghost op: nat)
      requires Valid() && LeavesDelete(op) && state.Deleting(op, id, Killed)
      modifies state
      ensures Valid() && LeavesDelete(op) && state.Deleting(op, id, DeleteAnnounced)
      ensures state.channel == old(state.channel) + [Deleted(id)]
      ensures Tasks() == OwnStep(old(Tasks()), AnnounceDeleted(op))
    {
      state.SendDeleted(id, op);
    }

    method ReapKilled(id: Id, ghost op: nat)
      requires Valid() && LeavesDelete(op) && state.Deleting(op, id, DeleteAnnounced)
      modifies state
      ensures Valid() && state.Deleting(op, id, Reaped) && id !in state.children
      ensures multiset(state.channel)[Deleted(id)] == 1 && Gone(state.View(), id) && id !in state.panes
      ensures Tasks() == OwnStep(old(Tasks()), Reap(op))
    {
      var _ := state.TakeChild(id, Reap(op));
      ReapedMeansGone(state.acts, op);
    }

    /** The tail of a successful delete: announce, then take the child handle. */
    method FinishDelete(id: Id, ghost op: nat, others: seq<Act>)
      requires Valid() && LeavesDelete(op) && state.Deleting(op, id, Killed)
      modifies this, state
      ensures Valid() && state.Deleting(op, id, Reaped) && id !in state.children
      ensures multiset(state.channel)[Deleted(id)] == 1 && Gone(state.View(), id) && id !in state.panes
      ensures Tasks() == FinishRun(old(Tasks()), op, others)
    {
      AnnounceKilled(id, op);
      Run(others);
      ReapKilled(id, op);
    }

    /** delete_pane_handler for a resolved id; `killOk` is the outcome of the kill, and
        `others` what the other tasks do between its statements. On success the pane is out of
        the registry for good, announced exactly once, and its child handle taken; a failed
        kill puts the pane back and announces nothing; and it is not found only if it is not
        listed. */
    method DeletePaneHandler(id: Id, killOk: bool, others: seq<seq<Act>>) returns (r: Result<(), HandlerError>)
      requires Valid() && |others| == 4
      modifies this, state
      ensures Valid() && state.Deleting(old(accepted), id, StageOf(r))
      ensures r.Ok? ==> killOk && Gone(state.View(), id) && id !in state.panes && id !in state.children
      ensures r.Ok? ==> multiset(state.channel)[Deleted(id)] == 1
      ensures r == Err(InternalError) ==> !killOk && id in state.panes && id in state.undone
      ensures r == Err(NotFoundError) ==> id !in state.panes
      ensures (Tasks(), r) == DeleteRun(old(Tasks()), id, killOk, others)
    {
      ghost var op := AcceptDelete(id);
      Run(others[0]);
      var found := RemoveRequested(id, op);
      if !found {
        return Err(NotFoundError);
      }
      Run(others[1]);
      KillRemoved(id, op, killOk);
      Run(others[2]);
      if !killOk {
        UndoDelete(id, op);
        return Err(InternalError);
      }
      FinishDelete(id, op, others[3]);
      r := Ok(());
    }
  }

  /** Where a delete request ends, by its result. */
  function StageOf(r: Result<(), HandlerError>): DeleteStage {
    match r
    case Ok(_) => Reaped
    case Err(InternalError) => Failed
    case Err(NotFoundError) => NotFound
  }

  lemma AnnouncedIsInChannel(acts: seq<Act>, id: Id)
    requires id in RegistryRun(acts).creates && RegistryRun(acts).creates[id] == CreateAnnounced
    ensures multiset(RegistryRun(acts).channel)[Created(id)] == 1
  {
    RegistryRunKeepsInv(acts);
  }

  lemma ReapedMeansGone(acts: seq<Act>, op: nat)
    requires AtStage(RegistryRun(acts), op, Reaped)
    ensures var reg := RegistryRun(acts);
      Gone(reg, reg.deletes[op].id) && reg.deletes[op].id !in reg.panes
      && multiset(reg.channel)[Deleted(reg.deletes[op].id)] == 1
  {
    RegistryRunKeepsInv(acts);
  }

  predicate OfDelete(act: Act, op: nat) {
    match act
    case Remove(k) => k == op
    case Kill(k, _) => k == op
    case Reinsert(k) => k == op
    case AnnounceDeleted(k) => k == op
    case Reap(k) => k == op
    case _ => false
  }

  predicate OfCreate(act: Act, id: Id) { act == Insert(id) || act == AnnounceCreated(id) }

  /** A step moves only the request it belongs to. */
  lemma OthersLeave(reg: Registry, next: Registry, act: Act)
    requires next == RegistryStep(reg, act) || next == reg
    ensures forall op: nat :: op < |reg.deletes| && !OfDelete(act, op) ==>
      op < |next.deletes| && next.deletes[op] == reg.deletes[op]
    ensures forall id :: id in reg.creates && !OfCreate(act, id) ==>
      id in next.creates && next.creates[id] == reg.creates[id]
  {
  }
}
