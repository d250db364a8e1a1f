/** A lifecycle client that keeps its own set: it replaces the set on a snapshot and adds or
    removes one id on each event. Stale buffered events follow a lag snapshot, because the
    server does not resubscribe then; this module says exactly when that is harmless. */
module FoldFollower {
  import opened PaneRegistry
  import opened LifecycleStream

  function ApplyEvent(view: set<Id>, event: LifecycleEvent): set<Id> {
    match event
    case Created(id) => view + {id}
    case Deleted(id) => view - {id}
  }

  function ApplyFrame(view: set<Id>, frame: Frame): set<Id> {
    match frame
    case Snapshot(ids) => ids
    case Event(event) => ApplyEvent(view, event)
  }

  function ApplyEvents(view: set<Id>, events: seq<LifecycleEvent>): set<Id> {
    if events == [] then view
    else ApplyEvent(ApplyEvents(view, events[..|events| - 1]), events[|events| - 1])
  }

  function ApplyFrames(view: set<Id>, frames: seq<Frame>): set<Id> {
    if frames == [] then view
    else ApplyFrame(ApplyFrames(view, frames[..|frames| - 1]), frames[|frames| - 1])
  }

  /** `missed` are the panes that the last snapshot missed because a delete request held them
      just then. It only records the run. */
  datatype System = System(reg: Registry, conn: Conn, view: set<Id>, missed: set<Id>)

  datatype Label = Server(act: Act) | Serve | Follow

  const INIT: System := System(InitRegistry(), NEW_CONN, {}, {})

  function Step(cfg: Config, sys: System, act: Label): System {
    match act
    case Server(a) => sys.(reg := RegistryStep(sys.reg, a))
    case Serve =>
      sys.(conn := AdvanceConn(cfg, sys.reg, sys.conn), missed := AdvanceMissed(cfg, sys.reg, sys.conn, sys.missed))
    case Follow =>
      if sys.conn.queue == [] then sys
      else sys.(conn := sys.conn.(queue := sys.conn.queue[1..]), view := ApplyFrame(sys.view, sys.conn.queue[0]))
  }

  function Run(cfg: Config, labels: seq<Label>): System {
    if labels == [] then INIT
    else Step(cfg, Run(cfg, labels[..|labels| - 1]), labels[|labels| - 1])
  }

  lemma RunSnoc(cfg: Config, labels: seq<Label>, act: Label)
    ensures Run(cfg, labels + [act]) == Step(cfg, Run(cfg, labels), act)
  {
    assert (labels + [act])[..|labels|] == labels;
  }

  // ---- What the client will end up with ---------------------------------------------------

  /** What the frames sent so far, and a scan under way, will make of the view. */
  ghost function Base(cfg: Config, sys: System): set<Id> {
    match sys.conn.phase
    case Unsubscribed => sys.reg.panes
    case Snapshotting(scan) =>
      (set id | id in scan.seen && cfg.shardOf(id) < scan.shard)
      + (set id | id in sys.reg.panes && cfg.shardOf(id) >= scan.shard)
    case Listening => ApplyFrames(sys.view, sys.conn.queue)
  }

  /** What the last snapshot, or the one under way, will have missed. */
  ghost function MissedBase(cfg: Config, sys: System): set<Id> {
    if sys.conn.phase.Snapshotting?
    then sys.missed + (set id | id in Held(sys.reg) && cfg.shardOf(id) >= sys.conn.phase.scan.shard)
    else sys.missed
  }

  ghost function Outcome(cfg: Config, sys: System): set<Id>
    requires sys.conn.cursor <= |sys.reg.channel|
  {
    ApplyEvents(Base(cfg, sys), sys.reg.channel[sys.conn.cursor..])
  }

  /** Deleted was broadcast before Created, and Created is among the events the client replays
      on top of its last snapshot. */
  ghost predicate ReplaysInverted(reg: Registry, since: nat, id: Id) {
    exists i, j :: 0 <= i < j < |reg.channel| && since <= j
                   && reg.channel[i] == Deleted(id) && reg.channel[j] == Created(id)
  }

  /** What a client should end up with for a pane whose creation is announced: it keeps a dead
      pane whose inverted announcements it replays, and has every present pane but for those
      its snapshot missed and no event has restored. */
  ghost predicate Expected(reg: Registry, since: nat, missed: set<Id>, id: Id)
    requires since <= |reg.channel|
  {
    || ReplaysInverted(reg, since, id)
    || (Present(reg, id) && (id !in missed || Created(id) in reg.channel[since..]))
  }

  ghost predicate PaneInv(cfg: Config, sys: System, id: Id)
    requires sys.conn.since <= sys.conn.cursor <= |sys.reg.channel|
  {
    || sys.conn.phase.Unsubscribed? || Unannounced(sys.reg, id)
    || (id in Outcome(cfg, sys) <==> Expected(sys.reg, sys.conn.since, MissedBase(cfg, sys), id))
  }

  ghost predicate ConnInv(cfg: Config, sys: System) {
    && sys.conn.since <= sys.conn.cursor <= |sys.reg.channel|
    && (sys.conn.phase.Unsubscribed? ==> sys.conn == NEW_CONN)
    && (sys.conn.phase.Snapshotting? ==>
          && sys.conn.since == sys.conn.cursor
          && forall id :: id in sys.conn.phase.scan.seen || id in sys.missed ==>
               cfg.shardOf(id) < sys.conn.phase.scan.shard)
  }

  /** A snapshot misses a pane only for a delete under way, undone or carried out. */
  ghost predicate MissedInv(sys: System) { forall id :: id in sys.missed ==> Excused(sys.reg, id) }

  ghost predicate Inv(cfg: Config, sys: System) {
    RegistryInv(sys.reg) && ConnInv(cfg, sys) && MissedInv(sys) && forall id :: PaneInv(cfg, sys, id)
  }

  // ---- Events of one pane in the channel -----------------------------------------------------

  ghost predicate About(events: seq<LifecycleEvent>, id: Id) { Created(id) in events || Deleted(id) in events }

  /** The event numbered k is the last one about this pane. */
  ghost predicate LastAbout(events: seq<LifecycleEvent>, k: nat, id: Id) {
    k < |events| && events[k].id == id && !About(events[k + 1..], id)
  }

  lemma LastAboutGrows(events: seq<LifecycleEvent>, event: LifecycleEvent, k: nat, id: Id)
    requires LastAbout(events, k, id) && event.id != id
    ensures LastAbout(events + [event], k, id)
  {
    assert (events + [event])[k + 1..] == events[k + 1..] + [event];
  }

  /** Whether a replay ends with the pane depends on its last event, if there is one. */
  lemma {:induction false} ReplayByLastEvent(view: set<Id>, events: seq<LifecycleEvent>, id: Id)
    ensures !About(events, id) ==> (id in ApplyEvents(view, events) <==> id in view)
    ensures About(events, id) ==>
      exists k: nat :: LastAbout(events, k, id) && (id in ApplyEvents(view, events) <==> events[k].Created?)
  {
    if events != [] {
      var n := |events| - 1;
      var init := events[..n];
      ReplayByLastEvent(view, init, id);
      assert events == init + [events[n]];
      if events[n].id == id {
        assert events[n + 1..] == [];
        assert LastAbout(events, n, id);
      } else if About(init, id) {
        var k: nat :| LastAbout(init, k, id) && (id in ApplyEvents(view, init) <==> init[k].Created?);
        LastAboutGrows(init, events[n], k, id);
        assert events[k] == init[k];
      }
    }
  }

  /** A replay forgets what the view said about a pane as soon as an event is about it. */
  lemma {:induction false} ReplayLocal(v: set<Id>, w: set<Id>, events: seq<LifecycleEvent>, id: Id)
    requires About(events, id) || (id in v <==> id in w)
    ensures id in ApplyEvents(v, events) <==> id in ApplyEvents(w, events)
  {
    if events != [] {
      var n := |events| - 1;
      assert events == events[..n] + [events[n]];
      if events[n].id != id { ReplayLocal(v, w, events[..n], id); }
    }
  }

  lemma {:induction false} ReplayFromFirst(view: set<Id>, events: seq<LifecycleEvent>)
    requires events != []
    ensures ApplyEvents(view, events) == ApplyEvents(ApplyEvent(view, events[0]), events[1..])
  {
    var n := |events| - 1;
    if n > 0 {
      ReplayFromFirst(view, events[..n]);
      assert events[..n][1..] == events[1..][..n - 1];
    }
  }

  lemma {:induction false} ProcessFromFirst(view: set<Id>, frames: seq<Frame>)
    requires frames != []
    ensures ApplyFrames(view, frames) == ApplyFrames(ApplyFrame(view, frames[0]), frames[1..])
  {
    var n := |frames| - 1;
    if n > 0 {
      ProcessFromFirst(view, frames[..n]);
      assert frames[..n][1..] == frames[1..][..n - 1];
    }
  }

  lemma ReplayAppend(view: set<Id>, events: seq<LifecycleEvent>, event: LifecycleEvent)
    ensures ApplyEvents(view, events + [event]) == ApplyEvent(ApplyEvents(view, events), event)
  {
    assert (events + [event])[..|events|] == events;
  }

  lemma Twice<T>(s: seq<T>, x: T, i: nat, j: nat)
    requires i < j < |s| && s[i] == x && s[j] == x
    ensures multiset(s)[x] >= 2
  {
    assert s == s[..i] + [x] + s[i + 1..j] + [x] + s[j + 1..];
  }

  lemma NothingAfterLast(events: seq<LifecycleEvent>, since: nat, k: nat, id: Id)
    requires since + k < |events| && !About(events[since..][k + 1..], id)
    ensures forall m :: since + k < m < |events| ==> events[m].id != id
  {
    forall m | since + k < m < |events| ensures events[m].id != id {
      assert events[since..][k + 1..][m - since - k - 1] == events[m];
      assert events[m] == Created(events[m].id) || events[m] == Deleted(events[m].id);
    }
  }

  lemma InvertedIsReplayed(reg: Registry, since: nat, id: Id)
    requires ReplaysInverted(reg, since, id) && since <= |reg.channel|
    ensures Created(id) in reg.channel[since..] && Deleted(id) in reg.channel
  {
    var i, j :| 0 <= i < j < |reg.channel| && since <= j
                && reg.channel[i] == Deleted(id) && reg.channel[j] == Created(id);
    assert reg.channel[since..][j - since] == Created(id);
  }

  /** What the channel says about a pane whose creation is announced. */
  lemma AnnouncedPane(reg: Registry, id: Id)
    requires RegistryInv(reg) && !Unannounced(reg, id)
    ensures Deleted(id) in reg.channel ==> !Present(reg, id)
    ensures Created(id) in reg.channel && Deleted(id) !in reg.channel ==> Present(reg, id)
    ensures multiset(reg.channel)[Deleted(id)] <= 1 && multiset(reg.channel)[Created(id)] <= 1
  {
    assert Deleted(id) in reg.channel <==> multiset(reg.channel)[Deleted(id)] > 0;
    assert Created(id) in reg.channel <==> multiset(reg.channel)[Created(id)] > 0;
  }

  lemma SuffixAbout(channel: seq<LifecycleEvent>, since: nat, id: Id)
    requires since <= |channel|
    ensures Created(id) in channel[since..] ==> Created(id) in channel
    ensures Deleted(id) in channel[since..] ==> Deleted(id) in channel
  {
  }

  /** Replaying any suffix of the channel on a listing that missed nothing but these panes. */
  lemma FreshReplay(reg: Registry, listing: set<Id>, missed: set<Id>, since: nat, id: Id)
    requires RegistryInv(reg) && !Unannounced(reg, id) && since <= |reg.channel|
    requires ListAgrees(reg, listing, missed, id)
    ensures id in ApplyEvents(listing, reg.channel[since..]) <==> Expected(reg, since, missed, id)
  {
    var events := reg.channel[since..];
    AnnouncedPane(reg, id);
    SuffixAbout(reg.channel, since, id);
    ReplayByLastEvent(listing, events, id);
    if ReplaysInverted(reg, since, id) { InvertedIsReplayed(reg, since, id); }
    if About(events, id) {
      var k: nat :| LastAbout(events, k, id) && (id in ApplyEvents(listing, events) <==> events[k].Created?);
      LastEventDecides(reg, since, k, id);
      AboutIsExpected(reg, since, missed, id);
    }
  }

  /** With an event about the pane in the replay, it no longer matters what the listing missed. */
  lemma AboutIsExpected(reg: Registry, since: nat, missed: set<Id>, id: Id)
    requires RegistryInv(reg) && !Unannounced(reg, id) && since <= |reg.channel|
    requires About(reg.channel[since..], id)
    ensures Expected(reg, since, missed, id) <==> Present(reg, id) || ReplaysInverted(reg, since, id)
  {
    AnnouncedPane(reg, id);
    SuffixAbout(reg.channel, since, id);
  }

  lemma LastEventDecides(reg: Registry, since: nat, k: nat, id: Id)
    requires RegistryInv(reg) && !Unannounced(reg, id) && since + k < |reg.channel|
    requires reg.channel[since + k].id == id && !About(reg.channel[since..][k + 1..], id)
    ensures reg.channel[since + k].Created? <==> Present(reg, id) || ReplaysInverted(reg, since, id)
  {
    AnnouncedPane(reg, id);
    var at := since + k;
    NothingAfterLast(reg.channel, since, k, id);
    if reg.channel[at] == Created(id) {
      if Deleted(id) in reg.channel {
        var i :| 0 <= i < |reg.channel| && reg.channel[i] == Deleted(id);
        assert ReplaysInverted(reg, since, id);
      }
    } else {
      assert reg.channel[at] == Deleted(id);
      if ReplaysInverted(reg, since, id) {
        var i, j :| 0 <= i < j < |reg.channel| && since <= j
                    && reg.channel[i] == Deleted(id) && reg.channel[j] == Created(id);
        Twice(reg.channel, Deleted(id), i, at);
      }
    }
  }

  // ---- Preservation ----------------------------------------------------------------------------

  lemma ConnInvStep(cfg: Config, sys: System, act: Label)
    requires ConnInv(cfg, sys)
    ensures ConnInv(cfg, Step(cfg, sys, act))
  {
    if act.Server? { ChannelStep(sys.reg, act.act); }
  }

  lemma MissedInvStep(cfg: Config, sys: System, act: Label)
    requires OwnerInv(sys.reg) && MissedInv(sys)
    ensures MissedInv(Step(cfg, sys, act))
  {
    var next := Step(cfg, sys, act);
    forall id | id in next.missed ensures Excused(next.reg, id) {
      if act.Server? { ExcusedStep(sys.reg, act.act, id); }
    }
  }

  /** An announcement: the replay is longer by one event, on the same base. */
  lemma AnnounceKeepsPaneInv(cfg: Config, sys: System, act: Act, id: Id)
    requires RegistryInv(sys.reg) && RegistryInv(RegistryStep(sys.reg, act)) && ChannelAdds(sys.reg, act) != []
    requires ConnInv(cfg, sys) && ConnInv(cfg, Step(cfg, sys, Server(act))) && PaneInv(cfg, sys, id)
    ensures PaneInv(cfg, Step(cfg, sys, Server(act)), id)
  {
    var next, event := Step(cfg, sys, Server(act)), ChannelAdds(sys.reg, act)[0];
    ChannelStep(sys.reg, act);
    AnnounceStep(sys.reg, act, id);
    if !next.conn.phase.Unsubscribed? && !Unannounced(next.reg, id) {
      OutcomeGrows(cfg, sys, next, event);
      if event.id == id {
        LastAnnouncement(sys.reg, next.reg, event, sys.conn.since, MissedBase(cfg, next));
      } else {
        BaseUnchanged(cfg, sys, act, id);
        ReplayLocal(Base(cfg, sys), Base(cfg, next), sys.reg.channel[sys.conn.cursor..], id);
        ExpectedUnchanged(sys.reg, next.reg, event, sys.conn.since, MissedBase(cfg, sys), MissedBase(cfg, next), id);
      }
    }
  }

  lemma OutcomeGrows(cfg: Config, sys: System, next: System, event: LifecycleEvent)
    requires next.reg.channel == sys.reg.channel + [event] && next.conn == sys.conn
    requires sys.conn.cursor <= |sys.reg.channel|
    ensures Outcome(cfg, next)
         == ApplyEvent(ApplyEvents(Base(cfg, next), sys.reg.channel[sys.conn.cursor..]), event)
  {
    assert next.reg.channel[sys.conn.cursor..] == sys.reg.channel[sys.conn.cursor..] + [event];
    ReplayAppend(Base(cfg, next), sys.reg.channel[sys.conn.cursor..], event);
  }

  lemma BaseUnchanged(cfg: Config, sys: System, act: Act, id: Id)
    requires var next := RegistryStep(sys.reg, act);
      next.panes == sys.reg.panes && (IsHeld(next, id) <==> IsHeld(sys.reg, id))
    ensures var next := Step(cfg, sys, Server(act));
      Base(cfg, next) == Base(cfg, sys) && (id in MissedBase(cfg, next) <==> id in MissedBase(cfg, sys))
  {
  }

  lemma LastAnnouncement(reg: Registry, next: Registry, event: LifecycleEvent, since: nat, missed: set<Id>)
    requires RegistryInv(next) && !Unannounced(next, event.id)
    requires next.channel == reg.channel + [event] && since <= |reg.channel|
    ensures event.Created? <==> Expected(next, since, missed, event.id)
  {
    var n := |reg.channel|;
    assert next.channel[since..][n - since] == event;
    assert next.channel[since..][n - since + 1..] == [];
    LastEventDecides(next, since, n - since, event.id);
    AboutIsExpected(next, since, missed, event.id);
  }

  lemma ExpectedUnchanged(reg: Registry, next: Registry, event: LifecycleEvent, since: nat,
                          missed: set<Id>, missed': set<Id>, id: Id)
    requires next.channel == reg.channel + [event] && event.id != id && since <= |reg.channel|
    requires (Present(next, id) <==> Present(reg, id)) && (id in missed' <==> id in missed)
    ensures Expected(next, since, missed', id) <==> Expected(reg, since, missed, id)
  {
    InversionsUnchanged(reg, next, event, since, id);
    assert next.channel[since..] == reg.channel[since..] + [event];
  }

  lemma InversionsUnchanged(reg: Registry, next: Registry, event: LifecycleEvent, since: nat, id: Id)
    requires next.channel == reg.channel + [event] && event.id != id
    ensures ReplaysInverted(next, since, id) <==> ReplaysInverted(reg, since, id)
  {
    if ReplaysInverted(next, since, id) {
      var i, j :| 0 <= i < j < |next.channel| && since <= j
                  && next.channel[i] == Deleted(id) && next.channel[j] == Created(id);
      assert reg.channel[i] == Deleted(id) && reg.channel[j] == Created(id);
    }
    if ReplaysInverted(reg, since, id) {
      var i, j :| 0 <= i < j < |reg.channel| && since <= j
                  && reg.channel[i] == Deleted(id) && reg.channel[j] == Created(id);
      assert next.channel[i] == Deleted(id) && next.channel[j] == Created(id);
    }
  }

  /** Any other step of the server: a pane still to be read by a scan may change hands between
      the registry and a delete request, which moves it between the listing and what that
      listing will have missed. */
  lemma SilentKeepsPaneInv(cfg: Config, sys: System, act: Act, id: Id)
    requires RegistryInv(sys.reg) && RegistryInv(RegistryStep(sys.reg, act)) && ChannelAdds(sys.reg, act) == []
    requires ConnInv(cfg, sys) && PaneInv(cfg, sys, id)
    ensures ConnInv(cfg, Step(cfg, sys, Server(act))) && PaneInv(cfg, Step(cfg, sys, Server(act)), id)
  {
    var next := Step(cfg, sys, Server(act));
    ConnInvStep(cfg, sys, Server(act));
    ChannelStep(sys.reg, act);
    SilentStep(sys.reg, act, id);
    assert next.reg.channel == sys.reg.channel;
    if next.conn.phase.Unsubscribed? || Unannounced(next.reg, id) { return; }
    if next.conn.phase.Snapshotting? && cfg.shardOf(id) >= next.conn.phase.scan.shard {
      assert ListAgrees(next.reg, Base(cfg, next), MissedBase(cfg, next), id);
      FreshReplay(next.reg, Base(cfg, next), MissedBase(cfg, next), next.conn.since, id);
    } else {
      ReplayLocal(Base(cfg, sys), Base(cfg, next), sys.reg.channel[sys.conn.cursor..], id);
      assert ReplaysInverted(next.reg, sys.conn.since, id) <==> ReplaysInverted(sys.reg, sys.conn.since, id);
    }
  }

  lemma ServerKeepsPaneInv(cfg: Config, sys: System, act: Act, id: Id)
    requires RegistryInv(sys.reg) && ConnInv(cfg, sys) && PaneInv(cfg, sys, id)
    ensures ConnInv(cfg, Step(cfg, sys, Server(act))) && PaneInv(cfg, Step(cfg, sys, Server(act)), id)
  {
    RegistryStepKeepsInv(sys.reg, act);
    ConnInvStep(cfg, sys, Server(act));
    if ChannelAdds(sys.reg, act) == [] {
      SilentKeepsPaneInv(cfg, sys, act, id);
    } else {
      AnnounceKeepsPaneInv(cfg, sys, act, id);
    }
  }

  /** A listing starts from the current registry, and a scan reads from it. */
  lemma SnapshotKeepsPaneInv(cfg: Config, sys: System, id: Id)
    requires ValidConfig(cfg) && RegistryInv(sys.reg) && ConnInv(cfg, sys) && PaneInv(cfg, sys, id)
    requires !Unannounced(sys.reg, id) && !sys.conn.phase.Listening?
    requires ConnInv(cfg, Step(cfg, sys, Serve))
    ensures PaneInv(cfg, Step(cfg, sys, Serve), id)
  {
    var next := Step(cfg, sys, Serve);
    if sys.conn.phase.Unsubscribed? {
      BeginsFresh(cfg, next, id);
    } else {
      if next.conn.phase.Listening? { assert next.conn.queue[..|sys.conn.queue|] == sys.conn.queue; }
      ReplayLocal(Base(cfg, sys), Base(cfg, next), sys.reg.channel[sys.conn.cursor..], id);
    }
  }

  /** At the beginning of a listing, nothing has been read. */
  lemma BeginsFresh(cfg: Config, next: System, id: Id)
    requires RegistryInv(next.reg) && !Unannounced(next.reg, id) && ConnInv(cfg, next)
    requires next.conn.phase == Snapshotting(Scan(0, {})) && next.missed == {}
    ensures PaneInv(cfg, next, id)
  {
    assert Base(cfg, next) == next.reg.panes;
    assert MissedBase(cfg, next) == Held(next.reg);
    assert ListAgrees(next.reg, next.reg.panes, Held(next.reg), id);
    FreshReplay(next.reg, next.reg.panes, Held(next.reg), next.conn.since, id);
  }

  lemma ReceiveKeepsOutcome(cfg: Config, sys: System)
    requires sys.conn.phase.Listening? && sys.conn.cursor < |sys.reg.channel|
    requires Step(cfg, sys, Serve).conn.phase.Listening?
    ensures var next := Step(cfg, sys, Serve);
      next.conn.cursor <= |next.reg.channel| && Outcome(cfg, next) == Outcome(cfg, sys)
  {
    var next := Step(cfg, sys, Serve);
    assert next.conn.queue[..|sys.conn.queue|] == sys.conn.queue;
    var rest := sys.reg.channel[sys.conn.cursor..];
    ReplayFromFirst(Base(cfg, sys), rest);
    assert rest[1..] == next.reg.channel[next.conn.cursor..];
  }

  /** Receiving an event moves it from the channel to the frames; a lag starts a listing. */
  lemma ReceiveKeepsPaneInv(cfg: Config, sys: System, id: Id)
    requires RegistryInv(sys.reg) && ConnInv(cfg, sys) && PaneInv(cfg, sys, id)
    requires !Unannounced(sys.reg, id) && sys.conn.phase.Listening?
    requires ConnInv(cfg, Step(cfg, sys, Serve))
    ensures PaneInv(cfg, Step(cfg, sys, Serve), id)
  {
    var next := Step(cfg, sys, Serve);
    if sys.conn.cursor < |sys.reg.channel| {
      if next.conn.phase.Listening? { ReceiveKeepsOutcome(cfg, sys); } else { BeginsFresh(cfg, next, id); }
    }
  }

  lemma ServeKeepsPaneInv(cfg: Config, sys: System, id: Id)
    requires ValidConfig(cfg) && RegistryInv(sys.reg) && ConnInv(cfg, sys) && PaneInv(cfg, sys, id)
    requires ConnInv(cfg, Step(cfg, sys, Serve))
    ensures PaneInv(cfg, Step(cfg, sys, Serve), id)
  {
    if Unannounced(sys.reg, id) { return; }
    if sys.conn.phase.Listening? { ReceiveKeepsPaneInv(cfg, sys, id); } else { SnapshotKeepsPaneInv(cfg, sys, id); }
  }

  lemma FollowKeepsPaneInv(cfg: Config, sys: System, id: Id)
    requires ConnInv(cfg, sys) && PaneInv(cfg, sys, id)
    ensures ConnInv(cfg, Step(cfg, sys, Follow)) && PaneInv(cfg, Step(cfg, sys, Follow), id)
  {
    ConnInvStep(cfg, sys, Follow);
    if sys.conn.queue != [] { ProcessFromFirst(sys.view, sys.conn.queue); }
    assert Base(cfg, Step(cfg, sys, Follow)) == Base(cfg, sys);
  }

  lemma StepKeepsInv(cfg: Config, sys: System, act: Label)
    requires ValidConfig(cfg) && Inv(cfg, sys)
    ensures Inv(cfg, Step(cfg, sys, act))
  {
    ConnInvStep(cfg, sys, act);
    MissedInvStep(cfg, sys, act);
    if act.Server? { RegistryStepKeepsInv(sys.reg, act.act); }
    forall id ensures PaneInv(cfg, Step(cfg, sys, act), id) {
      match act
      case Server(a) => ServerKeepsPaneInv(cfg, sys, a, id);
      case Serve => ServeKeepsPaneInv(cfg, sys, id);
      case Follow => FollowKeepsPaneInv(cfg, sys, id);
    }
  }

  lemma {:induction false} RunKeepsInv(cfg: Config, labels: seq<Label>)
    requires ValidConfig(cfg)
    ensures Inv(cfg, Run(cfg, labels))
  {
    if labels != [] {
      RunKeepsInv(cfg, labels[..|labels| - 1]);
      StepKeepsInv(cfg, Run(cfg, labels[..|labels| - 1]), labels[|labels| - 1]);
    }
  }

  // ---- Convergence ---------------------------------------------------------------------------------

  ghost predicate Quiet(sys: System) {
    && AllHandlersDone(sys.reg)
    && sys.conn.phase.Listening? && sys.conn.cursor == |sys.reg.channel| && sys.conn.queue == []
  }

  /** The last snapshot read the registry while a delete request, undone since, had the pane
      out of it, and the client received no Created for it afterwards. */
  ghost predicate MissedForGood(sys: System, id: Id)
    requires sys.conn.since <= |sys.reg.channel|
  {
    id in sys.missed && id in sys.reg.panes && Created(id) !in sys.reg.channel[sys.conn.since..]
  }

  /** Once everything is quiet, the client's set agrees with the registry on a pane if and only
      if the client did not replay, on top of its last snapshot, a Created that was broadcast
      after the Deleted of the same id, and did not miss the pane for good. */
  lemma FoldConvergesIff(cfg: Config, labels: seq<Label>, id: Id)
    requires ValidConfig(cfg) && Quiet(Run(cfg, labels))
    ensures var sys := Run(cfg, labels);
      && sys.conn.since <= |sys.reg.channel|
      && ((id in sys.view <==> id in sys.reg.panes)
            <==> !ReplaysInverted(sys.reg, sys.conn.since, id) && !MissedForGood(sys, id))
      && (MissedForGood(sys, id) ==> id in sys.reg.undone)
  {
    RunKeepsInv(cfg, labels);
    var sys := Run(cfg, labels);
    DoneMeansNotPending(sys.reg, id);
    AnnouncedPane(sys.reg, id);
    assert PaneInv(cfg, sys, id);
    assert sys.reg.channel[sys.conn.cursor..] == [];
    if ReplaysInverted(sys.reg, sys.conn.since, id) { InvertedIsReplayed(sys.reg, sys.conn.since, id); }
    if MissedForGood(sys, id) { ExcusedAndListed(sys.reg, id); }
  }

  lemma InvertedFromStart(reg: Registry, since: nat, id: Id)
    ensures ReplaysInverted(reg, since, id) ==> ReplaysInverted(reg, 0, id)
  {
  }

  /** In particular: with no failed kill, and each Created before its Deleted in the channel,
      the client ends with exactly the registry's panes, through any number of lag snapshots
      and the stale events after them. */
  lemma FoldConverges(cfg: Config, labels: seq<Label>)
    requires ValidConfig(cfg) && Quiet(Run(cfg, labels)) && Run(cfg, labels).reg.undone == {}
    requires forall id :: !ReplaysInverted(Run(cfg, labels).reg, 0, id)
    ensures Run(cfg, labels).view == Run(cfg, labels).reg.panes
  {
    var sys := Run(cfg, labels);
    forall id ensures id in sys.view <==> id in sys.reg.panes {
      FoldConvergesIff(cfg, labels, id);
      InvertedFromStart(sys.reg, sys.conn.since, id);
    }
  }
}
