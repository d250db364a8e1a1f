/** The heartbeat of client/lib/terminal_ui/pane_socket.ex: two timers, nonces, tokens and a
    mailbox that may hold messages of the past. Ping and Pong are those of sections 5.5.2 and
    5.5.3 of RFC 6455; close code 4000 is in the private range of its section 7.4.2. */
module Heartbeat {
  import opened Wrappers

  const HEARTBEAT_INTERVAL_MS: nat := 5000
  const HEARTBEAT_TIMEOUT_MS: nat := 5000

  /** make_ref() and Process.send_after() draw from one supply of fresh references. */
  type Ref = nat

  datatype Message = HeartbeatTick(nonce: Ref) | HeartbeatTimeout(nonce: Ref, token: Ref)

  datatype Timer = Timer(deadline: nat, msg: Message)

  datatype State = State(
    connectionNonce: Option<Ref>, tickRef: Option<Ref>, timeoutRef: Option<Ref>,
    pendingToken: Option<Ref>, lastActivity: Option<nat>)

  const NEW_STATE: State := State(None, None, None, None, None)

  /** The process and its surroundings: the clock, the armed timers, and the messages of fired
      timers, in no particular order. `connected` records connects and disconnects. */
  datatype World = World(
    st: State, now: nat, armed: map<Ref, Timer>, mailbox: map<Ref, Timer>, nextRef: Ref, connected: bool)

  const START: World := World(NEW_STATE, 0, map[], map[], 0, false)

  datatype Reply = NoReply | Ping | Close

  // ---- The helpers of the module -------------------------------------------------------

  function CancelTick(w: World): World {
    if w.st.tickRef.None? then w
    else w.(armed := w.armed - {w.st.tickRef.value}, st := w.st.(tickRef := None))
  }

  function CancelTimeout(w: World): World {
    if w.st.timeoutRef.None? then w
    else w.(armed := w.armed - {w.st.timeoutRef.value}, st := w.st.(timeoutRef := None))
  }

  function SendAfter(w: World, msg: Message, delay: nat): World {
    w.(armed := w.armed[w.nextRef := Timer(w.now + delay, msg)], nextRef := w.nextRef + 1)
  }

  /** schedule_heartbeat_tick; only called once a connection has a nonce. */
  function ScheduleTick(w: World): World {
    var w1 := CancelTick(w);
    if w1.st.connectionNonce.None? then w1 else ArmTick(w1, w1.st.connectionNonce.value)
  }

  function ArmTick(w: World, nonce: Ref): World {
    SendAfter(w, HeartbeatTick(nonce), HEARTBEAT_INTERVAL_MS).(st := w.st.(tickRef := Some(w.nextRef)))
  }

  function EndHeartbeat(w: World): World {
    var w1 := CancelTimeout(CancelTick(w));
    w1.(st := w1.st.(pendingToken := None))
  }

  function NoteSocketActivity(w: World): World {
    var w1 := CancelTimeout(w);
    w1.(st := w1.st.(pendingToken := None, lastActivity := Some(w.now)))
  }

  predicate RecentlyActive(w: World) {
    w.st.lastActivity.Some? && w.now - w.st.lastActivity.value < HEARTBEAT_INTERVAL_MS
  }

  // ---- The callbacks -----------------------------------------------------------------------

  /** The state of a connection that has just begun. */
  function Begun(w: World, nonce: Ref): World {
    w.(st := w.st.(connectionNonce := Some(nonce), lastActivity := Some(w.now)), connected := true)
  }

  function HandleConnect(w: World): World {
    var nonce := w.nextRef;
    ScheduleTick(Begun(EndHeartbeat(w.(nextRef := w.nextRef + 1)), nonce))
  }

  function HandleDisconnect(w: World): World { EndHeartbeat(w).(connected := false) }

  function HandleTick(w: World, nonce: Ref): (World, Reply) {
    if w.st.connectionNonce != Some(nonce) then (w, NoReply)
    else if w.st.pendingToken.Some? then (ScheduleTick(w.(st := w.st.(tickRef := None))), NoReply)
    else if RecentlyActive(w) then (ScheduleTick(w.(st := w.st.(tickRef := None))), NoReply)
    else
      var token, timeoutRef := w.nextRef, w.nextRef + 1;
      var w1 := SendAfter(w.(nextRef := w.nextRef + 1), HeartbeatTimeout(nonce, token), HEARTBEAT_TIMEOUT_MS);
      var w2 := CancelTimeout(w1);
      (ScheduleTick(w2.(st := w2.st.(tickRef := None, timeoutRef := Some(timeoutRef), pendingToken := Some(token)))),
       Ping)
  }

  function HandleTimeout(w: World, nonce: Ref, token: Ref): (World, Reply) {
    if w.st.connectionNonce != Some(nonce) then (w, NoReply)
    else if w.st.pendingToken != Some(token) then (w, NoReply)
    else
      var w1 := CancelTimeout(w);
      (w1.(st := w1.st.(pendingToken := None)), Close)
  }

  function HandleInfo(w: World, msg: Message): (World, Reply) {
    match msg
    case HeartbeatTick(nonce) => HandleTick(w, nonce)
    case HeartbeatTimeout(nonce, token) => HandleTimeout(w, nonce, token)
  }

  // ---- Runs ------------------------------------------------------------------------------------

  /** `Inbound` is any frame, ping or pong. Timers fire at or after their deadline, and their
      messages are delivered at any later time and in any order. */
  datatype Label = Connect | Inbound | Disconnect | Elapse(ms: nat) | Fire(timer: Ref) | Deliver(timer: Ref)

  function StepWithReply(w: World, act: Label): (World, Reply) {
    match act
    case Connect => (HandleConnect(w), NoReply)
    case Inbound => (NoteSocketActivity(w), NoReply)
    case Disconnect => (HandleDisconnect(w), NoReply)
    case Elapse(ms) => (w.(now := w.now + ms), NoReply)
    case Fire(r) =>
      if r in w.armed && w.armed[r].deadline <= w.now
      then (w.(armed := w.armed - {r}, mailbox := w.mailbox[r := w.armed[r]]), NoReply)
      else (w, NoReply)
    case Deliver(r) =>
      if r in w.mailbox then HandleInfo(w.(mailbox := w.mailbox - {r}), w.mailbox[r].msg) else (w, NoReply)
  }

  function Step(w: World, act: Label): World { StepWithReply(w, act).0 }

  function Run(labels: seq<Label>): World {
    if labels == [] then START else Step(Run(labels[..|labels| - 1]), labels[|labels| - 1])
  }

  // ---- Structural invariant -----------------------------------------------------------------------

  /** The timer with this reference, armed or fired but not delivered. */
  predicate Live(w: World, r: Ref) { r in w.armed || r in w.mailbox }

  function TimerOf(w: World, r: Ref): Timer
    requires Live(w, r)
  {
    if r in w.armed then w.armed[r] else w.mailbox[r]
  }

  ghost predicate IsTick(w: World, r: Ref, nonce: Ref) {
    Live(w, r) && TimerOf(w, r).msg == HeartbeatTick(nonce)
  }

  function RefsOf(msg: Message): set<Ref> {
    match msg
    case HeartbeatTick(nonce) => {nonce}
    case HeartbeatTimeout(nonce, token) => {nonce, token}
  }

  /** Every reference in use was drawn from the supply; only due timers have fired. */
  ghost predicate RefsDrawn(w: World) {
    && (forall r: Ref :: Live(w, r) ==> r < w.nextRef)
    && (forall r: Ref :: Live(w, r) ==> forall x :: x in RefsOf(TimerOf(w, r).msg) ==> x < w.nextRef)
    && (w.st.connectionNonce.Some? ==> w.st.connectionNonce.value < w.nextRef)
    && (w.st.pendingToken.Some? ==> w.st.pendingToken.value < w.nextRef)
    && (forall r: Ref :: !(r in w.armed && r in w.mailbox))
    && (forall r: Ref :: r in w.mailbox ==> w.mailbox[r].deadline <= w.now)
  }

  /** At most one tick per nonce is armed or in the mailbox; an armed tick is the current one. */
  ghost predicate TickInv(w: World) {
    && (forall r: Ref, s: Ref, n: Ref :: IsTick(w, r, n) && IsTick(w, s, n) ==> r == s)
    && (forall r: Ref :: r in w.armed && w.armed[r].msg.HeartbeatTick? ==>
          w.st.tickRef == Some(r) && w.st.connectionNonce == Some(w.armed[r].msg.nonce))
    && (w.st.tickRef.Some? && w.st.tickRef.value in w.armed ==> w.armed[w.st.tickRef.value].msg.HeartbeatTick?)
    && (w.st.tickRef.Some? ==> w.st.tickRef.value < w.nextRef)
  }

  /** A token is pending iff there is a timeout reference, and then a matching timeout of the
      current connection is armed or queued. */
  ghost predicate TokenInv(w: World) {
    && (w.st.pendingToken.Some? <==> w.st.timeoutRef.Some?)
    && (w.st.pendingToken.Some? ==>
          && w.st.connectionNonce.Some? && Live(w, w.st.timeoutRef.value)
          && TimerOf(w, w.st.timeoutRef.value).msg
               == HeartbeatTimeout(w.st.connectionNonce.value, w.st.pendingToken.value))
  }

  /** The only timeouts that carry the pending token fall due 10 s or more after the last
      activity. */
  ghost predicate DueInv(w: World) {
    && (w.st.connectionNonce.Some? ==> w.st.lastActivity.Some?)
    && (w.st.lastActivity.Some? ==> w.st.lastActivity.value <= w.now)
    && forall r: Ref :: Live(w, r) && TimesOut(TimerOf(w, r).msg, w.st.pendingToken) ==>
         w.st.timeoutRef == Some(r) && w.st.lastActivity.Some?
         && TimerOf(w, r).deadline >= w.st.lastActivity.value + HEARTBEAT_INTERVAL_MS + HEARTBEAT_TIMEOUT_MS
  }

  predicate TimesOut(msg: Message, token: Option<Ref>) {
    msg.HeartbeatTimeout? && token == Some(msg.token)
  }

  ghost predicate Inv(w: World) { RefsDrawn(w) && TickInv(w) && TokenInv(w) && DueInv(w) }

  // ---- Preservation ---------------------------------------------------------------------------------

  /** Every live timer of v is one of w. */
  ghost predicate Fewer(v: World, w: World) {
    forall r: Ref :: Live(v, r) ==> Live(w, r) && TimerOf(v, r) == TimerOf(w, r)
  }

  lemma FewerTicks(v: World, w: World)
    requires Fewer(v, w)
    ensures forall r: Ref, n: Ref :: IsTick(v, r, n) ==> IsTick(w, r, n)
  {
  }

  lemma OneMore(v: World, u: World, fresh_: Ref)
    requires forall r: Ref :: Live(v, r) && r != fresh_ ==> Live(u, r) && TimerOf(v, r) == TimerOf(u, r)
    ensures forall r: Ref, n: Ref :: IsTick(v, r, n) && r != fresh_ ==> IsTick(u, r, n)
  {
  }

  lemma CancelTickKeepsTimers(w: World)
    requires Inv(w)
    ensures RefsDrawn(CancelTick(w)) && TickInv(CancelTick(w)) && Fewer(CancelTick(w), w)
    ensures forall r: Ref, n: Ref :: IsTick(CancelTick(w), r, n) ==> r in w.mailbox
  {
    FewerTicks(CancelTick(w), w);
  }

  lemma CancelTickKeepsToken(w: World)
    requires RefsDrawn(w) && TickInv(w) && TokenInv(w) && DueInv(w)
    ensures TokenInv(CancelTick(w)) && DueInv(CancelTick(w))
  {
    var v := CancelTick(w);
    forall r: Ref | Live(v, r) && TimesOut(TimerOf(v, r).msg, v.st.pendingToken)
      ensures v.st.timeoutRef == Some(r) && v.st.lastActivity.Some?
      ensures TimerOf(v, r).deadline >= v.st.lastActivity.value + HEARTBEAT_INTERVAL_MS + HEARTBEAT_TIMEOUT_MS
    {
      assert Live(w, r) && TimerOf(v, r) == TimerOf(w, r);
    }
  }

  lemma CancelTickKeepsInv(w: World)
    requires Inv(w)
    ensures Inv(CancelTick(w))
    ensures forall r: Ref, n: Ref :: IsTick(CancelTick(w), r, n) ==> r in w.mailbox
  {
    CancelTickKeepsTimers(w);
    CancelTickKeepsToken(w);
  }

  function ClearToken(w: World): World {
    var w1 := CancelTimeout(w);
    w1.(st := w1.st.(pendingToken := None))
  }

  lemma ClearTokenKeepsInv(w: World)
    requires Inv(w)
    ensures Inv(ClearToken(w))
  {
    var v := ClearToken(w);
    FewerTicks(v, w);
  }

  /** Scheduling is safe once no tick of the connection is left in the mailbox. */
  lemma ScheduleTickKeepsInv(w: World)
    requires Inv(w) && w.st.connectionNonce.Some?
    requires forall r: Ref :: IsTick(w, r, w.st.connectionNonce.value) ==> r in w.armed
    ensures Inv(ScheduleTick(w))
  {
    CancelTickKeepsInv(w);
    NoTickLeft(w, w.st.connectionNonce.value);
    ArmTickKeepsTimers(CancelTick(w), w.st.connectionNonce.value);
    ArmTickKeepsToken(CancelTick(w), w.st.connectionNonce.value);
  }

  lemma NoTickLeft(w: World, nonce: Ref)
    requires TickInv(w) && RefsDrawn(w)
    requires forall r: Ref :: IsTick(w, r, nonce) ==> r in w.armed
    ensures forall r: Ref :: !IsTick(CancelTick(w), r, nonce)
    ensures forall r: Ref :: r in CancelTick(w).armed ==> CancelTick(w).armed[r].msg.HeartbeatTimeout?
  {
    FewerTicks(CancelTick(w), w);
  }

  lemma ArmTickKeepsTimers(u: World, nonce: Ref)
    requires RefsDrawn(u) && TickInv(u) && u.st.connectionNonce == Some(nonce)
    requires forall r: Ref :: !IsTick(u, r, nonce)
    requires forall r: Ref :: r in u.armed ==> u.armed[r].msg.HeartbeatTimeout?
    ensures RefsDrawn(ArmTick(u, nonce)) && TickInv(ArmTick(u, nonce))
  {
    assert !Live(u, u.nextRef);
    OneMore(ArmTick(u, nonce), u, u.nextRef);
  }

  lemma ArmTickKeepsToken(u: World, nonce: Ref)
    requires RefsDrawn(u) && TokenInv(u) && DueInv(u)
    ensures TokenInv(ArmTick(u, nonce)) && DueInv(ArmTick(u, nonce))
  {
  }

  lemma EndKeepsInv(w: World)
    requires Inv(w)
    ensures var v := EndHeartbeat(w);
      && Inv(v) && v.now == w.now && v.nextRef == w.nextRef && v.st.pendingToken.None? && v.st.tickRef.None?
      && (forall r: Ref :: r in v.armed ==> v.armed[r].msg.HeartbeatTimeout?)
      && (forall r: Ref, n: Ref :: IsTick(v, r, n) ==> IsTick(w, r, n))
  {
    CancelTickKeepsInv(w);
    ClearTokenKeepsInv(CancelTick(w));
    assert EndHeartbeat(w) == ClearToken(CancelTick(w));
    FewerTicks(EndHeartbeat(w), w);
  }

  /** make_ref(): the reference is the old nextRef. */
  function Draw(w: World): World { w.(nextRef := w.nextRef + 1) }

  lemma DrawKeepsInv(w: World)
    requires Inv(w)
    ensures Inv(Draw(w))
    ensures forall r: Ref, n: Ref :: IsTick(Draw(w), r, n) ==> n < w.nextRef
  {
    FewerTicks(Draw(w), w);
    forall r: Ref, n: Ref | IsTick(w, r, n) ensures n < w.nextRef {
      assert n in RefsOf(TimerOf(w, r).msg);
    }
  }

  lemma ConnectKeepsInv(w: World)
    requires Inv(w)
    ensures Inv(HandleConnect(w))
  {
    DrawKeepsInv(w);
    EndKeepsInv(Draw(w));
    NewNonceKeepsInv(EndHeartbeat(Draw(w)), w.nextRef);
  }

  /** The old heartbeat is over; a connection begins with a fresh nonce. */
  lemma NewNonceKeepsInv(w1: World, nonce: Ref)
    requires Inv(w1) && w1.st.pendingToken.None? && w1.st.tickRef.None? && nonce < w1.nextRef
    requires forall r: Ref :: r in w1.armed ==> w1.armed[r].msg.HeartbeatTimeout?
    requires forall r: Ref :: !IsTick(w1, r, nonce)
    ensures Inv(ScheduleTick(Begun(w1, nonce)))
  {
    var w2 := Begun(w1, nonce);
    FewerTicks(w2, w1);
    ScheduleTickKeepsInv(w2);
  }

  lemma ActivityKeepsInv(w: World)
    requires Inv(w)
    ensures Inv(NoteSocketActivity(w))
  {
    ClearTokenKeepsInv(w);
    var v := NoteSocketActivity(w);
    FewerTicks(v, ClearToken(w));
  }

  lemma ConsumeKeepsInv(w: World, r: Ref)
    requires Inv(w) && r in w.mailbox && w.st.timeoutRef != Some(r)
    ensures Inv(w.(mailbox := w.mailbox - {r}))
  {
    var v := w.(mailbox := w.mailbox - {r});
    FewerTicks(v, w);
  }

  lemma TickKeepsInv(w: World, r: Ref)
    requires Inv(w) && r in w.mailbox && w.mailbox[r].msg.HeartbeatTick?
    ensures Inv(Step(w, Deliver(r)))
  {
    var nonce := w.mailbox[r].msg.nonce;
    ConsumeKeepsInv(w, r);
    var v := w.(mailbox := w.mailbox - {r});
    if v.st.connectionNonce == Some(nonce) {
      LastTickTaken(w, r, nonce);
      CurrentTickKeepsInv(v, nonce);
    }
  }

  /** The only tick of the connection has been taken from the mailbox. */
  lemma LastTickTaken(w: World, r: Ref, nonce: Ref)
    requires Inv(w) && r in w.mailbox && w.mailbox[r].msg == HeartbeatTick(nonce)
    requires w.st.connectionNonce == Some(nonce)
    ensures var v := w.(mailbox := w.mailbox - {r});
      && (forall s: Ref :: !IsTick(v, s, nonce))
      && (forall s: Ref :: s in v.armed ==> v.armed[s].msg.HeartbeatTimeout?)
  {
    assert IsTick(w, r, nonce);
    FewerTicks(w.(mailbox := w.mailbox - {r}), w);
    assert forall s: Ref :: s in w.armed && w.armed[s].msg.HeartbeatTick? ==> IsTick(w, s, w.armed[s].msg.nonce);
  }

  lemma CurrentTickKeepsInv(v: World, nonce: Ref)
    requires Inv(v) && v.st.connectionNonce == Some(nonce) && forall s: Ref :: !IsTick(v, s, nonce)
    requires forall s: Ref :: s in v.armed ==> v.armed[s].msg.HeartbeatTimeout?
    ensures Inv(HandleTick(v, nonce).0)
  {
    var u := v.(st := v.st.(tickRef := None));
    FewerTicks(u, v);
    if v.st.pendingToken.Some? || RecentlyActive(v) {
      ScheduleTickKeepsInv(u);
    } else {
      PingKeepsInv(u, nonce);
      PingIs(v, nonce);
    }
  }

  /** The state in which a tick has decided to ping, before the next tick is scheduled. */
  function Pinged(u: World, nonce: Ref): World {
    SendAfter(u.(nextRef := u.nextRef + 1), HeartbeatTimeout(nonce, u.nextRef), HEARTBEAT_TIMEOUT_MS)
      .(st := u.st.(timeoutRef := Some(u.nextRef + 1), pendingToken := Some(u.nextRef)))
  }

  lemma PingIs(v: World, nonce: Ref)
    requires TokenInv(v) && v.st.connectionNonce == Some(nonce) && v.st.pendingToken.None? && !RecentlyActive(v)
    ensures HandleTick(v, nonce).0 == ScheduleTick(Pinged(v.(st := v.st.(tickRef := None)), nonce))
  {
  }

  lemma FreshToken(u: World)
    requires RefsDrawn(u)
    ensures forall r: Ref :: Live(u, r) ==> r < u.nextRef && !TimesOut(TimerOf(u, r).msg, Some(u.nextRef))
  {
    forall r: Ref | Live(u, r) ensures !TimesOut(TimerOf(u, r).msg, Some(u.nextRef)) {
      if TimerOf(u, r).msg.HeartbeatTimeout? { assert TimerOf(u, r).msg.token in RefsOf(TimerOf(u, r).msg); }
    }
  }

  lemma PingKeepsInv(u: World, nonce: Ref)
    requires Inv(u) && u.st.connectionNonce == Some(nonce) && u.st.pendingToken.None? && !RecentlyActive(u)
    requires forall r: Ref :: !IsTick(u, r, nonce)
    ensures Inv(ScheduleTick(Pinged(u, nonce)))
  {
    var v := Pinged(u, nonce);
    FreshToken(u);
    OneMore(v, u, u.nextRef + 1);
    ScheduleTickKeepsInv(v);
  }

  lemma TimeoutKeepsInv(w: World, r: Ref)
    requires Inv(w) && r in w.mailbox && w.mailbox[r].msg.HeartbeatTimeout?
    ensures Inv(Step(w, Deliver(r)))
  {
    var msg := w.mailbox[r].msg;
    var v := w.(mailbox := w.mailbox - {r});
    if w.st.timeoutRef != Some(r) {
      ConsumeKeepsInv(w, r);
      assert !TimesOut(msg, w.st.pendingToken);
    } else {
      ClearTokenKeepsInv(w);
      ConsumeKeepsInv(ClearToken(w), r);
      assert Step(w, Deliver(r)) == ClearToken(w).(mailbox := w.mailbox - {r});
    }
  }

  lemma FireKeepsInv(w: World, r: Ref)
    requires Inv(w)
    ensures Inv(Step(w, Fire(r)))
  {
    var v := Step(w, Fire(r));
    FewerTicks(v, w);
    assert forall s: Ref :: Live(v, s) ==> TimerOf(v, s) == TimerOf(w, s);
  }

  lemma DisconnectKeepsInv(w: World)
    requires Inv(w)
    ensures Inv(HandleDisconnect(w))
  {
    EndKeepsInv(w);
    FewerTicks(HandleDisconnect(w), EndHeartbeat(w));
  }

  /** Every callback keeps the invariant, whatever the order of messages and however late. */
  lemma StepKeepsInv(w: World, act: Label)
    requires Inv(w)
    ensures Inv(Step(w, act))
  {
    match act
    case Connect => ConnectKeepsInv(w);
    case Inbound => ActivityKeepsInv(w);
    case Disconnect => DisconnectKeepsInv(w);
    case Elapse(_) => FewerTicks(Step(w, act), w);
    case Fire(r) => FireKeepsInv(w, r);
    case Deliver(r) =>
      if r in w.mailbox {
        if w.mailbox[r].msg.HeartbeatTick? { TickKeepsInv(w, r); } else { TimeoutKeepsInv(w, r); }
      }
  }

  lemma {:induction false} RunKeepsInv(labels: seq<Label>)
    ensures Inv(Run(labels))
  {
    if labels != [] {
      RunKeepsInv(labels[..|labels| - 1]);
      StepKeepsInv(Run(labels[..|labels| - 1]), labels[|labels| - 1]);
    }
  }

  // ---- Structure and safety, under any delay and any order of messages --------------------------

  /** In every run: at most one tick per nonce is armed or queued, and a token is pending iff a
      timeout reference is kept, which then is a matching timeout, armed or queued. */
  lemma HeartbeatStructure(labels: seq<Label>, r: Ref, s: Ref, nonce: Ref)
    ensures IsTick(Run(labels), r, nonce) && IsTick(Run(labels), s, nonce) ==> r == s
    ensures TokenInv(Run(labels))
  {
    RunKeepsInv(labels);
  }

  /** The time of the last connect or inbound activity of a run. */
  function LastActivityTime(labels: seq<Label>): Option<nat> {
    if labels == [] then None
    else
      var init, act := labels[..|labels| - 1], labels[|labels| - 1];
      if act == Connect || act == Inbound then Some(Run(init).now) else LastActivityTime(init)
  }

  lemma ActivityStep(w: World, act: Label)
    ensures Step(w, act).st.lastActivity
         == if act == Connect || act == Inbound then Some(w.now) else w.st.lastActivity
  {
    if act.Deliver? { DeliverKeepsActivity(w, act.timer); }
  }

  lemma {:induction false} LastActivityIsTracked(labels: seq<Label>)
    ensures Run(labels).st.lastActivity == LastActivityTime(labels)
  {
    if labels != [] {
      LastActivityIsTracked(labels[..|labels| - 1]);
      ActivityStep(Run(labels[..|labels| - 1]), labels[|labels| - 1]);
    }
  }

  /** A heartbeat closes the connection only if nothing inbound was processed, and no
      connection begun, for at least 10 s; and it is the kept, matching timeout that closes. */
  lemma CloseOnlyAfterSilence(labels: seq<Label>, act: Label)
    requires StepWithReply(Run(labels), act).1 == Close
    ensures var w := Run(labels);
      && LastActivityTime(labels).Some?
      && w.now >= LastActivityTime(labels).value + 10000
      && act.Deliver? && w.st.timeoutRef == Some(act.timer)
  {
    RunKeepsInv(labels);
    LastActivityIsTracked(labels);
    var w := Run(labels);
    assert Live(w, act.timer) && TimesOut(TimerOf(w, act.timer).msg, w.st.pendingToken);
  }

  /** Drawn in the past and not current: a token since cleared, or an older nonce. */
  predicate StaleToken(w: World, token: Ref) { token < w.nextRef && w.st.pendingToken != Some(token) }

  predicate StaleNonce(w: World, nonce: Ref) { nonce < w.nextRef && w.st.connectionNonce != Some(nonce) }

  lemma {:induction false} StaleForever(labels: seq<Label>, more: seq<Label>, x: Ref)
    ensures Run(labels).nextRef <= Run(labels + more).nextRef
    ensures StaleToken(Run(labels), x) ==> StaleToken(Run(labels + more), x)
    ensures StaleNonce(Run(labels), x) ==> StaleNonce(Run(labels + more), x)
    decreases |more|
  {
    if more == [] {
      assert labels + more == labels;
    } else {
      var n := |more| - 1;
      StaleForever(labels, more[..n], x);
      assert labels + more == (labels + more[..n]) + [more[n]];
      StaleSnoc(labels + more[..n], more[n], x);
    }
  }

  lemma StaleSnoc(labels: seq<Label>, act: Label, x: Ref)
    ensures Run(labels).nextRef <= Run(labels + [act]).nextRef
    ensures StaleToken(Run(labels), x) ==> StaleToken(Run(labels + [act]), x)
    ensures StaleNonce(Run(labels), x) ==> StaleNonce(Run(labels + [act]), x)
  {
    assert (labels + [act])[..|labels|] == labels;
    StaleStep(Run(labels), act, x);
  }

  lemma StaleStep(w: World, act: Label, x: Ref)
    ensures w.nextRef <= Step(w, act).nextRef
    ensures StaleToken(w, x) ==> StaleToken(Step(w, act), x)
    ensures StaleNonce(w, x) ==> StaleNonce(Step(w, act), x)
  {
    if act.Deliver? && act.timer in w.mailbox {
      StaleDeliver(w.(mailbox := w.mailbox - {act.timer}), w.mailbox[act.timer].msg, x);
    }
  }

  lemma StaleDeliver(w: World, msg: Message, x: Ref)
    ensures var v := HandleInfo(w, msg).0;
      && w.nextRef <= v.nextRef
      && (StaleToken(w, x) ==> StaleToken(v, x))
      && (StaleNonce(w, x) ==> StaleNonce(v, x))
  {
  }

  /** A message of an older nonce or of a token since cleared, delivered any time later, neither
      pings nor closes nor changes the socket's state. */
  lemma StaleMessagesAreInert(labels: seq<Label>, more: seq<Label>, r: Ref)
    requires r in Run(labels + more).mailbox
    requires match Run(labels + more).mailbox[r].msg
             case HeartbeatTick(nonce) => StaleNonce(Run(labels), nonce)
             case HeartbeatTimeout(nonce, token) => StaleNonce(Run(labels), nonce) || StaleToken(Run(labels), token)
    ensures var w := Run(labels + more);
      StepWithReply(w, Deliver(r)) == (w.(mailbox := w.mailbox - {r}), NoReply)
  {
    match Run(labels + more).mailbox[r].msg
    case HeartbeatTick(nonce) => StaleForever(labels, more, nonce);
    case HeartbeatTimeout(nonce, token) =>
      StaleForever(labels, more, nonce);
      StaleForever(labels, more, token);
  }

  // ---- Liveness, under prompt timers ------------------------------------------------------------------

  /** Prompt timers: time does not pass a deadline, nor an undelivered message. */
  predicate MayElapse(w: World, ms: nat) {
    w.mailbox == map[] && forall r :: r in w.armed ==> w.now + ms <= w.armed[r].deadline
  }

  function PromptStep(w: World, act: Label): World {
    if act.Elapse? && !MayElapse(w, act.ms) then w else Step(w, act)
  }

  function PromptRun(labels: seq<Label>): World {
    if labels == [] then START else PromptStep(PromptRun(labels[..|labels| - 1]), labels[|labels| - 1])
  }

  /** While connected, the next tick is due within one interval. */
  ghost predicate TickDue(w: World, r: Ref) {
    && w.st.connectionNonce.Some? && IsTick(w, r, w.st.connectionNonce.value)
    && w.now <= TimerOf(w, r).deadline <= w.now + HEARTBEAT_INTERVAL_MS
  }

  ghost predicate PromptInv(w: World) {
    && Inv(w)
    && (w.connected ==> exists r: Ref :: TickDue(w, r))
  }

  lemma ScheduledTickIsDue(w: World)
    requires w.st.connectionNonce.Some?
    ensures TickDue(ScheduleTick(w), w.nextRef)
    ensures TimerOf(ScheduleTick(w), w.nextRef).deadline == w.now + HEARTBEAT_INTERVAL_MS
  {
  }

  /** Delivering the current tick arms the next one; delivering anything else leaves it. */
  lemma DeliverKeepsTickDue(w: World, r: Ref, t: Ref)
    requires Inv(w) && r in w.mailbox && TickDue(w, t)
    ensures exists s: Ref :: TickDue(Step(w, Deliver(r)), s)
    ensures r != t ==> TickDue(Step(w, Deliver(r)), t) && TimerOf(Step(w, Deliver(r)), t) == TimerOf(w, t)
  {
    var v := w.(mailbox := w.mailbox - {r});
    if r == t {
      TickReschedules(w, t);
    } else if w.mailbox[r].msg.HeartbeatTick? {
      assert IsTick(w, r, w.mailbox[r].msg.nonce);
      assert v.st.connectionNonce != Some(w.mailbox[r].msg.nonce);
      assert Step(w, Deliver(r)) == v && TickDue(v, t);
    } else {
      assert TickDue(Step(w, Deliver(r)), t);
    }
  }

  /** The current tick, delivered: another one is due in an interval. */
  lemma TickReschedules(w: World, t: Ref)
    requires Inv(w) && t in w.mailbox && TickDue(w, t)
    ensures var v := Step(w, Deliver(t));
      exists s: Ref :: TickDue(v, s) && TimerOf(v, s).deadline == w.now + HEARTBEAT_INTERVAL_MS
  {
    var nonce := w.st.connectionNonce.value;
    var v := w.(mailbox := w.mailbox - {t});
    var u := v.(st := v.st.(tickRef := None));
    if v.st.pendingToken.Some? || RecentlyActive(v) {
      ScheduledTickIsDue(u);
      assert TickDue(Step(w, Deliver(t)), u.nextRef);
    } else {
      PingIs(v, nonce);
      ScheduledTickIsDue(Pinged(u, nonce));
      assert TickDue(Step(w, Deliver(t)), Pinged(u, nonce).nextRef);
    }
  }

  lemma PromptStepKeepsInv(w: World, act: Label)
    requires PromptInv(w)
    ensures PromptInv(PromptStep(w, act))
  {
    StepKeepsInv(w, act);
    var v := PromptStep(w, act);
    if act == Connect {
      var w1 := EndHeartbeat(Draw(w));
      ScheduledTickIsDue(Begun(w1, w.nextRef));
      assert TickDue(v, w1.nextRef);
    } else if w.connected && v.connected {
      var t: Ref :| TickDue(w, t);
      if act.Deliver? {
        if act.timer in w.mailbox { DeliverKeepsTickDue(w, act.timer, t); }
      } else {
        TickStaysDue(w, act, t);
      }
    }
  }

  lemma TickStaysDue(w: World, act: Label, t: Ref)
    requires Inv(w) && TickDue(w, t) && (act.Inbound? || act.Elapse? || act.Fire?)
    ensures TickDue(PromptStep(w, act), t)
  {
  }

  lemma {:induction false} PromptRunKeepsInv(labels: seq<Label>)
    ensures PromptInv(PromptRun(labels))
  {
    if labels != [] {
      PromptRunKeepsInv(labels[..|labels| - 1]);
      PromptStepKeepsInv(PromptRun(labels[..|labels| - 1]), labels[|labels| - 1]);
    }
  }

  /** Nothing arrives: only time passes and timers do their work. */
  predicate Silent(labels: seq<Label>) {
    forall i :: 0 <= i < |labels| ==> labels[i].Elapse? || labels[i].Fire? || labels[i].Deliver?
  }

  /** A silent stretch, and when its first heartbeat close happened. */
  datatype Watch = Watch(w: World, closedAt: Option<nat>)

  function WatchStep(x: Watch, act: Label): Watch {
    Watch(PromptStep(x.w, act),
          if x.closedAt.None? && StepWithReply(x.w, act).1 == Close then Some(x.w.now) else x.closedAt)
  }

  function WatchRun(w: World, labels: seq<Label>): Watch {
    if labels == [] then Watch(w, None)
    else
      WatchStep(WatchRun(w, labels[..|labels| - 1]), labels[|labels| - 1])
  }

  /** The first tick at or after a + 5 s, given that the next one is due at d. */
  function PingTime(a: nat, d: nat): nat {
    if d == a + HEARTBEAT_INTERVAL_MS then d else d + HEARTBEAT_INTERVAL_MS
  }

  function CloseTime(a: nat, d: nat): nat { PingTime(a, d) + HEARTBEAT_TIMEOUT_MS }

  ghost predicate NextTick(w: World, t: Ref, a: nat, d: nat) {
    && w.st.connectionNonce.Some? && IsTick(w, t, w.st.connectionNonce.value)
    && w.now <= TimerOf(w, t).deadline
    && (TimerOf(w, t).deadline == d || TimerOf(w, t).deadline == PingTime(a, d))
  }

  ghost predicate TimeoutRunning(w: World, a: nat, d: nat) {
    && w.now <= CloseTime(a, d) && w.st.timeoutRef.Some? && Live(w, w.st.timeoutRef.value)
    && TimerOf(w, w.st.timeoutRef.value).deadline == CloseTime(a, d)
  }

  ghost predicate SilentInv(x: Watch, a: nat, d: nat) {
    && Inv(x.w) && x.w.st.lastActivity == Some(a) && a <= d <= a + HEARTBEAT_INTERVAL_MS
    && match x.closedAt
       case Some(t) => t == CloseTime(a, d)
       case None =>
         if x.w.st.pendingToken.Some? then TimeoutRunning(x.w, a, d)
         else exists t: Ref :: NextTick(x.w, t, a, d)
  }

  lemma SilentStep(x: Watch, act: Label, a: nat, d: nat)
    requires SilentInv(x, a, d) && Silent([act])
    ensures SilentInv(WatchStep(x, act), a, d)
  {
    assert [act][0] == act;
    if act.Deliver? { SilentDeliver(x, act.timer, a, d); } else { SilentWait(x, act, a, d); }
  }

  lemma SilentDeliver(x: Watch, r: Ref, a: nat, d: nat)
    requires SilentInv(x, a, d)
    ensures SilentInv(WatchStep(x, Deliver(r)), a, d)
  {
    StepKeepsInv(x.w, Deliver(r));
    if r in x.w.mailbox {
      if x.closedAt.Some? {
        DeliverKeepsActivity(x.w, r);
      } else if x.w.st.pendingToken.Some? {
        SilentDeliverPending(x.w, r, a, d);
      } else {
        SilentDeliverIdle(x.w, r, a, d);
      }
    }
  }

  lemma DeliverKeepsActivity(w: World, r: Ref)
    ensures Step(w, Deliver(r)).st.lastActivity == w.st.lastActivity
  {
  }

  lemma SilentWait(x: Watch, act: Label, a: nat, d: nat)
    requires SilentInv(x, a, d) && (act.Elapse? || act.Fire?)
    ensures SilentInv(WatchStep(x, act), a, d)
  {
    StepKeepsInv(x.w, act);
    if x.closedAt.None? && x.w.st.pendingToken.None? {
      var t: Ref :| NextTick(x.w, t, a, d);
      assert NextTick(PromptStep(x.w, act), t, a, d);
    }
  }

  /** While a ping is unanswered, only the matching timeout has an effect on it. */
  lemma SilentDeliverPending(w: World, r: Ref, a: nat, d: nat)
    requires Inv(w) && w.st.lastActivity == Some(a) && w.st.pendingToken.Some? && r in w.mailbox
    requires TimeoutRunning(w, a, d)
    ensures var (v, reply) := StepWithReply(w, Deliver(r));
      && v.st.lastActivity == Some(a)
      && (reply == Close ==> w.now == CloseTime(a, d))
      && (reply != Close ==> v.st.pendingToken.Some? && TimeoutRunning(v, a, d))
  {
    var msg := w.mailbox[r].msg;
    if msg.HeartbeatTick? {
      assert r != w.st.timeoutRef.value;
      assert Live(w, w.st.timeoutRef.value) && w.st.timeoutRef.value < w.nextRef;
    } else if msg == HeartbeatTimeout(w.st.connectionNonce.value, w.st.pendingToken.value) {
      assert Live(w, r) && TimesOut(TimerOf(w, r).msg, w.st.pendingToken);
    } else {
      assert r != w.st.timeoutRef.value;
    }
  }

  /** Without a ping out, only the current tick has an effect: it pings iff it is due at
      PingTime, and otherwise arms the tick that will be. */
  lemma SilentDeliverIdle(w: World, r: Ref, a: nat, d: nat)
    requires Inv(w) && w.st.lastActivity == Some(a) && w.st.pendingToken.None? && r in w.mailbox
    requires a <= d <= a + HEARTBEAT_INTERVAL_MS && exists t: Ref :: NextTick(w, t, a, d)
    ensures var (v, reply) := StepWithReply(w, Deliver(r));
      && v.st.lastActivity == Some(a) && reply != Close
      && (v.st.pendingToken.Some? ==> TimeoutRunning(v, a, d))
      && (v.st.pendingToken.None? ==> exists t: Ref :: NextTick(v, t, a, d))
  {
    var t: Ref :| NextTick(w, t, a, d);
    var v := w.(mailbox := w.mailbox - {r});
    if r == t {
      var nonce, u := w.st.connectionNonce.value, v.(st := v.st.(tickRef := None));
      if RecentlyActive(v) {
        ScheduledTickIsDue(u);
        assert NextTick(Step(w, Deliver(r)), u.nextRef, a, d);
      } else {
        PingIs(v, nonce);
        PingArmsTimeout(u, nonce);
      }
    } else {
      if w.mailbox[r].msg.HeartbeatTick? {
        assert IsTick(w, r, w.mailbox[r].msg.nonce);
      }
      assert Step(w, Deliver(r)) == v;
      assert NextTick(v, t, a, d);
    }
  }

  lemma PingArmsTimeout(u: World, nonce: Ref)
    requires u.st.connectionNonce == Some(nonce) && u.st.tickRef.None?
    ensures var v := ScheduleTick(Pinged(u, nonce));
      && v.now == u.now && v.st.timeoutRef == Some(u.nextRef + 1) && u.nextRef + 1 in v.armed
      && v.armed[u.nextRef + 1].deadline == u.now + HEARTBEAT_TIMEOUT_MS
      && v.st.pendingToken.Some? && v.st.lastActivity == u.st.lastActivity
  {
  }

  lemma {:induction false} SilentRunKeepsInv(w: World, labels: seq<Label>, a: nat, d: nat)
    requires SilentInv(Watch(w, None), a, d) && Silent(labels)
    ensures SilentInv(WatchRun(w, labels), a, d)
  {
    if labels != [] {
      var n := |labels| - 1;
      SilentRunKeepsInv(w, labels[..n], a, d);
      assert [labels[n]][0] == labels[n];
      SilentStep(WatchRun(w, labels[..n]), labels[n], a, d);
    }
  }

  /** Silence can begin with a connect, or with an inbound message on a connected socket. */
  predicate BeginsSilence(before: seq<Label>, first: Label) {
    first == Connect || (first == Inbound && PromptRun(before).connected)
  }

  /** Liveness with the exact bound. A socket connected, or had its last inbound activity, at time
      a, with its next tick due at d. Through any silent stretch with prompt timers, the first
      heartbeat close happens at CloseTime(a, d), which is within [a + 10 s, a + 15 s), and
      exactly a + 10 s after a connect; and time does not get past it without the close. */
  lemma ClosesOnTime(before: seq<Label>, first: Label, silence: seq<Label>) returns (t: Ref)
    requires BeginsSilence(before, first) && Silent(silence)
    ensures var w := PromptRun(before + [first]);
      var a, x := w.now, WatchRun(w, silence);
      && TickDue(w, t)
      && var d := TimerOf(w, t).deadline;
         && a + 10000 <= CloseTime(a, d) < a + 15000
         && (first == Connect ==> CloseTime(a, d) == a + 10000)
         && (x.closedAt.Some? ==> x.closedAt.value == CloseTime(a, d))
         && (x.w.now > CloseTime(a, d) ==> x.closedAt.Some?)
  {
    var w := PromptRun(before + [first]);
    t := SilenceBegins(before, first);
    var d := TimerOf(w, t).deadline;
    SilentRunKeepsInv(w, silence, w.now, d);
    if WatchRun(w, silence).closedAt.None? { NotClosedMeansNotPast(WatchRun(w, silence), w.now, d); }
  }

  /** And the close is always reached: every silent stretch can be continued to it. */
  lemma CloseIsReached(before: seq<Label>, first: Label, silence: seq<Label>) returns (more: seq<Label>)
    requires BeginsSilence(before, first) && Silent(silence)
    ensures Silent(silence + more)
    ensures WatchRun(PromptRun(before + [first]), silence + more).closedAt.Some?
  {
    var w := PromptRun(before + [first]);
    var t := SilenceBegins(before, first);
    SilentRunKeepsInv(w, silence, w.now, TimerOf(w, t).deadline);
    var x := WatchRun(w, silence);
    if x.closedAt.Some? {
      more := [];
      assert silence + more == silence;
    } else {
      more := RunsToClose(x.w, w.now, TimerOf(w, t).deadline);
      WatchCompose(w, silence, x.w, more);
    }
  }

  /** Armed timers that may fire now. */
  function Due(w: World): set<Ref> { set r | r in w.armed && w.armed[r].deadline <= w.now }

  /** While there is no close, some timer message can be delivered, some timer can fire, or time
      can pass to the next deadline. */
  lemma {:induction false} RunsToClose(w: World, a: nat, d: nat) returns (more: seq<Label>)
    requires SilentInv(Watch(w, None), a, d)
    ensures Silent(more) && WatchRun(w, more).closedAt.Some?
    decreases CloseTime(a, d) - w.now, 2 * |Due(w)| + |w.mailbox|
  {
    NotClosedMeansNotPast(Watch(w, None), a, d);
    var act := NextMove(w, a, d);
    var x := WatchStep(Watch(w, None), act);
    assert Silent([act]);
    SilentStep(Watch(w, None), act, a, d);
    assert WatchRun(w, [act]) == x by { assert [act][..0] == []; }
    if x.closedAt.Some? {
      more := [act];
    } else {
      NotClosedMeansNotPast(x, a, d);
      var rest := RunsToClose(x.w, a, d);
      WatchCompose(w, [act], x.w, rest);
      more := [act] + rest;
    }
  }

  /** A move that brings the close nearer. */
  lemma NextMove(w: World, a: nat, d: nat) returns (act: Label)
    requires SilentInv(Watch(w, None), a, d)
    ensures act.Elapse? || act.Fire? || act.Deliver?
    ensures var v := PromptStep(w, act);
      v.now > w.now || (v.now == w.now && 2 * |Due(v)| + |v.mailbox| < 2 * |Due(w)| + |w.mailbox|)
  {
    if w.mailbox != map[] {
      var r :| r in w.mailbox;
      act := Deliver(r);
      DeliverShrinks(w, r);
    } else if Due(w) != {} {
      var r :| r in Due(w);
      act := Fire(r);
      FireShrinks(w, r);
    } else {
      SomethingIsArmed(w, a, d);
      var r := Earliest(w.armed);
      assert r !in Due(w);
      act := Elapse(w.armed[r].deadline - w.now);
      assert MayElapse(w, act.ms);
    }
  }

  lemma SomethingIsArmed(w: World, a: nat, d: nat)
    requires SilentInv(Watch(w, None), a, d) && w.mailbox == map[]
    ensures w.armed != map[]
  {
    if w.st.pendingToken.Some? {
      assert Live(w, w.st.timeoutRef.value);
    } else {
      var t: Ref :| NextTick(w, t, a, d);
      assert t in w.armed;
    }
  }

  lemma {:induction false} Earliest(armed: map<Ref, Timer>) returns (r: Ref)
    requires armed != map[]
    ensures r in armed && forall s :: s in armed ==> armed[r].deadline <= armed[s].deadline
    decreases |armed|
  {
    r :| r in armed;
    var first := r;
    var others := armed - {first};
    if others != map[] {
      var s := Earliest(others);
      if armed[s].deadline < armed[first].deadline { r := s; }
    }
    forall s | s in armed ensures armed[r].deadline <= armed[s].deadline {
      if s != first { assert s in others; }
    }
  }

  lemma FireShrinks(w: World, r: Ref)
    requires r in Due(w) && w.mailbox == map[]
    ensures var v := PromptStep(w, Fire(r));
      v.now == w.now && 2 * |Due(v)| + |v.mailbox| < 2 * |Due(w)| + |w.mailbox|
  {
    var v := PromptStep(w, Fire(r));
    assert Due(v) == Due(w) - {r};
    assert v.mailbox == map[r := w.armed[r]];
  }

  /** Delivering arms only timers due later. */
  lemma DeliverShrinks(w: World, r: Ref)
    requires r in w.mailbox
    ensures var v := PromptStep(w, Deliver(r));
      v.now == w.now && 2 * |Due(v)| + |v.mailbox| < 2 * |Due(w)| + |w.mailbox|
  {
    var v := PromptStep(w, Deliver(r));
    DeliverTakes(w.(mailbox := w.mailbox - {r}), w.mailbox[r].msg);
    assert v.mailbox.Keys == w.mailbox.Keys - {r};
    SmallerMailbox(w.mailbox, v.mailbox, r);
    Fits(Due(v), Due(w));
  }

  lemma SmallerMailbox(before: map<Ref, Timer>, after: map<Ref, Timer>, r: Ref)
    requires r in before && after.Keys == before.Keys - {r}
    ensures |after| < |before|
  {
    assert |after| == |after.Keys| && |before| == |before.Keys|;
  }

  lemma DeliverTakes(w: World, msg: Message)
    ensures var v := HandleInfo(w, msg).0;
      v.mailbox == w.mailbox && v.now == w.now && Due(v) <= Due(w)
  {
  }

  lemma {:induction false} Fits<T>(s: set<T>, t: set<T>)
    requires s <= t
    ensures |s| <= |t|
  {
    if s != {} {
      var x :| x in s;
      Fits(s - {x}, t - {x});
    }
  }

  /** After a connect or an inbound message, silence is watched from a, with a tick due at d. */
  lemma SilenceBegins(before: seq<Label>, first: Label) returns (t: Ref)
    requires BeginsSilence(before, first)
    ensures var w := PromptRun(before + [first]);
      && TickDue(w, t) && SilentInv(Watch(w, None), w.now, TimerOf(w, t).deadline)
      && (first == Connect ==> TimerOf(w, t).deadline == w.now + HEARTBEAT_INTERVAL_MS)
  {
    assert (before + [first])[..|before|] == before;
    PromptRunKeepsInv(before);
    PromptStepKeepsInv(PromptRun(before), first);
    var w := PromptRun(before + [first]);
    if first == Connect {
      t := ConnectArms(PromptRun(before));
    } else {
      t :| TickDue(w, t);
    }
    assert NextTick(w, t, w.now, TimerOf(w, t).deadline);
  }

  lemma ConnectArms(w: World) returns (t: Ref)
    requires Inv(w)
    ensures var v := HandleConnect(w);
      TickDue(v, t) && TimerOf(v, t).deadline == w.now + HEARTBEAT_INTERVAL_MS && v.now == w.now
      && v.st.lastActivity == Some(v.now) && v.st.pendingToken.None?
  {
    var w1 := EndHeartbeat(Draw(w));
    var w2 := Begun(w1, w.nextRef);
    ScheduledTickIsDue(w2);
    t := w2.nextRef;
  }

  lemma NotClosedMeansNotPast(x: Watch, a: nat, d: nat)
    requires SilentInv(x, a, d) && x.closedAt.None?
    ensures x.w.now <= CloseTime(a, d)
  {
    if x.w.st.pendingToken.None? {
      var t: Ref :| NextTick(x.w, t, a, d);
    }
  }

  // ---- Both ends of the bound are reached --------------------------------------------------------------

  /** A socket connected at time 0 whose last activity was at time `now`, before any tick. */
  function Quiet(now: nat): World {
    World(State(Some(0), Some(1), None, None, Some(now)), now, map[1 := Timer(5000, HeartbeatTick(0))], map[], 2, true)
  }

  lemma QuietIsReached(a: nat)
    requires a <= 5000
    ensures PromptRun([Connect, Elapse(a)]).connected && PromptRun([Connect, Elapse(a)] + [Inbound]) == Quiet(a)
  {
    var ls := [Connect, Elapse(a)];
    assert ls[..1] == [Connect] && [Connect][..0] == [];
    assert (ls + [Inbound])[..2] == ls;
    assert PromptRun([Connect]) == Quiet(0);
    assert PromptRun(ls) == Quiet(0).(now := a);
  }

  /** One turn of a prompt timer: time passes to its deadline, it fires and is delivered. */
  function Turn(ms: nat, r: Ref): seq<Label> { [Elapse(ms), Fire(r), Deliver(r)] }

  function AfterTurn(x: Watch, ms: nat, r: Ref): Watch {
    WatchStep(WatchStep(WatchStep(x, Elapse(ms)), Fire(r)), Deliver(r))
  }

  lemma WatchSnoc(w: World, labels: seq<Label>, act: Label, x: Watch)
    requires WatchRun(w, labels) == x
    ensures WatchRun(w, labels + [act]) == WatchStep(x, act)
  {
    assert (labels + [act])[..|labels|] == labels;
  }

  /** Three labels, with the watches between them named. */
  lemma WatchThree(w: World, labels: seq<Label>, a1: Label, a2: Label, a3: Label, x: seq<Watch>)
    requires |x| == 4 && WatchRun(w, labels) == x[0]
    requires WatchStep(x[0], a1) == x[1]
    requires WatchStep(x[1], a2) == x[2]
    requires WatchStep(x[2], a3) == x[3]
    ensures WatchRun(w, labels + [a1, a2, a3]) == x[3]
  {
    WatchSnoc(w, labels, a1, x[0]);
    WatchSnoc(w, labels + [a1], a2, x[1]);
    WatchSnoc(w, labels + [a1] + [a2], a3, x[2]);
    assert labels + [a1, a2, a3] == labels + [a1] + [a2] + [a3];
  }

  lemma {:induction false} WatchCompose(w: World, first: seq<Label>, x: World, second: seq<Label>)
    requires WatchRun(w, first) == Watch(x, None)
    ensures WatchRun(w, first + second) == WatchRun(x, second)
    decreases |second|
  {
    if second == [] {
      assert first + second == first;
    } else {
      var n := |second| - 1;
      WatchCompose(w, first, x, second[..n]);
      LastApart(first, second);
      WatchSnoc(w, first + second[..n], second[n], WatchRun(x, second[..n]));
    }
  }

  /** A turn as a silent stretch of its own. */
  lemma TurnRuns(x: World, ms: nat, r: Ref, after: Watch) returns (silence: seq<Label>)
    requires AfterTurn(Watch(x, None), ms, r) == after
    ensures Silent(silence) && WatchRun(x, silence) == after
  {
    var x0 := Watch(x, None);
    var x1 := WatchStep(x0, Elapse(ms));
    var x2 := WatchStep(x1, Fire(r));
    WatchThree(x, [], Elapse(ms), Fire(r), Deliver(r), [x0, x1, x2, after]);
    silence := [] + Turn(ms, r);
  }

  lemma TurnDelivers(x: World, ms: nat, r: Ref, y: World, z: World, reply: Reply)
    requires MayElapse(x, ms) && r in x.armed && x.armed[r].deadline == x.now + ms
    requires y == x.(now := x.now + ms, armed := x.armed - {r})
    requires HandleInfo(y, x.armed[r].msg) == (z, reply)
    ensures AfterTurn(Watch(x, None), ms, r) == Watch(z, if reply == Close then Some(y.now) else None)
  {
    var fired := y.(mailbox := x.mailbox[r := x.armed[r]]);
    assert WatchStep(WatchStep(Watch(x, None), Elapse(ms)), Fire(r)) == Watch(fired, None);
    TakenFromMailbox(x.mailbox, r, x.armed[r]);
    assert fired.(mailbox := fired.mailbox - {r}) == y;
  }

  lemma TakenFromMailbox(mailbox: map<Ref, Timer>, r: Ref, timer: Timer)
    requires mailbox == map[]
    ensures mailbox[r := timer] - {r} == mailbox
  {
  }

  /** A connection whose ping went out at time `now`, its refs drawn from `token` on. */
  function Waiting(last: nat, now: nat, token: Ref): World {
    World(State(Some(0), Some(token + 2), Some(token + 1), Some(token), Some(last)), now,
          map[token + 1 := Timer(now + 5000, HeartbeatTimeout(0, token)),
              token + 2 := Timer(now + 5000, HeartbeatTick(0))], map[], token + 3, true)
  }

  /** A connection with nothing but its next tick armed. */
  function Ticking(last: nat, now: nat, r: Ref, deadline: nat): World {
    World(State(Some(0), Some(r), None, None, Some(last)), now,
          map[r := Timer(deadline, HeartbeatTick(0))], map[], r + 1, true)
  }

  /** Its tick has just been taken from the mailbox. */
  function TickTaken(last: nat, now: nat, r: Ref): World {
    World(State(Some(0), Some(r), None, None, Some(last)), now, map[], map[], r + 1, true)
  }

  lemma TickPings(last: nat, r: Ref, now: nat)
    requires last + 5000 <= now
    ensures HandleInfo(TickTaken(last, now, r), HeartbeatTick(0)) == (Waiting(last, now, r + 1), Ping)
  {
    PingIs(TickTaken(last, now, r), 0);
  }

  lemma TurnToPing(last: nat, now: nat, r: Ref, deadline: nat)
    requires now <= deadline && last + 5000 <= deadline
    ensures AfterTurn(Watch(Ticking(last, now, r, deadline), None), deadline - now, r)
         == Watch(Waiting(last, deadline, r + 1), None)
  {
    TickPings(last, r, deadline);
    assert map[r := Timer(deadline, HeartbeatTick(0))] - {r} == map[];
    TurnDelivers(Ticking(last, now, r, deadline), deadline - now, r,
                 TickTaken(last, deadline, r), Waiting(last, deadline, r + 1), Ping);
  }

  lemma TurnToTick(last: nat, now: nat, r: Ref, deadline: nat)
    requires now <= deadline < last + 5000
    ensures AfterTurn(Watch(Ticking(last, now, r, deadline), None), deadline - now, r)
         == Watch(Ticking(last, deadline, r + 1, deadline + 5000), None)
  {
    assert map[r := Timer(deadline, HeartbeatTick(0))] - {r} == map[];
    var z := Ticking(last, deadline, r + 1, deadline + 5000);
    assert HandleInfo(TickTaken(last, deadline, r), HeartbeatTick(0)) == (z, NoReply);
    TurnDelivers(Ticking(last, now, r, deadline), deadline - now, r, TickTaken(last, deadline, r), z, NoReply);
  }

  lemma TurnToClose(last: nat, now: nat, token: Ref)
    ensures AfterTurn(Watch(Waiting(last, now, token), None), 5000, token + 1).closedAt == Some(now + 5000)
  {
    var x := Waiting(last, now, token);
    var y := x.(now := now + 5000, armed := x.armed - {token + 1});
    var (z, reply) := HandleInfo(y, HeartbeatTimeout(0, token));
    TurnDelivers(x, 5000, token + 1, y, z, reply);
  }

  predicate ClosesAt(w: World, silence: seq<Label>, t: nat) {
    Silent(silence) && WatchRun(w, silence).closedAt == Some(t)
  }

  lemma PingRuns(last: nat, now: nat, r: Ref, deadline: nat) returns (silence: seq<Label>)
    requires now <= deadline && last + 5000 <= deadline
    ensures Silent(silence)
    ensures WatchRun(Ticking(last, now, r, deadline), silence) == Watch(Waiting(last, deadline, r + 1), None)
  {
    TurnToPing(last, now, r, deadline);
    silence := TurnRuns(Ticking(last, now, r, deadline), deadline - now, r,
                        Watch(Waiting(last, deadline, r + 1), None));
  }

  lemma TickRuns(last: nat, now: nat, r: Ref, deadline: nat) returns (silence: seq<Label>)
    requires now <= deadline < last + 5000
    ensures Silent(silence)
    ensures WatchRun(Ticking(last, now, r, deadline), silence)
         == Watch(Ticking(last, deadline, r + 1, deadline + 5000), None)
  {
    TurnToTick(last, now, r, deadline);
    silence := TurnRuns(Ticking(last, now, r, deadline), deadline - now, r,
                        Watch(Ticking(last, deadline, r + 1, deadline + 5000), None));
  }

  lemma CloseRuns(last: nat, now: nat, token: Ref) returns (silence: seq<Label>)
    ensures ClosesAt(Waiting(last, now, token), silence, now + 5000)
  {
    TurnToClose(last, now, token);
    var closed := AfterTurn(Watch(Waiting(last, now, token), None), 5000, token + 1);
    silence := TurnRuns(Waiting(last, now, token), 5000, token + 1, closed);
  }

  lemma PingThenClose(last: nat, now: nat, r: Ref, deadline: nat) returns (silence: seq<Label>)
    requires now <= deadline && last + 5000 <= deadline
    ensures ClosesAt(Ticking(last, now, r, deadline), silence, deadline + 5000)
  {
    var first := PingRuns(last, now, r, deadline);
    var second := CloseRuns(last, deadline, r + 1);
    WatchCompose(Ticking(last, now, r, deadline), first, Waiting(last, deadline, r + 1), second);
    silence := first + second;
  }

  /** Silent from its connect on, a socket is closed exactly 10 s later. */
  lemma ClosesAfterTenSeconds()
    ensures exists silence :: ClosesAt(PromptRun([Connect]), silence, 10000)
  {
    assert [Connect][..0] == [];
    assert PromptRun([Connect]) == Quiet(0);
    assert Quiet(0) == Ticking(0, 0, 1, 5000);
    var silence := PingThenClose(0, 0, 1, 5000);
  }

  /** Last active 1 ms after its tick was armed, it is closed 14 999 ms later. */
  lemma ClosesAfterAlmostFifteenSeconds()
    ensures exists silence :: ClosesAt(PromptRun([Connect, Elapse(1)] + [Inbound]), silence, 15000)
  {
    QuietIsReached(1);
    assert Quiet(1) == Ticking(1, 1, 1, 5000);
    var first := TickRuns(1, 1, 1, 5000);
    var second := PingThenClose(1, 5000, 2, 10000);
    WatchCompose(Ticking(1, 1, 1, 5000), first, Ticking(1, 5000, 2, 10000), second);
    assert ClosesAt(Quiet(1), first + second, 15000);
  }
}
