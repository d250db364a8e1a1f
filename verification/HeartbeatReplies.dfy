/** Exactly when the heartbeat of Heartbeat pings or closes, and what a disconnect leaves of it. */
module HeartbeatReplies {
  import opened Wrappers
  import opened Heartbeat

  lemma RunSnoc(labels: seq<Label>, act: Label)
    ensures Run(labels + [act]) == Step(Run(labels), act)
  {
    assert (labels + [act])[..|labels|] == labels;
  }

  // ---- When a message is answered ------------------------------------------------------------

  /** This message is the current connection's tick. */
  predicate CurrentTick(w: World, msg: Message) { msg.HeartbeatTick? && w.st.connectionNonce == Some(msg.nonce) }

  /** In every state: a ping goes out exactly when the current connection's tick is delivered with
      no ping unanswered and nothing inbound for 5 s, and that is exactly when a token becomes
      pending; the connection is closed exactly when the kept timeout is delivered. */
  lemma AnswersIff(labels: seq<Label>, act: Label)
    ensures var w := Run(labels);
      var (v, reply) := StepWithReply(w, act);
      && (reply == Ping <==>
            && act.Deliver? && act.timer in w.mailbox && CurrentTick(w, w.mailbox[act.timer].msg)
            && w.st.pendingToken.None? && LastActivityTime(labels).Some?
            && w.now - LastActivityTime(labels).value >= 5000)
      && (reply == Ping <==> w.st.pendingToken.None? && v.st.pendingToken.Some?)
      && (reply == Close <==> act.Deliver? && act.timer in w.mailbox && w.st.timeoutRef == Some(act.timer))
  {
    RunKeepsInv(labels);
    LastActivityIsTracked(labels);
    if act.Deliver? && act.timer in Run(labels).mailbox {
      KeptTimeoutMatches(Run(labels), act.timer);
    } else {
      NoMessageNoToken(Run(labels), act);
    }
  }

  lemma NoMessageNoToken(w: World, act: Label)
    requires !(act.Deliver? && act.timer in w.mailbox)
    ensures StepWithReply(w, act).1 == NoReply
    ensures w.st.pendingToken.None? ==> Step(w, act).st.pendingToken.None?
  {
  }

  /** The kept timeout is the one that carries the connection's nonce and the pending token. */
  lemma KeptTimeoutMatches(w: World, r: Ref)
    requires Inv(w) && r in w.mailbox
    ensures w.st.timeoutRef == Some(r) <==>
      && w.mailbox[r].msg.HeartbeatTimeout? && w.st.connectionNonce == Some(w.mailbox[r].msg.nonce)
      && w.st.pendingToken == Some(w.mailbox[r].msg.token)
  {
    assert Live(w, r) && TimerOf(w, r) == w.mailbox[r];
  }

  // ---- What a disconnect ends -------------------------------------------------------------------

  /** Only the timers whose references are kept are armed. */
  predicate OnlyKept(w: World) {
    forall r :: r in w.armed ==> w.st.tickRef == Some(r) || w.st.timeoutRef == Some(r)
  }

  lemma OnlyKeptStep(w: World, act: Label)
    requires Inv(w) && OnlyKept(w)
    ensures OnlyKept(Step(w, act))
  {
    if act.Deliver? && act.timer in w.mailbox && CurrentTick(w, w.mailbox[act.timer].msg) {
      TickTakesItsPlace(w, act.timer);
    }
  }

  lemma TickTakesItsPlace(w: World, r: Ref)
    requires Inv(w) && OnlyKept(w) && r in w.mailbox && CurrentTick(w, w.mailbox[r].msg)
    ensures OnlyKept(Step(w, Deliver(r)))
  {
    LastTickTaken(w, r, w.mailbox[r].msg.nonce);
    var v := w.(mailbox := w.mailbox - {r});
    assert forall s :: s in v.armed ==> v.st.timeoutRef == Some(s);
    if v.st.pendingToken.None? && !RecentlyActive(v) { PingIs(v, w.mailbox[r].msg.nonce); }
  }

  lemma {:induction false} OnlyKeptAlways(labels: seq<Label>)
    ensures OnlyKept(Run(labels))
  {
    if labels != [] {
      var n := |labels| - 1;
      OnlyKeptAlways(labels[..n]);
      RunKeepsInv(labels[..n]);
      OnlyKeptStep(Run(labels[..n]), labels[n]);
    }
  }

  /** No timer is armed, and no reference or token kept. */
  predicate Ended(w: World) {
    w.armed == map[] && w.st.tickRef.None? && w.st.timeoutRef.None? && w.st.pendingToken.None?
  }

  /** A disconnect leaves no timer armed and keeps nothing but the nonce and the time of the last
      activity; messages of timers that have fired stay in the mailbox. */
  lemma DisconnectEnds(labels: seq<Label>)
    ensures var w, v := Run(labels), Run(labels + [Disconnect]);
      && Ended(v) && !v.connected && v.mailbox == w.mailbox
      && v.st.connectionNonce == w.st.connectionNonce && v.st.lastActivity == w.st.lastActivity
  {
    RunSnoc(labels, Disconnect);
    OnlyKeptAlways(labels);
  }

  /** The current connection's tick has fired, and waits in the mailbox. */
  predicate TickQueued(w: World) { exists r :: r in w.mailbox && CurrentTick(w, w.mailbox[r].msg) }

  predicate NoConnect(labels: seq<Label>) { forall i :: 0 <= i < |labels| ==> labels[i] != Connect }

  /** Some step of this stretch pings or closes. */
  ghost predicate Answers(before: seq<Label>, more: seq<Label>) {
    exists i :: 0 <= i < |more| && StepWithReply(Run(before + more[..i]), more[i]).1 != NoReply
  }

  /** After the end of a heartbeat, with no tick queued, nothing but a connect has an effect. */
  lemma EndedStep(w: World, act: Label)
    requires Ended(w) && !TickQueued(w) && act != Connect
    ensures var (v, reply) := StepWithReply(w, act);
      reply == NoReply && Ended(v) && !TickQueued(v)
  {
  }

  lemma {:induction false} EndedForNow(before: seq<Label>, more: seq<Label>)
    requires Ended(Run(before)) && !TickQueued(Run(before)) && NoConnect(more)
    ensures Ended(Run(before + more)) && !TickQueued(Run(before + more))
    decreases |more|
  {
    if more == [] {
      assert before + more == before;
    } else {
      var n := |more| - 1;
      EndedForNow(before, more[..n]);
      LastApart(before, more);
      RunSnoc(before + more[..n], more[n]);
      EndedStep(Run(before + more[..n]), more[n]);
    }
  }

  lemma QueuedTickPings(before: seq<Label>, r: Ref)
    requires Ended(Run(before)) && r in Run(before).mailbox && CurrentTick(Run(before), Run(before).mailbox[r].msg)
    ensures StepWithReply(Run(before + [Elapse(5000)]), Deliver(r)).1 == Ping
  {
    RunKeepsInv(before);
    RunSnoc(before, Elapse(5000));
    LateTickPings(Run(before + [Elapse(5000)]), r);
  }

  lemma LateTickPings(w: World, r: Ref)
    requires r in w.mailbox && CurrentTick(w, w.mailbox[r].msg) && w.st.pendingToken.None?
    requires w.st.lastActivity.Some? && w.now >= w.st.lastActivity.value + 5000
    ensures StepWithReply(w, Deliver(r)).1 == Ping
  {
  }

  /** From a disconnect until the next connect, a message can be answered with a ping or a close
      if and only if the tick of the connection that ended was already in the mailbox: the nonce
      is kept, so that this tick still pings, or goes on ticking. */
  lemma AnswersAfterDisconnectIff(labels: seq<Label>)
    ensures (exists more :: NoConnect(more) && Answers(labels + [Disconnect], more)) <==> TickQueued(Run(labels))
  {
    var before := labels + [Disconnect];
    DisconnectEnds(labels);
    if TickQueued(Run(labels)) {
      var r :| r in Run(labels).mailbox && CurrentTick(Run(labels), Run(labels).mailbox[r].msg);
      QueuedTickPings(before, r);
      var more := [Elapse(5000), Deliver(r)];
      assert more[..1] == [Elapse(5000)];
      assert NoConnect(more) && Answers(before, more);
    } else {
      forall more | NoConnect(more) ensures !Answers(before, more) {
        forall i | 0 <= i < |more| ensures StepWithReply(Run(before + more[..i]), more[i]).1 == NoReply {
          EndedForNow(before, more[..i]);
          EndedStep(Run(before + more[..i]), more[i]);
        }
      }
    }
  }

  /** And that happens: a tick that fires just before the disconnect still pings after it. */
  lemma DisconnectedCanPing()
    ensures var labels := [Connect, Elapse(5000), Fire(1)];
      && TickQueued(Run(labels))
      && !Run(labels + [Disconnect]).connected
      && StepWithReply(Run(labels + [Disconnect]), Deliver(1)).1 == Ping
  {
    RunSnoc([], Connect);
    assert [] + [Connect] == [Connect];
    RunSnoc([Connect], Elapse(5000));
    RunSnoc([Connect, Elapse(5000)], Fire(1));
    assert [Connect] + [Elapse(5000)] == [Connect, Elapse(5000)];
    assert [Connect, Elapse(5000)] + [Fire(1)] == [Connect, Elapse(5000), Fire(1)];
    var labels := [Connect, Elapse(5000), Fire(1)];
    assert 1 in Run(labels).mailbox;
    RunSnoc(labels, Disconnect);
  }
}
