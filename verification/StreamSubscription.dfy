/** What a stream reads of the shared state and when: the server does not depend on its
    subscribers, a subscription begins at the end of the channel, and a recovery happens exactly
    when the channel has overrun the receiver. */
module StreamSubscription {
  import opened Wrappers
  import opened EventLogs
  import opened StreamProtocol
  import opened StreamInvariants
  import opened StreamTheorems

  // ---- The writer on its own ---------------------------------------------------------------

  /** The writer's steps of a run, in order. */
  function WritesOf<C>(labels: seq<Label<C>>): seq<WriterStep<C>> {
    if labels == [] then []
    else
      var writes, act := WritesOf(labels[..|labels| - 1]), labels[|labels| - 1];
      if act.Write? then writes + [act.step] else writes
  }

  function WriterAfter<S, C>(cfg: Config<S, C>, steps: seq<WriterStep<C>>): Server<S, C> {
    if steps == [] then InitServer(cfg)
    else WriterNext(cfg, WriterAfter(cfg, steps[..|steps| - 1]), steps[|steps| - 1])
  }

  lemma WriterAfterNext<S, C>(cfg: Config<S, C>, steps: seq<WriterStep<C>>, step: WriterStep<C>)
    ensures WriterAfter(cfg, steps + [step]) == WriterNext(cfg, WriterAfter(cfg, steps), step)
  {
    assert (steps + [step])[..|steps|] == steps;
  }

  lemma WritesOfNext<C>(labels: seq<Label<C>>, act: Label<C>)
    ensures WritesOf(labels + [act]) == WritesOf(labels) + (if act.Write? then [act.step] else [])
  {
    assert (labels + [act])[..|labels|] == labels;
  }

  /** The server is what its writer alone has made of it: no subscriber holds it up, changes it
      or loses any of its steps. */
  lemma {:induction false} ServerIsTheWriters<S, C>(cfg: Config<S, C>, labels: seq<Label<C>>)
    ensures Run(cfg, labels).server == WriterAfter(cfg, WritesOf(labels))
  {
    if labels != [] {
      var init, act := labels[..|labels| - 1], labels[|labels| - 1];
      ServerIsTheWriters(cfg, init);
      if act.Write? { WriterAfterNext(cfg, WritesOf(init), act.step); }
    }
  }

  lemma {:induction false} WriterAfterInv<S, C>(cfg: Config<S, C>, steps: seq<WriterStep<C>>)
    ensures ServerInv(cfg, WriterAfter(cfg, steps))
  {
    if steps != [] {
      var n := |steps| - 1;
      WriterAfterInv(cfg, steps[..n]);
      WriterKeepsInv(cfg, WriterAfter(cfg, steps[..n]), steps[n]);
    }
  }

  /** Everything only grows. */
  ghost predicate Extends<S, C>(srv: Server<S, C>, next: Server<S, C>) {
    srv.channel <= next.channel && srv.history <= next.history
  }

  lemma {:induction false} WriterOnlyAppends<S, C>(cfg: Config<S, C>, steps: seq<WriterStep<C>>,
                                                   more: seq<WriterStep<C>>)
    ensures Extends(WriterAfter(cfg, steps), WriterAfter(cfg, steps + more))
    decreases |more|
  {
    if more == [] {
      assert steps + more == steps;
    } else {
      var n := |more| - 1;
      WriterOnlyAppends(cfg, steps, more[..n]);
      LastApart(steps, more);
      WriterAfterNext(cfg, steps + more[..n], more[n]);
    }
  }

  // ---- Every read sees the present ---------------------------------------------------------

  /** In every state of every run: the subscription begins at the end of the channel, the replay
      is the whole log, a snapshot is the latest seq logged at its first half and the screen of
      all chunks parsed at its second, a new subscription is at the end of the channel again, and
      a diff leads to the screen of all chunks parsed. */
  lemma ReadsSeeThePresent<S, C>(cfg: Config<S, C>, labels: seq<Label<C>>, i: nat)
    requires i < |Run(cfg, labels).subs|
    ensures var sys := Run(cfg, labels);
      var sub, h, l := sys.subs[i], sys.server.history, LoggedCount(sys.server);
      var next := AdvanceSub(cfg, sys.server, sub);
      && l <= |h|
      && match sub.phase
         case Connecting => next.phase.Subscribed? && next.cursor == |sys.server.channel|
         case Subscribed => next.phase == SendingHistory(EventsOf(h)[Evicted(l, cfg.maxEvents)..l])
         case SnapSeq(lagged) => next.phase == SnapScreen(lagged, l)
         case SnapScreen(lagged, seqNo) => next.phase == SendResync(lagged, seqNo, ScreenAfter(cfg, h), |h|)
         case Resubscribing =>
           && next.phase.Listening? && next.cursor == |sys.server.channel|
           && next.recoveries != [] && LastRecovery(next).resumeAt == |sys.server.channel|
         case ReadScreen(seqNo) =>
           && sub.baseline.Some? && next.basePos == |h|
           && next.phase == SendDiff(seqNo, sub.baseline.value, ScreenAfter(cfg, h))
         case _ => true
  {
    RunKeepsInv(cfg, labels);
    ReadsIn(cfg, Run(cfg, labels).server, Run(cfg, labels).subs[i]);
  }

  lemma ReadsIn<S, C>(cfg: Config<S, C>, srv: Server<S, C>, sub: Subscriber<S, C>)
    requires ServerInv(cfg, srv) && PhaseInv(cfg, srv.history, |srv.channel|, LoggedCount(srv), sub)
    ensures var h, l := srv.history, LoggedCount(srv);
      var next := AdvanceSub(cfg, srv, sub);
      && l <= |h|
      && match sub.phase
         case Connecting => next.phase.Subscribed? && next.cursor == |srv.channel|
         case Subscribed => next.phase == SendingHistory(EventsOf(h)[Evicted(l, cfg.maxEvents)..l])
         case SnapSeq(lagged) => next.phase == SnapScreen(lagged, l)
         case SnapScreen(lagged, seqNo) => next.phase == SendResync(lagged, seqNo, ScreenAfter(cfg, h), |h|)
         case Resubscribing =>
           && next.phase.Listening? && next.cursor == |srv.channel|
           && next.recoveries != [] && LastRecovery(next).resumeAt == |srv.channel|
         case ReadScreen(seqNo) =>
           && sub.baseline.Some? && next.basePos == |h|
           && next.phase == SendDiff(seqNo, sub.baseline.value, ScreenAfter(cfg, h))
         case _ => true
  {
    var h, l := srv.history, LoggedCount(srv);
    if sub.phase.Subscribed? { HistoryReadIs(cfg, srv, h, l, sub); }
    if sub.phase.SnapSeq? { LatestSeqCountsHistory(h[..l], cfg.maxEvents); }
  }

  // ---- Overruns ------------------------------------------------------------------------------

  /** More events are waiting for the receiver than the channel keeps. */
  predicate Overrun<S, C>(cfg: Config<S, C>, sys: System<S, C>, i: nat) {
    && i < |sys.subs| && sys.subs[i].phase.Listening?
    && |sys.server.channel| - sys.subs[i].cursor > cfg.capacity
  }

  /** How often the subscriber found its receiver overrun. */
  function Overruns<S(==), C(==)>(cfg: Config<S, C>, labels: seq<Label<C>>, i: nat): nat {
    if labels == [] then 0
    else
      var init := labels[..|labels| - 1];
      Overruns(cfg, init, i) + if labels[|labels| - 1] == Advance(i) && Overrun(cfg, Run(cfg, init), i) then 1 else 0
  }

  lemma OverrunsNext<S, C>(cfg: Config<S, C>, labels: seq<Label<C>>, act: Label<C>, i: nat)
    ensures Overruns(cfg, labels + [act], i)
         == Overruns(cfg, labels, i) + if act == Advance(i) && Overrun(cfg, Run(cfg, labels), i) then 1 else 0
  {
    assert (labels + [act])[..|labels|] == labels;
  }

  /** A recovery has begun, and its full screen is not sent yet. */
  predicate Recovering<S, C>(phase: Phase<S, C>) {
    match phase
    case SnapSeq(lagged) => lagged
    case SnapScreen(lagged, _) => lagged
    case SendResync(lagged, _, _, _) => lagged
    case _ => false
  }

  /** The recoveries match this number of overruns. */
  predicate Counts<S, C>(sub: Subscriber<S, C>, n: nat) {
    if sub.phase.Closed? then |sub.recoveries| <= n <= |sub.recoveries| + 1
    else n == |sub.recoveries| + if Recovering(sub.phase) then 1 else 0
  }

  lemma CountsStep<S, C>(cfg: Config<S, C>, sys: System<S, C>, act: Label<C>, i: nat, n: nat)
    requires Inv(cfg, sys) && i < |sys.subs| && Counts(sys.subs[i], n)
    ensures var overrun := act == Advance(i) && Overrun(cfg, sys, i);
      Counts(Step(cfg, sys, act).subs[i], n + if overrun then 1 else 0)
  {
    if act == Advance(i) { CountsAdvance(cfg, sys.server, sys.subs[i], n); }
  }

  lemma CountsAdvance<S, C>(cfg: Config<S, C>, srv: Server<S, C>, sub: Subscriber<S, C>, n: nat)
    requires ServerInv(cfg, srv) && SubInv(cfg, srv, sub) && Counts(sub, n)
    ensures var overrun := sub.phase.Listening? && |srv.channel| - sub.cursor > cfg.capacity;
      Counts(AdvanceSub(cfg, srv, sub), n + if overrun then 1 else 0)
  {
  }

  /** A subscriber recovers exactly as often as its receiver is overrun: in every state, the
      recoveries done and the one under way are the overruns found. */
  lemma {:induction false} RecoversIffOverrun<S, C>(cfg: Config<S, C>, labels: seq<Label<C>>, i: nat)
    ensures var sys := Run(cfg, labels);
      if i < |sys.subs| then Counts(sys.subs[i], Overruns(cfg, labels, i)) else Overruns(cfg, labels, i) == 0
  {
    if labels != [] {
      var init := labels[..|labels| - 1];
      RecoversIffOverrun(cfg, init, i);
      RunKeepsInv(cfg, init);
      if i < |Run(cfg, init).subs| {
        CountsStep(cfg, Run(cfg, init), labels[|labels| - 1], i, Overruns(cfg, init, i));
      }
    }
  }

  // ---- Where the receiver stands -------------------------------------------------------------

  /** A receiver that has been there since c events were broadcast. */
  predicate NotBehind<S, C>(sub: Subscriber<S, C>, c: nat) {
    c <= sub.cursor || sub.phase.Connecting? || sub.phase.Closed?
  }

  lemma NotBehindStep<S, C>(cfg: Config<S, C>, sys: System<S, C>, act: Label<C>, i: nat, c: nat)
    requires Inv(cfg, sys) && i < |sys.subs| && c <= |sys.server.channel|
    ensures var next := Step(cfg, sys, act);
      && i < |next.subs| && sys.subs[i].cursor <= next.subs[i].cursor && c <= |next.server.channel|
      && (NotBehind(sys.subs[i], c) ==> NotBehind(next.subs[i], c))
  {
    if act == Advance(i) { NotBehindAdvance(cfg, sys.server, sys.subs[i], c); }
  }

  lemma NotBehindAdvance<S, C>(cfg: Config<S, C>, srv: Server<S, C>, sub: Subscriber<S, C>, c: nat)
    requires sub.cursor <= |srv.channel| && c <= |srv.channel|
    ensures var next := AdvanceSub(cfg, srv, sub);
      sub.cursor <= next.cursor && (NotBehind(sub, c) ==> NotBehind(next, c))
  {
  }

  /** The receiver never moves back, and one that connects once c events are broadcast is never
      behind c. */
  lemma {:induction false} ReceiverStays<S, C>(cfg: Config<S, C>, labels: seq<Label<C>>, more: seq<Label<C>>,
                                               i: nat, c: nat)
    requires var sys := Run(cfg, labels);
      i < |sys.subs| && NotBehind(sys.subs[i], c) && c <= |sys.server.channel|
    ensures var sys, next := Run(cfg, labels), Run(cfg, labels + more);
      && i < |next.subs| && sys.subs[i].cursor <= next.subs[i].cursor && c <= |next.server.channel|
      && NotBehind(next.subs[i], c)
    decreases |more|
  {
    if more == [] {
      assert labels + more == labels;
    } else {
      var n := |more| - 1;
      ReceiverStays(cfg, labels, more[..n], i, c);
      LastApart(labels, more);
      RunKeepsInv(cfg, labels + more[..n]);
      RunSnoc(cfg, labels + more[..n], more[n]);
      NotBehindStep(cfg, Run(cfg, labels + more[..n]), more[n], i, c);
    }
  }

  /** A subscription begins at the end of the channel, and the receiver is never behind that
      again. */
  lemma SubscriptionStays<S, C>(cfg: Config<S, C>, labels: seq<Label<C>>, more: seq<Label<C>>, i: nat)
    requires i < |Run(cfg, labels).subs| && Run(cfg, labels).subs[i].phase.Connecting?
    ensures var c := |Run(cfg, labels).server.channel|;
      var first, next := Run(cfg, labels + [Advance(i)]), Run(cfg, labels + [Advance(i)] + more);
      && i < |first.subs| && first.subs[i].cursor == c
      && i < |next.subs| && c <= next.subs[i].cursor <= |next.server.channel|
  {
    var c := |Run(cfg, labels).server.channel|;
    RunSnoc(cfg, labels, Advance(i));
    ReceiverStays(cfg, labels + [Advance(i)], more, i, c);
    RunKeepsInv(cfg, labels + [Advance(i)] + more);
  }

  /** An overrun, and with it a recovery, takes more events than the channel keeps since the
      subscription and, if there was a recovery before, since the new subscription it ended with. */
  lemma OverrunNeedsEvents<S, C>(cfg: Config<S, C>, labels: seq<Label<C>>, more: seq<Label<C>>, i: nat)
    requires i < |Run(cfg, labels).subs| && Run(cfg, labels).subs[i].phase.Connecting?
    requires Overrun(cfg, Run(cfg, labels + more), i)
    ensures var next := Run(cfg, labels + more);
      && |next.server.channel| - |Run(cfg, labels).server.channel| > cfg.capacity
      && (next.subs[i].recoveries != [] ==>
            |next.server.channel| - LastRecovery(next.subs[i]).resumeAt > cfg.capacity)
  {
    ReceiverStays(cfg, labels, more, i, |Run(cfg, labels).server.channel|);
    RunKeepsInv(cfg, labels + more);
    ResumedBehind(cfg, Run(cfg, labels + more).server, Run(cfg, labels + more).subs[i]);
  }

  lemma ResumedBehind<S, C>(cfg: Config<S, C>, srv: Server<S, C>, sub: Subscriber<S, C>)
    requires ServerInv(cfg, srv) && SubInv(cfg, srv, sub) && sub.phase.Listening?
    ensures sub.recoveries != [] ==> LastRecovery(sub).resumeAt <= sub.cursor
  {
  }

  lemma ChannelGrows<S, C>(cfg: Config<S, C>, labels: seq<Label<C>>, more: seq<Label<C>>)
    ensures |Run(cfg, labels).server.channel| <= |Run(cfg, labels + more).server.channel|
    decreases |more|
  {
    if more == [] {
      assert labels + more == labels;
    } else {
      var n := |more| - 1;
      ChannelGrows(cfg, labels, more[..n]);
      LastApart(labels, more);
      RunSnoc(cfg, labels + more[..n], more[n]);
    }
  }

  /** As long as no more events are broadcast after it connected than the channel keeps, a
      subscriber, however slow, never recovers. */
  lemma {:induction false} NoOverrunWithin<S, C>(cfg: Config<S, C>, labels: seq<Label<C>>, more: seq<Label<C>>, i: nat)
    requires i < |Run(cfg, labels).subs| && Run(cfg, labels).subs[i].phase.Connecting?
    requires |Run(cfg, labels + more).server.channel| <= |Run(cfg, labels).server.channel| + cfg.capacity
    ensures Overruns(cfg, labels + more, i) == 0
    decreases |more|
  {
    if more == [] {
      assert labels + more == labels;
      RunKeepsInv(cfg, labels);
      RecoversIffOverrun(cfg, labels, i);
    } else {
      var n := |more| - 1;
      var before := labels + more[..n];
      assert labels + more == before + [more[n]];
      ChannelGrows(cfg, before, [more[n]]);
      NoOverrunWithin(cfg, labels, more[..n], i);
      OverrunsNext(cfg, before, more[n], i);
      if Overrun(cfg, Run(cfg, before), i) { OverrunNeedsEvents(cfg, labels, more[..n], i); }
    }
  }

  lemma NoRecoveryWithin<S, C>(cfg: Config<S, C>, labels: seq<Label<C>>, more: seq<Label<C>>, i: nat)
    requires i < |Run(cfg, labels).subs| && Run(cfg, labels).subs[i].phase.Connecting?
    requires |Run(cfg, labels + more).server.channel| <= |Run(cfg, labels).server.channel| + cfg.capacity
    ensures var next := Run(cfg, labels + more);
      i < |next.subs| && next.subs[i].recoveries == [] && !Recovering(next.subs[i].phase)
  {
    ReceiverStays(cfg, labels, more, i, 0);
    NoOverrunWithin(cfg, labels, more, i);
    RecoversIffOverrun(cfg, labels + more, i);
  }
}
