/** The history replay of a screen_diff stream: a contiguous run of raw frames up to the last
    event logged when the log was read, then the initial full screen, and never a raw frame
    again. (For the raw format, StreamTheorems has the whole transcript.) */
module StreamReplay {
  import opened Wrappers
  import opened EventLogs
  import opened StreamProtocol
  import opened StreamInvariants
  import opened StreamTheorems

  /** The whole replay, then a full screen, then no raw frame. */
  ghost predicate Replayed<S, C>(sent: seq<Frame<S, C>>, replay: seq<Frame<S, C>>) {
    && |sent| > |replay| && sent[..|replay|] == replay && sent[|replay|].ResyncFrame?
    && forall i :: |replay| <= i < |sent| ==> !sent[i].RawFrame?
  }

  /** How far the replay of the first `l` events has come. */
  ghost predicate ReplayInv<S, C>(h: seq<C>, lo: nat, l: nat, sub: Subscriber<S, C>) {
    && lo <= l <= |h| && sub.firstSeq == lo + 1 && sub.format == ScreenDiff
    && match sub.phase
       case SendingHistory(rest) =>
         sub.lastSent <= l && Max(lo, sub.lastSent) + |rest| == l
         && sub.sent == RawRun(h, lo, sub.lastSent)
       case Connecting => false
       case Subscribed => false
       case Closed => Interrupted(h, lo, l, sub) || Replayed(sub.sent, RawRun(h, lo, l))
       case _ =>
         if Live(sub.phase) then Replayed(sub.sent, RawRun(h, lo, l))
         else sub.sent == RawRun(h, lo, l)
  }

  /** The client went away during the replay. */
  ghost predicate Interrupted<S, C>(h: seq<C>, lo: nat, l: nat, sub: Subscriber<S, C>)
    requires l <= |h|
  {
    exists k: nat :: k <= l && sub.sent == RawRun(h, lo, k)
  }

  lemma ReplayBegins<S, C>(cfg: Config<S, C>, srv: Server<S, C>, sub: Subscriber<S, C>)
    requires ServerInv(cfg, srv) && sub.phase.Subscribed? && sub.format == ScreenDiff
    requires PhaseInv(cfg, srv.history, |srv.channel|, LoggedCount(srv), sub)
    ensures var l := LoggedCount(srv);
      ReplayInv(srv.history, Evicted(l, cfg.maxEvents), l, AdvanceSub(cfg, srv, sub))
  {
    var l := LoggedCount(srv);
    var from := Evicted(l, cfg.maxEvents);
    HistoryReadIs(cfg, srv, srv.history, l, sub);
    ReplayAtStart(srv.history, from, l, EventsOf(srv.history)[from..l], sub);
  }

  lemma ReplayAtStart<S, C>(h: seq<C>, lo: nat, l: nat, rest: seq<Event<C>>, sub: Subscriber<S, C>)
    requires lo <= l <= |h| && |rest| == l - lo
    requires sub.format == ScreenDiff && sub.sent == [] && sub.lastSent == 0
    ensures ReplayInv(h, lo, l, sub.(phase := SendingHistory(rest), firstSeq := lo + 1))
  {
  }

  lemma ReplaySends<S, C>(cfg: Config<S, C>, srv: Server<S, C>, h: seq<C>, lo: nat, l: nat, sub: Subscriber<S, C>)
    requires ReplayInv(h, lo, l, sub) && sub.phase.SendingHistory?
    requires var from := Max(lo, sub.lastSent);
      sub.phase.rest == EventsOf(h)[from..l] && (sub.phase.rest == [] ==> lo <= sub.lastSent)
    ensures ReplayInv(h, lo, l, AdvanceSub(cfg, srv, sub))
  {
    if sub.phase.rest != [] {
      StretchSplits(h, Max(lo, sub.lastSent), sub.phase.rest);
      RawRunGrows<S, C>(h, lo, sub.lastSent);
    }
  }

  lemma ReplayedGrows<S, C>(sent: seq<Frame<S, C>>, replay: seq<Frame<S, C>>, frame: Frame<S, C>)
    requires Replayed(sent, replay) && !frame.RawFrame?
    ensures Replayed(sent + [frame], replay)
  {
  }

  /** After the replay, no step sends a raw frame. */
  lemma ReplayStands<S, C>(cfg: Config<S, C>, srv: Server<S, C>, h: seq<C>, lo: nat, l: nat, sub: Subscriber<S, C>)
    requires ReplayInv(h, lo, l, sub) && !sub.phase.SendingHistory? && !sub.phase.SendRaw? && !sub.phase.LostBaseline?
    requires Live(sub.phase) ==> sub.baseline.Some?
    ensures ReplayInv(h, lo, l, AdvanceSub(cfg, srv, sub))
  {
    AdvanceSends(cfg, srv, sub);
    if Live(sub.phase) && NextFrame(sub).Some? {
      ReplayedGrows(sub.sent, RawRun(h, lo, l), NextFrame(sub).value);
    }
  }

  lemma ReplayAdvances<S, C>(cfg: Config<S, C>, srv: Server<S, C>, lo: nat, l: nat, sub: Subscriber<S, C>)
    requires ServerInv(cfg, srv) && ReplayInv(srv.history, lo, l, sub)
    requires PhaseInv(cfg, srv.history, |srv.channel|, LoggedCount(srv), sub)
    ensures ReplayInv(srv.history, lo, l, AdvanceSub(cfg, srv, sub))
  {
    if sub.phase.SendingHistory? {
      ReplaySends(cfg, srv, srv.history, lo, l, sub);
    } else {
      ReplayStands(cfg, srv, srv.history, lo, l, sub);
    }
  }

  lemma ReplayStable<S, C>(h: seq<C>, h': seq<C>, lo: nat, l: nat, sub: Subscriber<S, C>)
    requires ReplayInv(h, lo, l, sub) && h <= h'
    ensures ReplayInv(h', lo, l, sub)
  {
    RawRunStable<S, C>(h, h', lo, l);
    if sub.phase.SendingHistory? {
      RawRunStable<S, C>(h, h', lo, sub.lastSent);
    } else if sub.phase.Closed? && Interrupted(h, lo, l, sub) {
      var k: nat :| k <= l && sub.sent == RawRun(h, lo, k);
      RawRunStable<S, C>(h, h', lo, k);
      assert sub.sent == RawRun(h', lo, k);
    }
  }

  lemma ReplayStops<S, C>(h: seq<C>, lo: nat, l: nat, sub: Subscriber<S, C>)
    requires ReplayInv(h, lo, l, sub)
    ensures ReplayInv(h, lo, l, sub.(phase := Closed))
  {
    if sub.phase.SendingHistory? {
      assert Interrupted(h, lo, l, sub.(phase := Closed));
    } else if !sub.phase.Closed? && !Live(sub.phase) {
      assert Interrupted(h, lo, l, sub.(phase := Closed));
    }
  }

  lemma ReplayStep<S, C>(cfg: Config<S, C>, sys: System<S, C>, act: Label<C>,
                                i: nat, lo: nat, l: nat)
    requires Inv(cfg, sys) && i < |sys.subs| && ReplayInv(sys.server.history, lo, l, sys.subs[i])
    ensures var next := Step(cfg, sys, act);
      i < |next.subs| && ReplayInv(next.server.history, lo, l, next.subs[i])
  {
    if act.Write? {
      WriterKeepsInv(cfg, sys.server, act.step);
      ReplayStable(sys.server.history, WriterNext(cfg, sys.server, act.step).history, lo, l, sys.subs[i]);
    } else if act == Advance(i) {
      ReplayAdvances(cfg, sys.server, lo, l, sys.subs[i]);
    } else if act == Stop(i) {
      ReplayStops(sys.server.history, lo, l, sys.subs[i]);
    }
  }

  lemma ReplayBeginsInRun<S, C>(cfg: Config<S, C>, labels: seq<Label<C>>, sys: System<S, C>, i: nat)
    requires sys == Run(cfg, labels)
    requires i < |sys.subs| && sys.subs[i].format == ScreenDiff && sys.subs[i].phase.Subscribed?
    ensures var next := Run(cfg, labels + [Advance(i)]);
      var l := LoggedCount(sys.server);
      i < |next.subs| && ReplayInv(next.server.history, Evicted(l, cfg.maxEvents), l, next.subs[i])
  {
    RunKeepsInv(cfg, labels);
    RunSnoc(cfg, labels, Advance(i));
    ReplayBegins(cfg, sys.server, sys.subs[i]);
  }

  lemma ReplayStepInRun<S, C>(cfg: Config<S, C>, labels: seq<Label<C>>, sys: System<S, C>, act: Label<C>,
                                i: nat, lo: nat, l: nat)
    requires sys == Run(cfg, labels) && i < |sys.subs| && ReplayInv(sys.server.history, lo, l, sys.subs[i])
    ensures var next := Run(cfg, labels + [act]);
      i < |next.subs| && ReplayInv(next.server.history, lo, l, next.subs[i])
  {
    RunKeepsInv(cfg, labels);
    RunSnoc(cfg, labels, act);
    ReplayStep(cfg, sys, act, i, lo, l);
  }

  lemma {:induction false} ReplayKept<S, C>(cfg: Config<S, C>, labels: seq<Label<C>>, more: seq<Label<C>>,
                                            i: nat, lo: nat, l: nat)
    requires i < |Run(cfg, labels).subs|
    requires ReplayInv(Run(cfg, labels).server.history, lo, l, Run(cfg, labels).subs[i])
    ensures var sys := Run(cfg, labels + more);
      i < |sys.subs| && ReplayInv(sys.server.history, lo, l, sys.subs[i])
    decreases |more|
  {
    if more == [] {
      assert labels + more == labels;
    } else {
      ReplayStepInRun(cfg, labels, Run(cfg, labels), more[0], i, lo, l);
      ReplayKept(cfg, labels + [more[0]], more[1..], i, lo, l);
      assert labels + [more[0]] + more[1..] == labels + more;
    }
  }

  /** Once a screen_diff subscriber has read the log with l events logged, and whatever happens
      afterwards: it sends exactly the retained events up to l, in order and without a gap, then
      the initial full screen, and from then on no raw frame, unless it goes away before. */
  lemma HistoryIsReplayed<S, C>(cfg: Config<S, C>, labels: seq<Label<C>>, more: seq<Label<C>>, i: nat)
    requires var sys := Run(cfg, labels);
      i < |sys.subs| && sys.subs[i].format == ScreenDiff && sys.subs[i].phase.Subscribed?
    ensures var sys := Run(cfg, labels + [Advance(i)] + more);
      var l := LoggedCount(Run(cfg, labels).server);
      i < |sys.subs| && ReplayInv(sys.server.history, Evicted(l, cfg.maxEvents), l, sys.subs[i])
  {
    var l := LoggedCount(Run(cfg, labels).server);
    ReplayBeginsInRun(cfg, labels, Run(cfg, labels), i);
    ReplayKept(cfg, labels + [Advance(i)], more, i, Evicted(l, cfg.maxEvents), l);
  }

  /** In particular: a live screen_diff stream has sent the whole replay and then a full screen. */
  lemma LiveStreamHasReplayed<S, C>(cfg: Config<S, C>, labels: seq<Label<C>>, more: seq<Label<C>>, i: nat)
    requires var sys := Run(cfg, labels);
      i < |sys.subs| && sys.subs[i].format == ScreenDiff && sys.subs[i].phase.Subscribed?
    requires var sys := Run(cfg, labels + [Advance(i)] + more);
      i < |sys.subs| && Live(sys.subs[i].phase)
    ensures var sys, l := Run(cfg, labels + [Advance(i)] + more), LoggedCount(Run(cfg, labels).server);
      var sub := sys.subs[i];
      && sub.firstSeq == Evicted(l, cfg.maxEvents) + 1 && l <= |sys.server.history|
      && Replayed(sub.sent, RawRun(sys.server.history, Evicted(l, cfg.maxEvents), l))
  {
    HistoryIsReplayed(cfg, labels, more, i);
  }
}
