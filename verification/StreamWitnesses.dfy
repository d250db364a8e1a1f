/** Runs that show the conditions of StreamTheorems are about something, whatever the capacity
    of the channel and the limit of the log: the resync order of handle_ws can leave a client of
    either format behind, or apply a chunk to a raw client twice. */
module StreamWitnesses {
  import opened Wrappers
  import opened EventLogs
  import opened StreamProtocol
  import opened StreamInvariants
  import opened StreamTheorems

  /** The writer takes one chunk through all three of its steps. */
  function WriteAll<C>(chunk: C): seq<Label<C>> { [Write(Parse(chunk)), Write(Append), Write(Broadcast)] }

  lemma RunWriteAll<S, C>(cfg: Config<S, C>, labels: seq<Label<C>>, chunk: C)
    requires Run(cfg, labels).server.writer.Reading?
    ensures var sys := Run(cfg, labels);
      var n := sys.server.log.nextSeq;
      Run(cfg, labels + WriteAll(chunk)) == sys.(server := Server(
        cfg.process(sys.server.screen, chunk), Push(sys.server.log, chunk),
        sys.server.channel + [Event(n, chunk)], Reading, sys.server.history + [chunk]))
  {
    RunSnoc(cfg, labels, Write(Parse(chunk)));
    RunSnoc(cfg, labels + [Write(Parse(chunk))], Write(Append));
    RunSnoc(cfg, labels + [Write(Parse(chunk))] + [Write(Append)], Write(Broadcast));
    assert labels + WriteAll(chunk) == labels + [Write(Parse(chunk))] + [Write(Append)] + [Write(Broadcast)];
  }

  /** A recorder's server once all of `h` is broadcast. */
  function Published<C>(maxEvents: nat, h: seq<C>): Server<seq<C>, C> {
    Server(h, LogAfter(h, maxEvents), EventsOf(h), Reading, h)
  }

  function Copies<C>(chunk: C, k: nat): seq<C> { seq(k, _ => chunk) }

  lemma PublishedNext<C>(maxEvents: nat, h: seq<C>, chunk: C)
    ensures Push(LogAfter(h, maxEvents), chunk) == LogAfter(h + [chunk], maxEvents)
    ensures LogAfter(h, maxEvents).nextSeq == |h| + 1
    ensures EventsOf(h) + [Event(|h| + 1, chunk)] == EventsOf(h + [chunk])
  {
    PushExtendsHistory(h, maxEvents, chunk);
  }

  lemma RunPublish<C>(maxEvents: nat, capacity: Positive, labels: seq<Label<C>>, h: seq<C>,
                      subs: seq<Subscriber<seq<C>, C>>, chunk: C)
    requires Run(Recorder(maxEvents, capacity), labels) == System(Published(maxEvents, h), subs)
    ensures Run(Recorder(maxEvents, capacity), labels + WriteAll(chunk))
         == System(Published(maxEvents, h + [chunk]), subs)
  {
    RunWriteAll(Recorder(maxEvents, capacity), labels, chunk);
    RecorderProcess(maxEvents, capacity, h, chunk);
    PublishedNext(maxEvents, h, chunk);
  }

  /** k chunks are published, with the subscribers standing still. */
  lemma {:induction false} RunPublishCopies<C>(maxEvents: nat, capacity: Positive, labels: seq<Label<C>>,
      subs: seq<Subscriber<seq<C>, C>>, chunk: C, k: nat) returns (more: seq<Label<C>>)
    requires Run(Recorder(maxEvents, capacity), labels) == System(Published(maxEvents, []), subs)
    ensures Run(Recorder(maxEvents, capacity), more) == System(Published(maxEvents, Copies(chunk, k)), subs)
  {
    if k == 0 {
      more := labels;
      assert Copies(chunk, 0) == [];
    } else {
      more := RunPublishCopies(maxEvents, capacity, labels, subs, chunk, k - 1);
      RunPublish(maxEvents, capacity, more, Copies(chunk, k - 1), subs, chunk);
      assert Copies(chunk, k - 1) + [chunk] == Copies(chunk, k);
      more := more + WriteAll(chunk);
    }
  }

  /** k steps of the only subscriber. */
  function Advances<C>(k: nat): seq<Label<C>> { if k == 0 then [] else Advances(k - 1) + [Advance(0)] }

  function AdvanceTimes<S(==), C>(cfg: Config<S, C>, srv: Server<S, C>, sub: Subscriber<S, C>, k: nat)
    : Subscriber<S, C>
  {
    if k == 0 then sub else AdvanceSub(cfg, srv, AdvanceTimes(cfg, srv, sub, k - 1))
  }

  lemma {:induction false} RunAdvances<S, C>(cfg: Config<S, C>, labels: seq<Label<C>>, k: nat,
                                             srv: Server<S, C>, sub: Subscriber<S, C>)
    requires Run(cfg, labels) == System(srv, [sub])
    ensures Run(cfg, labels + Advances(k)) == System(srv, [AdvanceTimes(cfg, srv, sub, k)])
  {
    if k == 0 {
      assert labels + Advances(0) == labels;
    } else {
      RunAdvances(cfg, labels, k - 1, srv, sub);
      RunAdvance(cfg, labels + Advances(k - 1), srv, AdvanceTimes(cfg, srv, sub, k - 1));
      assert labels + Advances(k) == labels + Advances(k - 1) + [Advance(0)];
    }
  }

  lemma AdvanceTwice<S, C>(cfg: Config<S, C>, srv: Server<S, C>, sub: Subscriber<S, C>, k: nat)
    ensures AdvanceTimes(cfg, srv, sub, k + 2)
         == AdvanceSub(cfg, srv, AdvanceSub(cfg, srv, AdvanceTimes(cfg, srv, sub, k)))
  {
    assert AdvanceTimes(cfg, srv, sub, k + 1) == AdvanceSub(cfg, srv, AdvanceTimes(cfg, srv, sub, k));
  }

  /** A screen_diff subscriber of a pane that has not printed anything. */
  function FreshListener<S, C>(format: Format, screen: S): Subscriber<S, C> {
    if format == Raw then NewSubscriber<S, C>(Raw).(phase := Listening)
    else Subscriber(ScreenDiff, Listening, 0, 0, Some(screen), [ResyncFrame(0, screen)], 1, 0, [])
  }

  lemma RunToListening<C>(format: Format, maxEvents: nat, capacity: Positive) returns (labels: seq<Label<C>>)
    ensures Run(Recorder(maxEvents, capacity), labels) == System(Published(maxEvents, []), [FreshListener(format, [])])
  {
    var cfg := Recorder<C>(maxEvents, capacity);
    labels := [Connect(format)];
    RunSnoc(cfg, [], Connect(format));
    assert [] + labels == labels;
    var srv := InitServer(cfg);
    assert EventsOf<C>([]) == [];
    var k := if format == Raw then 3 else 6;
    RunAdvances(cfg, labels, k, srv, NewSubscriber(format));
    labels := labels + Advances(k);
    FreshListenerAdvances(format, maxEvents, capacity, srv);
  }

  lemma FreshListenerAdvances<C>(format: Format, maxEvents: nat, capacity: Positive, srv: Server<seq<C>, C>)
    requires srv == InitServer(Recorder<C>(maxEvents, capacity))
    ensures AdvanceTimes(Recorder<C>(maxEvents, capacity), srv, NewSubscriber(format), if format == Raw then 3 else 6)
         == FreshListener(format, [])
  {
    var cfg, sub := Recorder<C>(maxEvents, capacity), NewSubscriber<seq<C>, C>(format);
    AdvanceTwice(cfg, srv, sub, 0);
    var s2 := AdvanceTimes(cfg, srv, sub, 2);
    assert s2 == sub.(phase := SendingHistory([]));
    var s3 := AdvanceTimes(cfg, srv, sub, 3);
    assert s3 == AdvanceSub(cfg, srv, s2);
    if format == ScreenDiff {
      assert s3 == sub.(phase := SnapSeq(false));
      AdvanceTwice(cfg, srv, sub, 3);
      assert AdvanceTimes(cfg, srv, sub, 5) == sub.(phase := SendResync(false, 0, [], 0));
      assert AdvanceTimes(cfg, srv, sub, 6) == AdvanceSub(cfg, srv, AdvanceTimes(cfg, srv, sub, 5));
    }
  }

  /** Listening with nothing received yet, and one chunk more broadcast than the channel holds. */
  lemma RunToLag<C>(format: Format, maxEvents: nat, capacity: Positive, chunk: C) returns (labels: seq<Label<C>>)
    ensures Run(Recorder(maxEvents, capacity), labels)
         == System(Published(maxEvents, Copies(chunk, capacity + 1)), [FreshListener(format, [])])
  {
    labels := RunToListening(format, maxEvents, capacity);
    labels := RunPublishCopies(maxEvents, capacity, labels, [FreshListener(format, [])], chunk, capacity + 1);
  }

  /** The subscriber after its lag: it has sent its resync and is about to resubscribe.
      `screen` is what the parser showed when it looked, with `n` events logged. */
  function AfterResync<C>(format: Format, n: nat, screen: seq<C>): Subscriber<seq<C>, C> {
    var sub := FreshListener<seq<C>, C>(format, []);
    sub.(phase := Resubscribing, cursor := 1, lastSent := n,
         baseline := if format == Raw then None else Some(screen),
         sent := sub.sent + [ResyncFrame(n, screen)], basePos := |screen|,
         recoveries := [Recovery(0, n, |screen|, 0)])
  }

  /** The same, resubscribed at position b. */
  function Resumed<C>(format: Format, n: nat, screen: seq<C>, b: nat): Subscriber<seq<C>, C> {
    AfterResync(format, n, screen).(phase := Listening, cursor := b, recoveries := [Recovery(0, n, |screen|, b)])
  }

  lemma LagAdvances<C>(format: Format, maxEvents: nat, capacity: Positive, srv: Server<seq<C>, C>, chunk: C)
    requires var h := Copies(chunk, capacity + 1);
      srv.log == LogAfter(h, maxEvents) && srv.channel == EventsOf(h)
    requires srv.screen == srv.history
    ensures AdvanceTimes(Recorder(maxEvents, capacity), srv, FreshListener(format, []), 4)
         == AfterResync(format, capacity + 1, srv.screen)
  {
    var cfg, sub := Recorder<C>(maxEvents, capacity), FreshListener<seq<C>, C>(format, []);
    LatestSeqCountsHistory(Copies(chunk, capacity + 1), maxEvents);
    AdvanceTwice(cfg, srv, sub, 0);
    assert AdvanceTimes(cfg, srv, sub, 2) == sub.(cursor := 1, phase := SnapScreen(true, capacity + 1));
    AdvanceTwice(cfg, srv, sub, 2);
  }

  lemma ResumeAdvances<C>(format: Format, maxEvents: nat, capacity: Positive, srv: Server<seq<C>, C>, n: nat,
                          screen: seq<C>)
    ensures AdvanceSub(Recorder(maxEvents, capacity), srv, AfterResync(format, n, screen))
         == Resumed(format, n, screen, |srv.channel|)
  {
  }

  lemma RunToResync<C>(format: Format, maxEvents: nat, capacity: Positive, chunk: C) returns (labels: seq<Label<C>>)
    ensures var h := Copies(chunk, capacity + 1);
      Run(Recorder(maxEvents, capacity), labels)
        == System(Published(maxEvents, h), [AfterResync(format, capacity + 1, h)])
  {
    var srv := Published(maxEvents, Copies(chunk, capacity + 1));
    labels := RunToLag(format, maxEvents, capacity, chunk);
    LagAdvances(format, maxEvents, capacity, srv, chunk);
    RunAdvances(Recorder(maxEvents, capacity), labels, 4, srv, FreshListener(format, []));
    labels := labels + Advances(4);
  }

  /** One more chunk is broadcast between the snapshot and the resubscription. */
  lemma RunToGap<C>(format: Format, maxEvents: nat, capacity: Positive, chunk: C) returns (labels: seq<Label<C>>)
    ensures var h, n := Copies(chunk, capacity + 1), capacity + 1;
      Run(Recorder(maxEvents, capacity), labels)
        == System(Published(maxEvents, h + [chunk]), [Resumed(format, n, h, n + 1)])
  {
    var cfg, h := Recorder<C>(maxEvents, capacity), Copies(chunk, capacity + 1);
    var sub := AfterResync(format, capacity + 1, h);
    labels := RunToResync(format, maxEvents, capacity, chunk);
    RunPublish(maxEvents, capacity, labels, h, [sub], chunk);
    labels := labels + WriteAll(chunk);
    RunAdvance(cfg, labels, Published(maxEvents, h + [chunk]), sub);
    ResumeAdvances(format, maxEvents, capacity, Published(maxEvents, h + [chunk]), capacity + 1, h);
    labels := labels + [Advance(0)];
  }

  /** The client is drained, the writer idle, and a screen_diff client lacks the last chunk. */
  lemma DiffCanMissTheTail<C>(maxEvents: nat, capacity: Positive, chunk: C)
    ensures exists labels: seq<Label<C>> ::
      var cfg := Recorder<C>(maxEvents, capacity);
      var sys := Run(cfg, labels);
      && Drained(sys, 0) && sys.subs[0].format == ScreenDiff
      && MissedTail(sys.subs[0], |sys.server.history|)
      && ClientScreen(cfg, sys.subs[0].sent) != ScreenAfter(cfg, sys.server.history)
  {
    var labels := RunToGap(ScreenDiff, maxEvents, capacity, chunk);
    DrainedDiffAgreesIff(maxEvents, capacity, labels, 0);
  }

  /** The same run loses the chunk for a raw client, whose last_sent_seq stays behind it. */
  lemma RawCanMissTheTail<C>(maxEvents: nat, capacity: Positive, chunk: C)
    ensures exists labels: seq<Label<C>> ::
      var cfg := Recorder<C>(maxEvents, capacity);
      var sys := Run(cfg, labels);
      && Drained(sys, 0) && sys.subs[0].format == Raw
      && MissedTailSeq(sys.subs[0], |sys.server.history|)
      && ClientScreen(cfg, sys.subs[0].sent) != ScreenAfter(cfg, sys.server.history)
  {
    var labels := RunToGap(Raw, maxEvents, capacity, chunk);
    DrainedRawAgreesIff(maxEvents, capacity, labels, 0);
  }

  /** The last chunk is parsed but not yet logged. */
  function Unlogged<C>(maxEvents: nat, h: seq<C>, chunk: C): Server<seq<C>, C> {
    Published(maxEvents, h).(screen := h + [chunk], history := h + [chunk], writer := Parsed(chunk))
  }

  lemma RunToEarlyResync<C>(maxEvents: nat, capacity: Positive, chunk: C) returns (labels: seq<Label<C>>)
    ensures var h := Copies(chunk, capacity + 1);
      Run(Recorder(maxEvents, capacity), labels)
        == System(Unlogged(maxEvents, h, chunk), [AfterResync(Raw, capacity + 1, h + [chunk])])
  {
    var cfg, h := Recorder<C>(maxEvents, capacity), Copies(chunk, capacity + 1);
    labels := RunToLag(Raw, maxEvents, capacity, chunk);
    RunSnoc(cfg, labels, Write(Parse(chunk)));
    RecorderProcess(maxEvents, capacity, h, chunk);
    labels := labels + [Write(Parse(chunk))];
    RunAdvances(cfg, labels, 4, Unlogged(maxEvents, h, chunk), FreshListener(Raw, []));
    LagAdvances(Raw, maxEvents, capacity, Unlogged(maxEvents, h, chunk), chunk);
    labels := labels + Advances(4);
  }

  lemma RunToEarlySnapshot<C>(maxEvents: nat, capacity: Positive, chunk: C) returns (labels: seq<Label<C>>)
    ensures var h, n := Copies(chunk, capacity + 1), capacity + 1;
      Run(Recorder(maxEvents, capacity), labels)
        == System(Published(maxEvents, h + [chunk]), [Resumed(Raw, n, h + [chunk], n)])
  {
    var cfg, h := Recorder<C>(maxEvents, capacity), Copies(chunk, capacity + 1);
    labels := RunToEarlyResync(maxEvents, capacity, chunk);
    RunAdvance(cfg, labels, Unlogged(maxEvents, h, chunk), AfterResync(Raw, capacity + 1, h + [chunk]));
    ResumeAdvances(Raw, maxEvents, capacity, Unlogged(maxEvents, h, chunk), capacity + 1, h + [chunk]);
    labels := labels + [Advance(0)];
    RunSnoc(cfg, labels, Write(Append));
    RunSnoc(cfg, labels + [Write(Append)], Write(Broadcast));
    PublishedNext(maxEvents, h, chunk);
    labels := labels + [Write(Append)] + [Write(Broadcast)];
  }

  lemma LastChunkAdvances<C>(maxEvents: nat, capacity: Positive, h: seq<C>, chunk: C)
    requires |h| == capacity + 1
    ensures var sub := Resumed(Raw, |h|, h + [chunk], |h|);
      AdvanceTimes(Recorder(maxEvents, capacity), Published(maxEvents, h + [chunk]), sub, 2)
        == sub.(cursor := |h| + 1, lastSent := |h| + 1, sent := sub.sent + [RawFrame(|h| + 1, chunk)])
  {
    AdvanceTwice(Recorder(maxEvents, capacity), Published(maxEvents, h + [chunk]),
                 Resumed(Raw, |h|, h + [chunk], |h|), 0);
  }

  /** The last chunk is parsed but not yet logged when the snapshot is taken: the raw client
      gets it in the snapshot and once more as an event. */
  lemma RawCanApplyTwice<C>(maxEvents: nat, capacity: Positive, chunk: C)
    ensures exists labels: seq<Label<C>> ::
      var cfg := Recorder<C>(maxEvents, capacity);
      var sys := Run(cfg, labels);
      && Drained(sys, 0) && sys.subs[0].format == Raw
      && sys.subs[0].lastSent == |sys.server.history|
      && |ClientScreen(cfg, sys.subs[0].sent)| == |sys.server.history| + 1
  {
    var cfg, h := Recorder<C>(maxEvents, capacity), Copies(chunk, capacity + 1);
    var labels := RunToEarlySnapshot(maxEvents, capacity, chunk);
    var srv, sub := Published(maxEvents, h + [chunk]), Resumed(Raw, |h|, h + [chunk], |h|);
    RunAdvances(cfg, labels, 2, srv, sub);
    LastChunkAdvances(maxEvents, capacity, h, chunk);
    labels := labels + Advances(2);
    TwiceOnScreen(maxEvents, capacity, h, chunk);
    assert Run(cfg, labels).subs[0].sent == sub.sent + [RawFrame(|h| + 1, chunk)];
  }

  lemma TwiceOnScreen<C>(maxEvents: nat, capacity: Positive, h: seq<C>, chunk: C)
    ensures var cfg := Recorder(maxEvents, capacity);
      ClientScreen(cfg, Resumed(Raw, |h|, h + [chunk], |h|).sent + [RawFrame(|h| + 1, chunk)]) == h + [chunk] + [chunk]
  {
    var cfg := Recorder<C>(maxEvents, capacity);
    var resync: Frame<seq<C>, C> := ResyncFrame(|h|, h + [chunk]);
    assert Resumed(Raw, |h|, h + [chunk], |h|).sent == [] + [resync];
    ClientAppend(cfg, [], resync);
    ClientAppend(cfg, [] + [resync], RawFrame(|h| + 1, chunk));
    RecorderProcess(maxEvents, capacity, h + [chunk], chunk);
  }
}
