/** What a pane stream guarantees to its subscribers, over every interleaving. */
module StreamTheorems {
  import opened Wrappers
  import opened EventLogs
  import opened StreamProtocol
  import opened StreamInvariants

  /** Every chunk read has been broadcast, and the subscriber has received all of it. */
  ghost predicate Drained<S, C>(sys: System<S, C>, i: nat) {
    && i < |sys.subs| && sys.server.writer.Reading?
    && sys.subs[i].phase.Listening? && sys.subs[i].cursor == |sys.server.channel|
  }

  ghost function LastRecovery<S, C>(sub: Subscriber<S, C>): Recovery
    requires sub.recoveries != []
  {
    sub.recoveries[|sub.recoveries| - 1]
  }

  // ---- Both formats --------------------------------------------------------------

  ghost predicate SameEvent<S, C>(f: Frame<S, C>, g: Frame<S, C>) {
    !f.ResyncFrame? && !g.ResyncFrame? && f.seqNo == g.seqNo
  }

  /** Frame seqs never decrease, frames other than resyncs strictly increase, so no event is
      sent twice; and in both formats each raw frame carries the chunk of its seq. */
  lemma FramesAreOrdered<S, C>(cfg: Config<S, C>, labels: seq<Label<C>>, i: nat)
    requires i < |Run(cfg, labels).subs|
    ensures Ordered(Run(cfg, labels).subs[i].sent)
    ensures var sent := Run(cfg, labels).subs[i].sent;
      forall a, b :: 0 <= a < |sent| && 0 <= b < |sent| && SameEvent(sent[a], sent[b]) ==> a == b
    ensures CarriesChunks(Run(cfg, labels).server.history, Run(cfg, labels).subs[i].sent)
  {
    RunKeepsInv(cfg, labels);
  }

  /** The "lost its baseline" exit of handle_ws is never taken. */
  lemma BaselineIsNeverLost<S, C>(cfg: Config<S, C>, labels: seq<Label<C>>, i: nat)
    requires i < |Run(cfg, labels).subs|
    ensures !Run(cfg, labels).subs[i].phase.LostBaseline?
  {
    RunKeepsInv(cfg, labels);
  }

  lemma StepOnlyAppends<S, C>(cfg: Config<S, C>, sys: System<S, C>, act: Label<C>, i: nat)
    requires i < |sys.subs|
    ensures var next := Step(cfg, sys, act);
      i < |next.subs| && sys.subs[i].sent <= next.subs[i].sent && sys.subs[i].format == next.subs[i].format
  {
    if act == Advance(i) { assert sys.subs[i].sent <= AdvanceSub(cfg, sys.server, sys.subs[i]).sent; }
  }

  lemma RunSnoc<S, C>(cfg: Config<S, C>, labels: seq<Label<C>>, act: Label<C>)
    ensures Run(cfg, labels + [act]) == Step(cfg, Run(cfg, labels), act)
  {
    assert (labels + [act])[..|labels|] == labels;
  }

  lemma RunAdvance<S, C>(cfg: Config<S, C>, labels: seq<Label<C>>, srv: Server<S, C>, sub: Subscriber<S, C>)
    requires Run(cfg, labels) == System(srv, [sub])
    ensures Run(cfg, labels + [Advance(0)]) == System(srv, [AdvanceSub(cfg, srv, sub)])
  {
    RunSnoc(cfg, labels, Advance(0));
  }

  /** Whatever happens later, what was sent stays sent, and no subscriber changes format. */
  lemma {:induction false} SentOnlyGrows<S, C>(cfg: Config<S, C>, labels: seq<Label<C>>, more: seq<Label<C>>, i: nat)
    requires i < |Run(cfg, labels).subs|
    ensures i < |Run(cfg, labels + more).subs|
    ensures Run(cfg, labels).subs[i].sent <= Run(cfg, labels + more).subs[i].sent
    ensures Run(cfg, labels).subs[i].format == Run(cfg, labels + more).subs[i].format
    decreases |more|
  {
    if more == [] {
      assert labels + more == labels;
    } else {
      RunSnoc(cfg, labels, more[0]);
      StepOnlyAppends(cfg, Run(cfg, labels), more[0], i);
      SentOnlyGrows(cfg, labels + [more[0]], more[1..], i);
      assert labels + [more[0]] + more[1..] == labels + more;
    }
  }

  // ---- screen_diff -----------------------------------------------------------------

  /** Between sends, a screen_diff client shows exactly the server-side baseline, which is
      Screen(p) for a parser position p that is not behind last_sent_seq. While a diff is being
      sent, the client still shows the base that diff was computed from. */
  lemma DiffReplicaAgrees<S, C>(cfg: Config<S, C>, labels: seq<Label<C>>, i: nat)
    requires i < |Run(cfg, labels).subs|
    requires var sub := Run(cfg, labels).subs[i]; sub.format == ScreenDiff && Live(sub.phase)
    ensures var sys := Run(cfg, labels);
      var sub := sys.subs[i];
      && sub.baseline.Some?
      && sub.lastSent <= sub.basePos <= |sys.server.history|
      && sub.baseline.value == ScreenAfter(cfg, sys.server.history[..sub.basePos])
      && ClientScreen(cfg, sub.sent) == (if sub.phase.SendDiff? then sub.phase.base else sub.baseline.value)
      && (sub.phase.SendDiff? ==> sub.phase.target == sub.baseline.value)
  {
    RunKeepsInv(cfg, labels);
  }

  /** The last recovery resubscribed past the position its snapshot was taken at, and
      nothing has been broadcast since: the events in between are in neither. */
  ghost predicate MissedTail<S, C>(sub: Subscriber<S, C>, n: nat) {
    sub.recoveries != [] && LastRecovery(sub).resumeAt == n && LastRecovery(sub).screenPos < n
  }

  /** Once the writer is idle after N chunks and the receiver is drained, the client shows
      Screen(N), unless its last lag recovery missed the tail; then it shows that snapshot. */
  lemma DiffConverges<S, C>(cfg: Config<S, C>, labels: seq<Label<C>>, i: nat)
    requires Drained(Run(cfg, labels), i) && Run(cfg, labels).subs[i].format == ScreenDiff
    ensures var sys := Run(cfg, labels);
      var sub, h := sys.subs[i], sys.server.history;
      && (MissedTail(sub, |h|) ==> LastRecovery(sub).screenPos <= |h|)
      && ClientScreen(cfg, sub.sent)
           == ScreenAfter(cfg, if MissedTail(sub, |h|) then h[..LastRecovery(sub).screenPos] else h)
  {
    RunKeepsInv(cfg, labels);
    DrainedShows(cfg, Run(cfg, labels).server, Run(cfg, labels).subs[i]);
  }

  lemma DrainedShows<S, C>(cfg: Config<S, C>, srv: Server<S, C>, sub: Subscriber<S, C>)
    requires ServerInv(cfg, srv) && SubInv(cfg, srv, sub) && sub.format == ScreenDiff
    requires srv.writer.Reading? && sub.phase.Listening? && sub.cursor == |srv.channel|
    ensures var h := srv.history;
      && (MissedTail(sub, |h|) ==> LastRecovery(sub).screenPos <= |h|)
      && ClientScreen(cfg, sub.sent)
           == ScreenAfter(cfg, if MissedTail(sub, |h|) then h[..LastRecovery(sub).screenPos] else h)
  {
    assert srv.history[..|srv.history|] == srv.history;
  }

  // ---- Raw --------------------------------------------------------------------------

  /** A raw subscriber's whole transcript is determined by where its history started and by
      its lag recoveries; without a lag it is one contiguous run, history and live alike. */
  lemma RawTranscript<S, C>(cfg: Config<S, C>, labels: seq<Label<C>>, i: nat)
    requires i < |Run(cfg, labels).subs| && Run(cfg, labels).subs[i].format == Raw
    ensures var sys := Run(cfg, labels);
      var sub, h := sys.subs[i], sys.server.history;
      && 1 <= sub.firstSeq <= |h| + 1 && RecoveriesBounded(sub.recoveries, |h|) && sub.lastSent <= |h|
      && sub.sent == Transcript(cfg, h, sub.firstSeq, sub.recoveries, sub.lastSent)
      && (sub.recoveries == [] ==> sub.sent == RawRun(h, sub.firstSeq - 1, sub.lastSent))
  {
    TranscriptInRun(cfg, labels, Run(cfg, labels), i);
  }

  lemma TranscriptInRun<S, C>(cfg: Config<S, C>, labels: seq<Label<C>>, sys: System<S, C>, i: nat)
    requires sys == Run(cfg, labels) && i < |sys.subs| && sys.subs[i].format == Raw
    ensures var sub, h := sys.subs[i], sys.server.history;
      && 1 <= sub.firstSeq <= |h| + 1 && RecoveriesBounded(sub.recoveries, |h|) && sub.lastSent <= |h|
      && sub.sent == Transcript(cfg, h, sub.firstSeq, sub.recoveries, sub.lastSent)
      && (sub.recoveries == [] ==> sub.sent == RawRun(h, sub.firstSeq - 1, sub.lastSent))
  {
    RunKeepsInv(cfg, labels);
    TranscriptOf(cfg, sys.server, sys.subs[i]);
  }

  lemma TranscriptOf<S, C>(cfg: Config<S, C>, srv: Server<S, C>, sub: Subscriber<S, C>)
    requires ServerInv(cfg, srv) && SubInv(cfg, srv, sub) && sub.format == Raw
    ensures var h := srv.history;
      && 1 <= sub.firstSeq <= |h| + 1 && RecoveriesBounded(sub.recoveries, |h|) && sub.lastSent <= |h|
      && sub.sent == Transcript(cfg, h, sub.firstSeq, sub.recoveries, sub.lastSent)
      && (sub.recoveries == [] ==> sub.sent == RawRun(h, sub.firstSeq - 1, sub.lastSent))
  {
  }

  /** Accounted for: sent as a raw frame, or within the resync or the gap of a recovery
      whose full screen has been sent. */
  ghost predicate Covered<S, C>(h: seq<C>, sub: Subscriber<S, C>, k: nat)
    requires 1 <= k <= |h|
  {
    || RawFrame(k, h[k - 1]) in sub.sent
    || exists j :: 0 <= j < |sub.recoveries| && CoveredBy(sub.sent, sub.recoveries[j], k)
  }

  ghost predicate CoveredBy<S, C>(sent: seq<Frame<S, C>>, r: Recovery, k: nat) {
    && (k <= r.seqNo || r.seqNo < k <= r.resumeAt)
    && exists f :: f in sent && f.ResyncFrame? && f.seqNo == r.seqNo
  }

  lemma {:induction false} RawRunHas<S, C>(h: seq<C>, lo: nat, hi: nat, k: nat)
    requires lo < k <= hi <= |h|
    ensures RawFrame(k, h[k - 1]) in RawRun<S, C>(h, lo, hi)
  {
    if k < hi { RawRunHas<S, C>(h, lo, hi - 1, k); }
  }

  lemma {:induction false} TranscriptCovers<S, C>(cfg: Config<S, C>, h: seq<C>, firstSeq: Positive,
                                 recoveries: seq<Recovery>, last: nat, k: nat)
    requires RecoveriesBounded(recoveries, |h|) && firstSeq <= k <= last <= |h|
    ensures var sent := Transcript(cfg, h, firstSeq, recoveries, last);
      RawFrame(k, h[k - 1]) in sent
      || exists j :: 0 <= j < |recoveries| && CoveredBy(sent, recoveries[j], k)
  {
    var lo := ResumesAfter(firstSeq, recoveries);
    var sent := Transcript(cfg, h, firstSeq, recoveries, last);
    if lo < k {
      RawRunHas<S, C>(h, lo, last, k);
      assert RawFrame(k, h[k - 1]) in RawRun<S, C>(h, lo, last);
    } else {
      var r := recoveries[|recoveries| - 1];
      var resync := ResyncFrame(r.seqNo, ScreenAfter(cfg, h[..r.screenPos]));
      assert resync in sent;
      assert CoveredBy(sent, r, k);
    }
  }

  /** Every seq from the oldest retained at the start up to last_sent_seq is accounted for. */
  lemma RawCoverage<S, C>(cfg: Config<S, C>, labels: seq<Label<C>>, i: nat, k: nat)
    requires i < |Run(cfg, labels).subs| && Run(cfg, labels).subs[i].format == Raw
    requires Run(cfg, labels).subs[i].firstSeq <= k <= Run(cfg, labels).subs[i].lastSent
    ensures 1 <= k <= |Run(cfg, labels).server.history|
    ensures Covered(Run(cfg, labels).server.history, Run(cfg, labels).subs[i], k)
  {
    RunKeepsInv(cfg, labels);
    var sys := Run(cfg, labels);
    var sub := sys.subs[i];
    TranscriptCovers(cfg, sys.server.history, sub.firstSeq, sub.recoveries, sub.lastSent, k);
  }

  ghost predicate MissedTailSeq<S, C>(sub: Subscriber<S, C>, n: nat) {
    sub.recoveries != [] && LastRecovery(sub).resumeAt == n && LastRecovery(sub).seqNo < n
  }

  /** A drained raw subscriber has reached the last event, unless its last recovery
      resubscribed past events that its resync seq does not claim. */
  lemma RawReachesTheEnd<S, C>(cfg: Config<S, C>, labels: seq<Label<C>>, i: nat)
    requires Drained(Run(cfg, labels), i) && Run(cfg, labels).subs[i].format == Raw
    ensures var sys := Run(cfg, labels);
      var sub, n := sys.subs[i], |sys.server.history|;
      sub.lastSent == (if MissedTailSeq(sub, n) then LastRecovery(sub).seqNo else n)
  {
    RunKeepsInv(cfg, labels);
  }

  lemma RawRunProcesses<S, C>(cfg: Config<S, C>, sent: seq<Frame<S, C>>, h: seq<C>, lo: nat, hi: nat)
    requires lo < hi <= |h|
    ensures ClientScreen(cfg, sent + RawRun(h, lo, hi))
         == cfg.process(ClientScreen(cfg, sent + RawRun(h, lo, hi - 1)), h[hi - 1])
  {
    assert sent + RawRun(h, lo, hi) == (sent + RawRun(h, lo, hi - 1)) + [RawFrame(hi, h[hi - 1])];
    ClientAppend(cfg, sent + RawRun(h, lo, hi - 1), RawFrame(hi, h[hi - 1]));
  }

  lemma {:induction false} RawRunReplays<S, C>(cfg: Config<S, C>, sent: seq<Frame<S, C>>, h: seq<C>, lo: nat, hi: nat)
    requires lo <= |h| && hi <= |h|
    requires ClientScreen(cfg, sent) == ScreenAfter(cfg, h[..lo])
    ensures ClientScreen(cfg, sent + RawRun(h, lo, hi)) == ScreenAfter(cfg, h[..Max(lo, hi)])
  {
    if hi <= lo {
      assert sent + RawRun(h, lo, hi) == sent;
    } else {
      RawRunReplays(cfg, sent, h, lo, hi - 1);
      RawRunProcesses(cfg, sent, h, lo, hi);
      assert h[..hi][..hi - 1] == h[..hi - 1];
    }
  }

  /** Nothing was missing where the current raw run started: no eviction before the history
      was read or, after a recovery, a snapshot taken exactly at max(S, b). */
  ghost predicate CleanStart<S, C>(sub: Subscriber<S, C>) {
    if sub.recoveries == [] then sub.firstSeq == 1
    else LastRecovery(sub).screenPos == Max(LastRecovery(sub).seqNo, LastRecovery(sub).resumeAt)
  }

  /** From a clean start on, whatever was lost or evicted before, the client shows the screen
      at last_sent_seq (or still at the snapshot, when no later event was sent yet). */
  lemma RawReplicaAgrees<S, C>(cfg: Config<S, C>, labels: seq<Label<C>>, i: nat)
    requires i < |Run(cfg, labels).subs| && Run(cfg, labels).subs[i].format == Raw
    requires CleanStart(Run(cfg, labels).subs[i])
    ensures var sys := Run(cfg, labels);
      var sub, h := sys.subs[i], sys.server.history;
      var shown := if sub.recoveries == [] then sub.lastSent else Max(sub.lastSent, LastRecovery(sub).screenPos);
      shown <= |h| && ClientScreen(cfg, sub.sent) == ScreenAfter(cfg, h[..shown])
  {
    RawTranscript(cfg, labels, i);
    var sys := Run(cfg, labels);
    TranscriptReplays(cfg, sys.server.history, sys.subs[i].firstSeq, sys.subs[i].recoveries, sys.subs[i].lastSent);
  }

  /** What a client makes of a transcript whose last run starts clean. */
  lemma TranscriptReplays<S, C>(cfg: Config<S, C>, h: seq<C>, firstSeq: Positive, recoveries: seq<Recovery>, last: nat)
    requires RecoveriesBounded(recoveries, |h|) && last <= |h|
    requires if recoveries == [] then firstSeq == 1
             else recoveries[|recoveries| - 1].screenPos == ResumesAfter(firstSeq, recoveries)
    ensures var shown := if recoveries == [] then last else Max(last, recoveries[|recoveries| - 1].screenPos);
      shown <= |h|
      && ClientScreen(cfg, Transcript(cfg, h, firstSeq, recoveries, last)) == ScreenAfter(cfg, h[..shown])
  {
    if recoveries == [] {
      RawRunReplays(cfg, [], h, 0, last);
      assert [] + RawRun<S, C>(h, 0, last) == RawRun(h, 0, last);
    } else {
      var n := |recoveries| - 1;
      var r := recoveries[n];
      var before := Transcript(cfg, h, firstSeq, recoveries[..n], r.before);
      var resync := ResyncFrame(r.seqNo, ScreenAfter(cfg, h[..r.screenPos]));
      ClientAppend(cfg, before, resync);
      RawRunReplays(cfg, before + [resync], h, r.screenPos, last);
    }
  }

  // ---- Exactness, on the terminal that forgets nothing -----------------------------------

  /** A terminal whose screen is the list of chunks it was fed. */
  function Recorder<C>(maxEvents: nat, capacity: Positive): Config<seq<C>, C> {
    Config([], (screen: seq<C>, chunk: C) => screen + [chunk],
           (screen: seq<C>, base: seq<C>, target: seq<C>) => target, maxEvents, capacity)
  }

  lemma RecorderProcess<C>(maxEvents: nat, capacity: Positive, screen: seq<C>, chunk: C)
    ensures Recorder(maxEvents, capacity).process(screen, chunk) == screen + [chunk]
  {
  }

  lemma RecorderScreenNext<C>(maxEvents: nat, capacity: Positive, h: seq<C>)
    requires h != []
    ensures var cfg := Recorder(maxEvents, capacity);
      ScreenAfter(cfg, h) == ScreenAfter(cfg, h[..|h| - 1]) + [h[|h| - 1]]
  {
    RecorderProcess(maxEvents, capacity, ScreenAfter(Recorder(maxEvents, capacity), h[..|h| - 1]), h[|h| - 1]);
  }

  lemma LastJoins<C>(init: seq<C>, whole: seq<C>, h: seq<C>)
    requires h != [] && init == h[..|h| - 1] && whole == init + [h[|h| - 1]]
    ensures whole == h
  {
  }

  lemma {:induction false} RecorderShowsHistory<C>(maxEvents: nat, capacity: Positive, h: seq<C>)
    ensures ScreenAfter(Recorder(maxEvents, capacity), h) == h
  {
    if h != [] {
      var cfg := Recorder<C>(maxEvents, capacity);
      RecorderShowsHistory(maxEvents, capacity, h[..|h| - 1]);
      RecorderScreenNext(maxEvents, capacity, h);
      LastJoins(ScreenAfter(cfg, h[..|h| - 1]), ScreenAfter(cfg, h), h);
    }
  }

  lemma {:induction false} RecorderRawRun<C>(maxEvents: nat, capacity: Positive, sent: seq<Frame<seq<C>, C>>,
                                             h: seq<C>, lo: nat, hi: nat)
    requires lo <= hi <= |h|
    ensures ClientScreen(Recorder(maxEvents, capacity), sent + RawRun(h, lo, hi))
         == ClientScreen(Recorder(maxEvents, capacity), sent) + h[lo..hi]
  {
    if hi <= lo {
      assert sent + RawRun(h, lo, hi) == sent;
    } else {
      var cfg := Recorder<C>(maxEvents, capacity);
      RecorderRawRun(maxEvents, capacity, sent, h, lo, hi - 1);
      RawRunProcesses(cfg, sent, h, lo, hi);
      RecorderProcess(maxEvents, capacity, ClientScreen(cfg, sent + RawRun(h, lo, hi - 1)), h[hi - 1]);
      AppendNext(ClientScreen(cfg, sent), h, lo, hi);
    }
  }

  lemma AppendNext<C>(shown: seq<C>, h: seq<C>, lo: nat, hi: nat)
    requires lo < hi <= |h|
    ensures shown + h[lo..hi - 1] + [h[hi - 1]] == shown + h[lo..hi]
  {
  }

  /** A raw client's screen on that terminal: the snapshot, then the chunks of the run. */
  lemma RecorderTranscript<C>(maxEvents: nat, capacity: Positive, h: seq<C>, firstSeq: Positive,
                              recoveries: seq<Recovery>, last: nat)
    requires RecoveriesBounded(recoveries, |h|) && last <= |h|
    ensures var cfg := Recorder(maxEvents, capacity);
      var lo := ResumesAfter(firstSeq, recoveries);
      ClientScreen(cfg, Transcript(cfg, h, firstSeq, recoveries, last))
        == h[..StartPos(recoveries)] + (if lo < last then h[lo..last] else [])
  {
    var cfg, lo := Recorder<C>(maxEvents, capacity), ResumesAfter(firstSeq, recoveries);
    if recoveries == [] {
      RecorderRun(maxEvents, capacity, [], h, lo, last);
      assert [] + RawRun<seq<C>, C>(h, lo, last) == RawRun(h, lo, last);
    } else {
      var n := |recoveries| - 1;
      var r := recoveries[n];
      var before := Transcript(cfg, h, firstSeq, recoveries[..n], r.before);
      RecorderShowsHistory(maxEvents, capacity, h[..r.screenPos]);
      ClientAppend(cfg, before, ResyncFrame(r.seqNo, h[..r.screenPos]));
      RecorderRun(maxEvents, capacity, before + [ResyncFrame(r.seqNo, h[..r.screenPos])], h, lo, last);
    }
  }

  lemma RecorderRun<C>(maxEvents: nat, capacity: Positive, sent: seq<Frame<seq<C>, C>>, h: seq<C>, lo: nat, hi: nat)
    requires hi <= |h|
    ensures ClientScreen(Recorder(maxEvents, capacity), sent + RawRun(h, lo, hi))
         == ClientScreen(Recorder(maxEvents, capacity), sent) + (if lo < hi then h[lo..hi] else [])
  {
    if lo < hi {
      RecorderRawRun(maxEvents, capacity, sent, h, lo, hi);
    } else {
      assert sent + RawRun(h, lo, hi) == sent;
    }
  }

  /** Where the current raw run's screen starts from: blank, or the last recovery's snapshot. */
  function StartPos(recoveries: seq<Recovery>): nat {
    if recoveries == [] then 0 else recoveries[|recoveries| - 1].screenPos
  }

  /** A prefix and a later stretch are a prefix exactly when they meet, or when the stretch is
      empty and the first prefix is the whole. */
  lemma SplicedIff<C>(h: seq<C>, upTo: nat, from: nat, last: nat)
    requires upTo <= |h| && last <= |h|
    ensures h[..upTo] + (if from < last then h[from..last] else []) == h[..last] <==> upTo == Min(from, last)
  {
    if from < last {
      if upTo == from { assert h[..last] == h[..from] + h[from..last]; }
      assert |h[..upTo] + h[from..last]| == upTo + last - from;
    } else {
      assert h[..upTo] + [] == h[..upTo];
      assert |h[..upTo]| == upTo && |h[..last]| == last;
    }
  }

  /** When exactly, on that terminal, a raw client shows the screen at last_sent_seq, in any
      state: the screen it started from must be the one at max(S, b), or, as long as no event
      was sent since, at last_sent_seq itself. */
  lemma RawReplicaAgreesIff<C>(maxEvents: nat, capacity: Positive, labels: seq<Label<C>>, i: nat)
    requires var sys := Run(Recorder(maxEvents, capacity), labels);
      i < |sys.subs| && sys.subs[i].format == Raw
    ensures var cfg := Recorder(maxEvents, capacity);
      var sys := Run(cfg, labels);
      var sub := sys.subs[i];
      && sub.firstSeq >= 1 && sub.lastSent <= |sys.server.history|
      && (ClientScreen(cfg, sub.sent) == ScreenAfter(cfg, sys.server.history[..sub.lastSent])
          <==> StartPos(sub.recoveries) == Min(ResumesAfter(sub.firstSeq, sub.recoveries), sub.lastSent))
  {
    var cfg := Recorder<C>(maxEvents, capacity);
    RawTranscript(cfg, labels, i);
    var sys := Run(cfg, labels);
    var sub, h := sys.subs[i], sys.server.history;
    RecorderShowsHistory(maxEvents, capacity, h[..sub.lastSent]);
    RecorderTranscript(maxEvents, capacity, h, sub.firstSeq, sub.recoveries, sub.lastSent);
    SplicedIff(h, StartPos(sub.recoveries), ResumesAfter(sub.firstSeq, sub.recoveries), sub.lastSent);
  }

  /** Drained and with the writer idle, a raw client on that terminal is up to date if and only
      if its current run started clean. */
  lemma DrainedRawAgreesIff<C>(maxEvents: nat, capacity: Positive, labels: seq<Label<C>>, i: nat)
    requires var sys := Run(Recorder(maxEvents, capacity), labels);
      Drained(sys, i) && sys.subs[i].format == Raw
    ensures var cfg := Recorder(maxEvents, capacity);
      var sys := Run(cfg, labels);
      ClientScreen(cfg, sys.subs[i].sent) == ScreenAfter(cfg, sys.server.history) <==> CleanStart(sys.subs[i])
  {
    var cfg := Recorder<C>(maxEvents, capacity);
    RawTranscript(cfg, labels, i);
    RawReachesTheEnd(cfg, labels, i);
    var sys := Run(cfg, labels);
    var sub, h := sys.subs[i], sys.server.history;
    RecorderShowsHistory(maxEvents, capacity, h);
    RecorderTranscript(maxEvents, capacity, h, sub.firstSeq, sub.recoveries, sub.lastSent);
    DrainedIsClean(cfg, sys, i);
    WholeIff(h, StartPos(sub.recoveries), ResumesAfter(sub.firstSeq, sub.recoveries), sub.lastSent);
  }

  /** The positions of a drained raw subscriber. */
  lemma DrainedIsClean<S, C>(cfg: Config<S, C>, sys: System<S, C>, i: nat)
    requires Drained(sys, i) && sys.subs[i].format == Raw && sys.subs[i].firstSeq >= 1
    requires var sub, n := sys.subs[i], |sys.server.history|;
      && RecoveriesBounded(sub.recoveries, n) && (sub.recoveries == [] ==> sub.firstSeq <= n + 1)
      && sub.lastSent == (if MissedTailSeq(sub, n) then LastRecovery(sub).seqNo else n)
    ensures var sub, n := sys.subs[i], |sys.server.history|;
      var lo := ResumesAfter(sub.firstSeq, sub.recoveries);
      && lo <= n && (sub.lastSent == n || (sub.lastSent < n && lo == n))
      && (CleanStart(sub) <==> StartPos(sub.recoveries) == lo)
  {
  }

  lemma WholeIff<C>(h: seq<C>, upTo: nat, from: nat, last: nat)
    requires upTo <= |h| && last <= |h| && from <= |h| && (last == |h| || from == |h|)
    ensures h[..upTo] + (if from < last then h[from..last] else []) == h <==> upTo == from
  {
    assert h[..|h|] == h;
    if from < last {
      SplicedIff(h, upTo, from, last);
    } else {
      assert h[..upTo] + [] == h[..upTo];
      assert |h[..upTo]| == upTo;
    }
  }

  /** The same for screen_diff. */
  lemma DrainedDiffAgreesIff<C>(maxEvents: nat, capacity: Positive, labels: seq<Label<C>>, i: nat)
    requires var sys := Run(Recorder(maxEvents, capacity), labels);
      Drained(sys, i) && sys.subs[i].format == ScreenDiff
    ensures var cfg := Recorder(maxEvents, capacity);
      var sys := Run(cfg, labels);
      && (ClientScreen(cfg, sys.subs[i].sent) == ScreenAfter(cfg, sys.server.history)
          <==> !MissedTail(sys.subs[i], |sys.server.history|))
  {
    var cfg := Recorder<C>(maxEvents, capacity);
    DiffConverges(cfg, labels, i);
    var sys := Run(cfg, labels);
    var sub, h := sys.subs[i], sys.server.history;
    RecorderShowsHistory(maxEvents, capacity, h);
    if MissedTail(sub, |h|) {
      RecorderShowsHistory(maxEvents, capacity, h[..LastRecovery(sub).screenPos]);
      assert |h[..LastRecovery(sub).screenPos]| < |h|;
    }
  }
}
