/** What every step of the pane stream protocol keeps. */
module StreamInvariants {
  import opened Wrappers
  import opened EventLogs
  import opened StreamProtocol

  // ---- The server ---------------------------------------------------------------

  /** Events logged so far; the writer parses before it logs and logs before it broadcasts. */
  ghost function LoggedCount<S, C>(srv: Server<S, C>): nat {
    if srv.writer.Parsed? && |srv.history| > 0 then |srv.history| - 1 else |srv.history|
  }

  ghost predicate ServerInv<S, C>(cfg: Config<S, C>, srv: Server<S, C>) {
    var n := |srv.history|;
    && srv.screen == ScreenAfter(cfg, srv.history)
    && srv.log == LogAfter(srv.history[..LoggedCount(srv)], cfg.maxEvents)
    && |srv.channel| <= n && srv.channel == EventsOf(srv.history)[..|srv.channel|]
    && match srv.writer
       case Reading => |srv.channel| == n
       case Parsed(chunk) => n > 0 && |srv.channel| == n - 1 && chunk == srv.history[n - 1]
       case Logged(event) => n > 0 && |srv.channel| == n - 1 && event == Event(n, srv.history[n - 1])
  }

  lemma ParseKeepsInv<S, C>(cfg: Config<S, C>, srv: Server<S, C>, chunk: C)
    requires ServerInv(cfg, srv) && srv.writer.Reading?
    ensures ServerInv(cfg, WriterNext(cfg, srv, Parse(chunk)))
  {
    var n := |srv.history|;
    var h := srv.history + [chunk];
    assert h[..n] == srv.history == srv.history[..n];
    assert EventsOf(h)[..n] == EventsOf(srv.history)[..n];
  }

  lemma AppendKeepsInv<S, C>(cfg: Config<S, C>, srv: Server<S, C>)
    requires ServerInv(cfg, srv) && srv.writer.Parsed?
    ensures ServerInv(cfg, WriterNext(cfg, srv, Append))
  {
    var n := |srv.history|;
    assert srv.history[..n] == srv.history == srv.history[..n - 1] + [srv.writer.chunk];
    PushExtendsHistory(srv.history[..n - 1], cfg.maxEvents, srv.writer.chunk);
  }

  lemma BroadcastKeepsInv<S, C>(cfg: Config<S, C>, srv: Server<S, C>)
    requires ServerInv(cfg, srv) && srv.writer.Logged?
    ensures ServerInv(cfg, WriterNext(cfg, srv, Broadcast))
  {
    var n := |srv.history|;
    assert EventsOf(srv.history)[..n] == EventsOf(srv.history)[..n - 1] + [srv.writer.event];
  }

  /** A step of the writer keeps the server invariant, and only ever appends. */
  lemma WriterKeepsInv<S, C>(cfg: Config<S, C>, srv: Server<S, C>, step: WriterStep<C>)
    requires ServerInv(cfg, srv)
    ensures var next := WriterNext(cfg, srv, step);
      && ServerInv(cfg, next)
      && srv.history <= next.history
      && srv.channel <= next.channel
      && LoggedCount(srv) <= LoggedCount(next)
  {
    if step.Parse? && srv.writer.Reading? {
      ParseKeepsInv(cfg, srv, step.chunk);
    } else if step.Append? && srv.writer.Parsed? {
      AppendKeepsInv(cfg, srv);
    } else if step.Broadcast? && srv.writer.Logged? {
      BroadcastKeepsInv(cfg, srv);
    }
  }

  // ---- A subscriber: positions ------------------------------------------------------

  /** Past its initial history and resync. */
  ghost predicate Live<S, C>(phase: Phase<S, C>) {
    match phase
    case SnapSeq(lagged) => lagged
    case SnapScreen(lagged, _) => lagged
    case SendResync(lagged, _, _, _) => lagged
    case Resubscribing => true
    case Listening => true
    case SendRaw(_) => true
    case ReadScreen(_) => true
    case SendDiff(_, _, _) => true
    case _ => false
  }

  ghost predicate RecoveriesBounded(recoveries: seq<Recovery>, n: nat) {
    forall i :: 0 <= i < |recoveries| ==>
      var r := recoveries[i];
      r.before <= r.seqNo <= r.screenPos <= n && r.resumeAt <= n
  }

  /** Positions of the subscriber against the history `h`, of which `b` chunks are broadcast
      and `l` logged. */
  ghost predicate PhaseInv<S, C>(cfg: Config<S, C>, h: seq<C>, b: nat, l: nat, sub: Subscriber<S, C>)
    requires b <= l <= |h|
  {
    && sub.cursor <= b && sub.lastSent <= l && 1 <= sub.firstSeq <= l + 1
    && RecoveriesBounded(sub.recoveries, |h|)
    && (Live(sub.phase) ==> (sub.baseline.Some? <==> sub.format == ScreenDiff))
    && (!Live(sub.phase) && !sub.phase.Closed? ==> sub.baseline.None? && sub.recoveries == [])
    && match sub.phase
       case Connecting => sub.lastSent == 0 && sub.sent == []
       case Subscribed => sub.lastSent == 0 && sub.sent == []
       case SendingHistory(rest) =>
         var from := Max(sub.firstSeq - 1, sub.lastSent);
         from + |rest| <= l && sub.cursor <= from + |rest| && rest == EventsOf(h)[from..from + |rest|]
         && (rest == [] ==> sub.firstSeq - 1 <= sub.lastSent)
       case SnapSeq(lagged) => lagged || sub.format == ScreenDiff
       case SnapScreen(lagged, seqNo) => (lagged || sub.format == ScreenDiff) && sub.lastSent <= seqNo <= l
       case SendResync(lagged, seqNo, screen, screenPos) =>
         && (lagged || sub.format == ScreenDiff)
         && sub.lastSent <= seqNo <= l && seqNo <= screenPos <= |h|
         && screen == ScreenAfter(cfg, h[..screenPos])
         && sub.cursor <= screenPos
       case Resubscribing =>
         && sub.recoveries != []
         && var r := sub.recoveries[|sub.recoveries| - 1];
            r.resumeAt == 0 && sub.lastSent == r.seqNo && sub.basePos == r.screenPos
       case Listening => true
       case SendRaw(event) =>
         && sub.format == Raw && sub.lastSent < sub.cursor
         && event == Event(sub.cursor, h[sub.cursor - 1])
       case ReadScreen(seqNo) => sub.format == ScreenDiff && seqNo == sub.cursor && sub.lastSent < seqNo
       case SendDiff(seqNo, _, _) => sub.format == ScreenDiff && seqNo == sub.cursor && sub.lastSent < seqNo
       case LostBaseline => false
       case Closed => true
  }

  /** A stretch of the history is one of any longer history. */
  lemma StretchStable<C>(h: seq<C>, h': seq<C>, from: nat, to: nat)
    requires h <= h' && from <= to <= |h|
    ensures EventsOf(h)[from..to] == EventsOf(h')[from..to]
  {
  }

  lemma PhaseInvMonotone<S, C>(cfg: Config<S, C>, h: seq<C>, b: nat, l: nat, h': seq<C>, b': nat, l': nat,
                               sub: Subscriber<S, C>)
    requires b <= l <= |h| && b <= b' <= l' <= |h'| && l <= l' && h <= h'
    requires PhaseInv(cfg, h, b, l, sub)
    ensures PhaseInv(cfg, h', b', l', sub)
  {
    if sub.phase.SendingHistory? {
      var from := Max(sub.firstSeq - 1, sub.lastSent);
      StretchStable(h, h', from, from + |sub.phase.rest|);
    } else if sub.phase.SendResync? {
      assert h[..sub.phase.screenPos] == h'[..sub.phase.screenPos];
    }
  }

  lemma PhaseInvStep<S, C>(cfg: Config<S, C>, srv: Server<S, C>, sub: Subscriber<S, C>)
    requires ServerInv(cfg, srv)
    requires PhaseInv(cfg, srv.history, |srv.channel|, LoggedCount(srv), sub)
    ensures PhaseInv(cfg, srv.history, |srv.channel|, LoggedCount(srv), AdvanceSub(cfg, srv, sub))
  {
    if sub.phase.Subscribed? {
      HistoryReadStep(cfg, srv, sub);
    } else if sub.phase.SendingHistory? {
      SendHistoryStep(cfg, srv, sub);
    } else if sub.phase.SnapSeq? || sub.phase.SnapScreen? {
      SnapshotStep(cfg, srv, sub);
    } else if sub.phase.SendResync? || sub.phase.Resubscribing? {
      ResyncStep(cfg, srv, srv.history, |srv.channel|, LoggedCount(srv), sub);
    } else if sub.phase.Listening? {
      ReceiveStep(cfg, srv, sub);
    } else {
      ForwardStep(cfg, srv, srv.history, |srv.channel|, LoggedCount(srv), sub);
    }
  }

  /** The steps that neither read the log nor receive anything. */
  lemma ForwardStep<S, C>(cfg: Config<S, C>, srv: Server<S, C>, h: seq<C>, b: nat, l: nat, sub: Subscriber<S, C>)
    requires b <= l <= |h| && |srv.channel| == b && PhaseInv(cfg, h, b, l, sub)
    requires !sub.phase.Subscribed? && !sub.phase.SendingHistory? && !sub.phase.SnapSeq? && !sub.phase.SnapScreen?
    requires !sub.phase.SendResync? && !sub.phase.Resubscribing? && !sub.phase.Listening?
    ensures PhaseInv(cfg, h, b, l, AdvanceSub(cfg, srv, sub))
  {
  }

  lemma ReceiveStep<S, C>(cfg: Config<S, C>, srv: Server<S, C>, sub: Subscriber<S, C>)
    requires ServerInv(cfg, srv) && sub.phase.Listening?
    requires PhaseInv(cfg, srv.history, |srv.channel|, LoggedCount(srv), sub)
    ensures PhaseInv(cfg, srv.history, |srv.channel|, LoggedCount(srv), AdvanceSub(cfg, srv, sub))
  {
    if sub.cursor < |srv.channel| {
      assert srv.channel[sub.cursor] == Event(sub.cursor + 1, srv.history[sub.cursor]);
    }
  }

  lemma ResyncStep<S, C>(cfg: Config<S, C>, srv: Server<S, C>, h: seq<C>, b: nat, l: nat, sub: Subscriber<S, C>)
    requires b <= l <= |h| && |srv.channel| == b && PhaseInv(cfg, h, b, l, sub)
    requires sub.phase.SendResync? || sub.phase.Resubscribing?
    ensures PhaseInv(cfg, h, b, l, AdvanceSub(cfg, srv, sub))
  {
  }

  lemma SnapshotStep<S, C>(cfg: Config<S, C>, srv: Server<S, C>, sub: Subscriber<S, C>)
    requires ServerInv(cfg, srv) && (sub.phase.SnapSeq? || sub.phase.SnapScreen?)
    requires PhaseInv(cfg, srv.history, |srv.channel|, LoggedCount(srv), sub)
    ensures PhaseInv(cfg, srv.history, |srv.channel|, LoggedCount(srv), AdvanceSub(cfg, srv, sub))
  {
    var h := srv.history;
    LatestSeqCountsHistory(h[..LoggedCount(srv)], cfg.maxEvents);
    assert h[..|h|] == h;
  }

  /** The head and tail of a stretch of the numbered history. */
  lemma StretchSplits<C>(h: seq<C>, from: nat, rest: seq<Event<C>>)
    requires rest != [] && from + |rest| <= |h| && rest == EventsOf(h)[from..from + |rest|]
    ensures rest[0] == Event(from + 1, h[from])
    ensures rest[1..] == EventsOf(h)[from + 1..from + 1 + |rest[1..]|]
  {
  }

  lemma SendHistoryStep<S, C>(cfg: Config<S, C>, srv: Server<S, C>, sub: Subscriber<S, C>)
    requires ServerInv(cfg, srv) && sub.phase.SendingHistory?
    requires PhaseInv(cfg, srv.history, |srv.channel|, LoggedCount(srv), sub)
    ensures PhaseInv(cfg, srv.history, |srv.channel|, LoggedCount(srv), AdvanceSub(cfg, srv, sub))
  {
    SendHistoryPhase(cfg, srv.history, |srv.channel|, LoggedCount(srv), sub, AdvanceSub(cfg, srv, sub));
  }

  lemma SendHistoryPhase<S, C>(cfg: Config<S, C>, h: seq<C>, b: nat, l: nat,
                               sub: Subscriber<S, C>, next: Subscriber<S, C>)
    requires b <= l <= |h| && sub.phase.SendingHistory? && PhaseInv(cfg, h, b, l, sub)
    requires var rest := sub.phase.rest;
      if rest == [] then next == sub.(phase := if sub.format == ScreenDiff then SnapSeq(false) else Listening)
      else next == sub.(phase := SendingHistory(rest[1..]), lastSent := rest[0].seqNo,
                        sent := sub.sent + [RawFrame(rest[0].seqNo, rest[0].data)])
    ensures PhaseInv(cfg, h, b, l, next)
  {
    var from := Max(sub.firstSeq - 1, sub.lastSent);
    if sub.phase.rest != [] {
      StretchSplits(h, from, sub.phase.rest);
      SendHistoryNext(cfg, h, b, l, from, sub, next);
    }
  }

  lemma SendHistoryNext<S, C>(cfg: Config<S, C>, h: seq<C>, b: nat, l: nat, from: nat,
                              sub: Subscriber<S, C>, next: Subscriber<S, C>)
    requires b <= l <= |h| && PhaseInv(cfg, h, b, l, sub)
    requires next.phase.SendingHistory? && from == Max(sub.firstSeq - 1, sub.lastSent)
    requires var more := next.phase.rest;
      && next.lastSent == from + 1 && from + 1 + |more| <= l && sub.cursor <= from + 1 + |more|
      && more == EventsOf(h)[from + 1..from + 1 + |more|]
    requires sub.phase.SendingHistory?
    requires next == sub.(phase := next.phase, lastSent := next.lastSent, sent := next.sent)
    ensures PhaseInv(cfg, h, b, l, next)
  {
  }

  /** What replaying the log reads: the retained stretch of the history. */
  lemma HistoryRead<C>(h: seq<C>, l: nat, maxEvents: nat)
    requires l <= |h|
    ensures var log := LogAfter(h[..l], maxEvents);
      var from := Evicted(l, maxEvents);
      && Newer(log.events, 0) == EventsOf(h)[from..l]
      && (log.events == [] <==> l == 0)
      && (log.events != [] ==> log.events[0].seqNo == from + 1)
  {
    var from := Evicted(l, maxEvents);
    LogRefinesHistory(h[..l], maxEvents);
    SinceAnswersFromHistory(h[..l], maxEvents, 0);
    assert EventsOf(h[..l])[from..] == EventsOf(h)[from..l];
  }

  lemma HistoryReadStep<S, C>(cfg: Config<S, C>, srv: Server<S, C>, sub: Subscriber<S, C>)
    requires ServerInv(cfg, srv) && sub.phase.Subscribed?
    requires PhaseInv(cfg, srv.history, |srv.channel|, LoggedCount(srv), sub)
    ensures PhaseInv(cfg, srv.history, |srv.channel|, LoggedCount(srv), AdvanceSub(cfg, srv, sub))
  {
    HistoryReadIs(cfg, srv, srv.history, LoggedCount(srv), sub);
    HistoryReadPhase(cfg, srv.history, |srv.channel|, LoggedCount(srv), sub, AdvanceSub(cfg, srv, sub));
  }

  lemma HistoryReadIs<S, C>(cfg: Config<S, C>, srv: Server<S, C>, h: seq<C>, l: nat, sub: Subscriber<S, C>)
    requires l <= |h| && srv.log == LogAfter(h[..l], cfg.maxEvents) && sub.phase.Subscribed?
    ensures var from := Evicted(l, cfg.maxEvents);
      AdvanceSub(cfg, srv, sub) == sub.(phase := SendingHistory(EventsOf(h)[from..l]), firstSeq := from + 1)
  {
    HistoryRead(h, l, cfg.maxEvents);
  }

  lemma HistoryReadPhase<S, C>(cfg: Config<S, C>, h: seq<C>, b: nat, l: nat,
                               sub: Subscriber<S, C>, next: Subscriber<S, C>)
    requires b <= l <= |h| && sub.phase.Subscribed? && PhaseInv(cfg, h, b, l, sub)
    requires var from := Evicted(l, cfg.maxEvents);
      next == sub.(phase := SendingHistory(EventsOf(h)[from..l]), firstSeq := from + 1)
    ensures PhaseInv(cfg, h, b, l, next)
  {
  }

  // ---- A subscriber: order of the frames ---------------------------------------------

  /** Frame seqs never decrease, and a frame that is not a resync is above every earlier one. */
  ghost predicate Ordered<S, C>(sent: seq<Frame<S, C>>) {
    forall i, j :: 0 <= i < j < |sent| ==>
      sent[i].seqNo <= sent[j].seqNo && (!sent[j].ResyncFrame? ==> sent[i].seqNo < sent[j].seqNo)
  }

  ghost predicate OrderInv<S, C>(sub: Subscriber<S, C>) {
    Ordered(sub.sent) && forall i :: 0 <= i < |sub.sent| ==> sub.sent[i].seqNo <= sub.lastSent
  }

  lemma OrderedAppend<S, C>(sent: seq<Frame<S, C>>, last: nat, frame: Frame<S, C>)
    requires Ordered(sent) && forall i :: 0 <= i < |sent| ==> sent[i].seqNo <= last
    requires last <= frame.seqNo && (!frame.ResyncFrame? ==> last < frame.seqNo)
    ensures Ordered(sent + [frame])
    ensures forall i :: 0 <= i < |sent + [frame]| ==> (sent + [frame])[i].seqNo <= frame.seqNo
  {
  }

  /** The frame the next step sends, if it sends one. */
  function NextFrame<S(==), C>(sub: Subscriber<S, C>): Option<Frame<S, C>> {
    match sub.phase
    case SendingHistory(rest) => if rest == [] then None else Some(RawFrame(rest[0].seqNo, rest[0].data))
    case SendResync(_, seqNo, screen, _) => Some(ResyncFrame(seqNo, screen))
    case SendRaw(event) => Some(RawFrame(event.seqNo, event.data))
    case SendDiff(seqNo, base, target) => if base == target then None else Some(DiffFrame(seqNo, base, target))
    case _ => None
  }

  lemma AdvanceSends<S, C>(cfg: Config<S, C>, srv: Server<S, C>, sub: Subscriber<S, C>)
    ensures var next, frame := AdvanceSub(cfg, srv, sub), NextFrame(sub);
      && next.sent == (if frame.None? then sub.sent else sub.sent + [frame.value])
      && (frame.None? ==> next.lastSent >= sub.lastSent)
      && (frame.Some? && frame.value.seqNo >= sub.lastSent ==> next.lastSent == frame.value.seqNo)
  {
  }

  /** It is above everything sent before, or a resync not below it, and carries its chunk. */
  lemma NextFrameFits<S, C>(cfg: Config<S, C>, h: seq<C>, b: nat, l: nat, sub: Subscriber<S, C>)
    requires b <= l <= |h| && PhaseInv(cfg, h, b, l, sub) && NextFrame(sub).Some?
    ensures var frame := NextFrame(sub).value;
      && sub.lastSent <= frame.seqNo && (!frame.ResyncFrame? ==> sub.lastSent < frame.seqNo)
      && (frame.RawFrame? ==> 1 <= frame.seqNo <= |h| && frame.data == h[frame.seqNo - 1])
  {
    if sub.phase.SendingHistory? {
      StretchSplits(h, Max(sub.firstSeq - 1, sub.lastSent), sub.phase.rest);
    }
  }

  lemma OrderInvStep<S, C>(cfg: Config<S, C>, srv: Server<S, C>, sub: Subscriber<S, C>)
    requires ServerInv(cfg, srv) && OrderInv(sub)
    requires PhaseInv(cfg, srv.history, |srv.channel|, LoggedCount(srv), sub)
    ensures OrderInv(AdvanceSub(cfg, srv, sub))
  {
    AdvanceSends(cfg, srv, sub);
    if NextFrame(sub).Some? {
      NextFrameFits(cfg, srv.history, |srv.channel|, LoggedCount(srv), sub);
      OrderedAppend(sub.sent, sub.lastSent, NextFrame(sub).value);
    }
  }

  /** Each raw frame carries the chunk of its seq. */
  ghost predicate CarriesChunks<S, C>(h: seq<C>, sent: seq<Frame<S, C>>) {
    forall i :: 0 <= i < |sent| && sent[i].RawFrame? ==>
      1 <= sent[i].seqNo <= |h| && sent[i].data == h[sent[i].seqNo - 1]
  }

  lemma CarriesChunksStep<S, C>(cfg: Config<S, C>, srv: Server<S, C>, sub: Subscriber<S, C>)
    requires ServerInv(cfg, srv) && CarriesChunks(srv.history, sub.sent)
    requires PhaseInv(cfg, srv.history, |srv.channel|, LoggedCount(srv), sub)
    ensures CarriesChunks(srv.history, AdvanceSub(cfg, srv, sub).sent)
  {
    AdvanceSends(cfg, srv, sub);
    if NextFrame(sub).Some? {
      NextFrameFits(cfg, srv.history, |srv.channel|, LoggedCount(srv), sub);
      CarriesOneMore(srv.history, sub.sent, NextFrame(sub).value);
    }
  }

  lemma CarriesOneMore<S, C>(h: seq<C>, sent: seq<Frame<S, C>>, frame: Frame<S, C>)
    requires CarriesChunks(h, sent)
    requires frame.RawFrame? ==> 1 <= frame.seqNo <= |h| && frame.data == h[frame.seqNo - 1]
    ensures CarriesChunks(h, sent + [frame])
  {
  }

  // ---- Raw format: the transcript ------------------------------------------------------

  /** The raw frames for seqs lo + 1 to hi. */
  function RawRun<S, C>(h: seq<C>, lo: nat, hi: nat): seq<Frame<S, C>>
    requires hi <= |h|
  {
    if hi <= lo then [] else RawRun(h, lo, hi - 1) + [RawFrame(hi, h[hi - 1])]
  }

  /** Where the raw frames resume: after the evicted events, or after a recovery's gap. */
  function ResumesAfter(firstSeq: Positive, recoveries: seq<Recovery>): nat {
    if recoveries == [] then firstSeq - 1
    else var r := recoveries[|recoveries| - 1]; Max(r.seqNo, r.resumeAt)
  }

  /** The only transcript a raw subscriber can have: a contiguous run of raw frames, then for
      each lag recovery one full screen followed by a contiguous run that starts after both the
      seq of that screen and the position resubscribed at. */
  ghost function Transcript<S, C>(cfg: Config<S, C>, h: seq<C>, firstSeq: Positive,
                                  recoveries: seq<Recovery>, last: nat): seq<Frame<S, C>>
    requires RecoveriesBounded(recoveries, |h|) && last <= |h|
    decreases |recoveries|
  {
    var run := RawRun(h, ResumesAfter(firstSeq, recoveries), last);
    if recoveries == [] then run
    else
      var n := |recoveries| - 1;
      var r := recoveries[n];
      Transcript(cfg, h, firstSeq, recoveries[..n], r.before)
        + [ResyncFrame(r.seqNo, ScreenAfter(cfg, h[..r.screenPos]))] + run
  }

  ghost predicate RawInv<S, C>(cfg: Config<S, C>, h: seq<C>, sub: Subscriber<S, C>)
  {
    sub.format == Raw && sub.firstSeq >= 1 && RecoveriesBounded(sub.recoveries, |h|) && sub.lastSent <= |h| ==>
      var resumes := ResumesAfter(sub.firstSeq, sub.recoveries);
      && sub.sent == Transcript(cfg, h, sub.firstSeq, sub.recoveries, sub.lastSent)
      && match sub.phase
         case Listening =>
           sub.cursor <= Max(sub.lastSent, resumes) && ResumedBefore(sub, sub.cursor + 1)
           && (resumes <= sub.lastSent || resumes == sub.cursor)
           && (sub.recoveries == [] ==> resumes <= sub.lastSent)
           && (sub.recoveries != [] ==> sub.recoveries[|sub.recoveries| - 1].seqNo <= sub.lastSent)
           && (!ResumedBefore(sub, sub.cursor) ==>
                sub.lastSent == sub.recoveries[|sub.recoveries| - 1].seqNo)
         case SendRaw(_) => sub.cursor == Max(sub.lastSent, resumes) + 1 && ResumedBefore(sub, sub.cursor)
           && (sub.recoveries != [] ==> sub.recoveries[|sub.recoveries| - 1].seqNo <= sub.lastSent)
         case _ => true
  }

  /** The cursor has moved on since the last recovery, if there was one. */
  ghost predicate ResumedBefore<S, C>(sub: Subscriber<S, C>, cursor: nat) {
    sub.recoveries == [] || sub.recoveries[|sub.recoveries| - 1].resumeAt < cursor
  }

  lemma {:induction false} RawRunStable<S, C>(h: seq<C>, h': seq<C>, lo: nat, hi: nat)
    requires hi <= |h| && h <= h'
    ensures RawRun<S, C>(h, lo, hi) == RawRun<S, C>(h', lo, hi)
  {
    if hi > lo { RawRunStable<S, C>(h, h', lo, hi - 1); }
  }

  lemma {:induction false} TranscriptStable<S, C>(cfg: Config<S, C>, h: seq<C>, h': seq<C>, firstSeq: Positive,
                                                  recoveries: seq<Recovery>, last: nat)
    requires RecoveriesBounded(recoveries, |h|) && last <= |h| && h <= h'
    ensures Transcript(cfg, h, firstSeq, recoveries, last) == Transcript(cfg, h', firstSeq, recoveries, last)
    decreases |recoveries|
  {
    RawRunStable<S, C>(h, h', ResumesAfter(firstSeq, recoveries), last);
    if recoveries != [] {
      var n := |recoveries| - 1;
      var r := recoveries[n];
      TranscriptStable(cfg, h, h', firstSeq, recoveries[..n], r.before);
      assert h[..r.screenPos] == h'[..r.screenPos];
    }
  }

  /** The next raw frame goes on where the transcript ends. */
  lemma TranscriptGrows<S, C>(cfg: Config<S, C>, h: seq<C>, firstSeq: Positive, recoveries: seq<Recovery>, last: nat)
    requires RecoveriesBounded(recoveries, |h|) && last <= |h|
    requires Max(last, ResumesAfter(firstSeq, recoveries)) < |h|
    ensures var next := Max(last, ResumesAfter(firstSeq, recoveries)) + 1;
      Transcript(cfg, h, firstSeq, recoveries, next)
        == Transcript(cfg, h, firstSeq, recoveries, last) + [RawFrame(next, h[next - 1])]
  {
    RawRunGrows<S, C>(h, ResumesAfter(firstSeq, recoveries), last);
  }

  lemma RawInvStep<S, C>(cfg: Config<S, C>, srv: Server<S, C>, sub: Subscriber<S, C>)
    requires ServerInv(cfg, srv) && RawInv(cfg, srv.history, sub)
    requires PhaseInv(cfg, srv.history, |srv.channel|, LoggedCount(srv), sub)
    ensures RawInv(cfg, srv.history, AdvanceSub(cfg, srv, sub))
  {
    if sub.format != Raw { return; }
    if sub.phase.Subscribed? || sub.phase.SendingHistory? {
      RawHistoryStep(cfg, srv, sub);
    } else if sub.phase.SendResync? {
      PhaseInvStep(cfg, srv, sub);
      RawResyncStep(cfg, srv, sub);
    } else if sub.phase.Resubscribing? {
      RawResubscribeStep(cfg, srv, sub);
    } else if sub.phase.Listening? {
      RawReceiveStep(cfg, srv, sub);
    } else if sub.phase.SendRaw? {
      RawSendStep(cfg, srv, sub);
    } else if !sub.phase.ReadScreen? && !sub.phase.SendDiff? {
      RawQuietStep(cfg, srv, srv.history, sub);
    }
  }

  /** The other steps of a raw subscriber send nothing. */
  lemma RawQuietStep<S, C>(cfg: Config<S, C>, srv: Server<S, C>, h: seq<C>, sub: Subscriber<S, C>)
    requires RawInv(cfg, h, sub) && sub.format == Raw
    requires sub.phase.Connecting? || sub.phase.SnapSeq? || sub.phase.SnapScreen? || sub.phase.LostBaseline?
          || sub.phase.Closed?
    ensures RawInv(cfg, h, AdvanceSub(cfg, srv, sub))
  {
  }

  /** A contiguous run grows by the next chunk. */
  lemma RawRunGrows<S, C>(h: seq<C>, lo: nat, last: nat)
    requires last <= |h| && Max(lo, last) < |h|
    ensures var e := Max(lo, last) + 1;
      RawRun<S, C>(h, lo, e) == RawRun<S, C>(h, lo, last) + [RawFrame(e, h[e - 1])]
  {
    assert RawRun<S, C>(h, lo, Max(lo, last)) == RawRun(h, lo, last);
  }

  lemma RawHistoryStep<S, C>(cfg: Config<S, C>, srv: Server<S, C>, sub: Subscriber<S, C>)
    requires ServerInv(cfg, srv) && RawInv(cfg, srv.history, sub) && sub.format == Raw
    requires sub.phase.Subscribed? || sub.phase.SendingHistory?
    requires PhaseInv(cfg, srv.history, |srv.channel|, LoggedCount(srv), sub)
    ensures RawInv(cfg, srv.history, AdvanceSub(cfg, srv, sub))
  {
    if sub.phase.SendingHistory? {
      RawHistoryNext(cfg, srv, srv.history, |srv.channel|, LoggedCount(srv), sub);
    }
  }

  lemma RawHistoryNext<S, C>(cfg: Config<S, C>, srv: Server<S, C>, h: seq<C>, b: nat, l: nat, sub: Subscriber<S, C>)
    requires b <= l <= |h| && PhaseInv(cfg, h, b, l, sub) && sub.phase.SendingHistory?
    requires RawInv(cfg, h, sub) && sub.format == Raw
    ensures RawInv(cfg, h, AdvanceSub(cfg, srv, sub))
  {
    var rest, from := sub.phase.rest, Max(sub.firstSeq - 1, sub.lastSent);
    if rest != [] {
      StretchSplits(h, from, rest);
      RawHistorySent(cfg, h, sub, rest[1..]);
      HistoryFrameSent(cfg, srv, sub, from + 1, h[from]);
    }
  }

  lemma HistoryFrameSent<S, C>(cfg: Config<S, C>, srv: Server<S, C>, sub: Subscriber<S, C>, seqNo: nat, data: C)
    requires sub.phase.SendingHistory? && sub.phase.rest != [] && sub.phase.rest[0] == Event(seqNo, data)
    ensures AdvanceSub(cfg, srv, sub)
      == sub.(phase := SendingHistory(sub.phase.rest[1..]), lastSent := seqNo,
              sent := sub.sent + [RawFrame(seqNo, data)])
  {
  }

  lemma RawHistorySent<S, C>(cfg: Config<S, C>, h: seq<C>, sub: Subscriber<S, C>, rest: seq<Event<C>>)
    requires RawInv(cfg, h, sub) && sub.format == Raw && sub.recoveries == [] && sub.firstSeq >= 1
    requires sub.lastSent <= |h| && Max(sub.firstSeq - 1, sub.lastSent) < |h|
    ensures var from := Max(sub.firstSeq - 1, sub.lastSent);
      RawInv(cfg, h, sub.(phase := SendingHistory(rest), lastSent := from + 1,
                          sent := sub.sent + [RawFrame(from + 1, h[from])]))
  {
    TranscriptGrows(cfg, h, sub.firstSeq, [], sub.lastSent);
  }

  lemma RawResyncStep<S, C>(cfg: Config<S, C>, srv: Server<S, C>, sub: Subscriber<S, C>)
    requires ServerInv(cfg, srv) && RawInv(cfg, srv.history, sub) && sub.format == Raw && sub.phase.SendResync?
    requires PhaseInv(cfg, srv.history, |srv.channel|, LoggedCount(srv), sub)
    requires PhaseInv(cfg, srv.history, |srv.channel|, LoggedCount(srv), AdvanceSub(cfg, srv, sub))
    ensures RawInv(cfg, srv.history, AdvanceSub(cfg, srv, sub))
  {
    var next := AdvanceSub(cfg, srv, sub);
    assert next.recoveries[..|next.recoveries| - 1] == sub.recoveries;
  }

  lemma RawResubscribeStep<S, C>(cfg: Config<S, C>, srv: Server<S, C>, sub: Subscriber<S, C>)
    requires ServerInv(cfg, srv) && RawInv(cfg, srv.history, sub) && sub.format == Raw && sub.phase.Resubscribing?
    requires PhaseInv(cfg, srv.history, |srv.channel|, LoggedCount(srv), sub)
    ensures RawInv(cfg, srv.history, AdvanceSub(cfg, srv, sub))
  {
    RawResubscribed(cfg, srv.history, sub, |srv.channel|);
  }

  lemma RawResubscribed<S, C>(cfg: Config<S, C>, h: seq<C>, sub: Subscriber<S, C>, b: nat)
    requires RawInv(cfg, h, sub) && sub.format == Raw && sub.recoveries != [] && sub.firstSeq >= 1
    requires RecoveriesBounded(sub.recoveries, |h|) && sub.lastSent <= |h|
    requires var r := sub.recoveries[|sub.recoveries| - 1]; r.resumeAt == 0 && sub.lastSent == r.seqNo
    ensures RawInv(cfg, h, sub.(cursor := b, phase := Listening, recoveries := NoteResume(sub.recoveries, b)))
  {
    var n := |sub.recoveries| - 1;
    assert NoteResume(sub.recoveries, b)[..n] == sub.recoveries[..n];
    assert RawRun<S, C>(h, ResumesAfter(sub.firstSeq, sub.recoveries), sub.lastSent) == [];
  }

  lemma RawReceiveStep<S, C>(cfg: Config<S, C>, srv: Server<S, C>, sub: Subscriber<S, C>)
    requires ServerInv(cfg, srv) && RawInv(cfg, srv.history, sub) && sub.format == Raw && sub.phase.Listening?
    requires PhaseInv(cfg, srv.history, |srv.channel|, LoggedCount(srv), sub)
    ensures RawInv(cfg, srv.history, AdvanceSub(cfg, srv, sub))
  {
    if sub.cursor < |srv.channel| {
      assert srv.channel[sub.cursor] == Event(sub.cursor + 1, srv.history[sub.cursor]);
      RawReceive(cfg, srv, srv.history, sub);
    }
  }

  lemma RawReceive<S, C>(cfg: Config<S, C>, srv: Server<S, C>, h: seq<C>, sub: Subscriber<S, C>)
    requires RawInv(cfg, h, sub) && sub.format == Raw && sub.phase.Listening?
    requires sub.firstSeq >= 1 && RecoveriesBounded(sub.recoveries, |h|) && sub.lastSent <= |h|
    requires sub.cursor < |srv.channel| && srv.channel[sub.cursor].seqNo == sub.cursor + 1
    ensures RawInv(cfg, h, AdvanceSub(cfg, srv, sub))
  {
  }

  lemma RawSendStep<S, C>(cfg: Config<S, C>, srv: Server<S, C>, sub: Subscriber<S, C>)
    requires ServerInv(cfg, srv) && RawInv(cfg, srv.history, sub) && sub.format == Raw && sub.phase.SendRaw?
    requires PhaseInv(cfg, srv.history, |srv.channel|, LoggedCount(srv), sub)
    ensures RawInv(cfg, srv.history, AdvanceSub(cfg, srv, sub))
  {
    RawSent(cfg, srv, srv.history, sub);
  }

  lemma RawSent<S, C>(cfg: Config<S, C>, srv: Server<S, C>, h: seq<C>, sub: Subscriber<S, C>)
    requires RawInv(cfg, h, sub) && sub.format == Raw && sub.phase.SendRaw? && sub.firstSeq >= 1
    requires RecoveriesBounded(sub.recoveries, |h|) && sub.lastSent < sub.cursor <= |h|
    requires sub.phase.event == Event(sub.cursor, h[sub.cursor - 1])
    ensures RawInv(cfg, h, AdvanceSub(cfg, srv, sub))
  {
    TranscriptGrows(cfg, h, sub.firstSeq, sub.recoveries, sub.lastSent);
  }

  // ---- screen_diff format: the baseline -------------------------------------------------

  /** The client shows the baseline, the baseline is the screen at a parser position that is not
      behind last_sent_seq, and the cursor is not ahead of that position except right after a
      recovery that resubscribed past its own snapshot. */
  ghost predicate DiffInv<S, C>(cfg: Config<S, C>, h: seq<C>, sub: Subscriber<S, C>) {
    sub.format == ScreenDiff && Live(sub.phase) && sub.baseline.Some? ==>
      && sub.lastSent <= sub.basePos <= |h|
      && sub.baseline.value == ScreenAfter(cfg, h[..sub.basePos])
      && ClientScreen(cfg, sub.sent) == (if sub.phase.SendDiff? then sub.phase.base else sub.baseline.value)
      && match sub.phase
         case SendDiff(seqNo, _, target) =>
           target == sub.baseline.value && seqNo <= sub.basePos && ResumedBefore(sub, sub.cursor)
         case ReadScreen(_) => ResumedBefore(sub, sub.cursor)
         case Listening =>
           && ResumedBefore(sub, sub.cursor + 1)
           && (ResumedBefore(sub, sub.cursor) ==> sub.cursor <= sub.basePos)
           && (!ResumedBefore(sub, sub.cursor) ==>
                sub.basePos == sub.recoveries[|sub.recoveries| - 1].screenPos)
         case _ => true
  }

  lemma DiffInvStep<S, C>(cfg: Config<S, C>, srv: Server<S, C>, sub: Subscriber<S, C>)
    requires ServerInv(cfg, srv) && DiffInv(cfg, srv.history, sub)
    requires PhaseInv(cfg, srv.history, |srv.channel|, LoggedCount(srv), sub)
    ensures DiffInv(cfg, srv.history, AdvanceSub(cfg, srv, sub))
  {
    if sub.format != ScreenDiff { return; }
    match sub.phase
    case SendResync(_, _, _, _) => DiffResyncStep(cfg, srv, sub);
    case Resubscribing => DiffResyncStep(cfg, srv, sub);
    case Listening => DiffReceiveStep(cfg, srv, sub);
    case ReadScreen(_) => DiffReadStep(cfg, srv, sub);
    case SendDiff(_, _, _) => DiffSendStep(cfg, srv, sub);
    case _ =>
  }

  lemma ClientAppend<S, C>(cfg: Config<S, C>, sent: seq<Frame<S, C>>, frame: Frame<S, C>)
    ensures ClientScreen(cfg, sent + [frame]) == Apply(cfg, ClientScreen(cfg, sent), frame)
  {
    assert (sent + [frame])[..|sent|] == sent;
  }

  lemma DiffResyncStep<S, C>(cfg: Config<S, C>, srv: Server<S, C>, sub: Subscriber<S, C>)
    requires ServerInv(cfg, srv) && DiffInv(cfg, srv.history, sub) && sub.format == ScreenDiff
    requires sub.phase.SendResync? || sub.phase.Resubscribing?
    requires PhaseInv(cfg, srv.history, |srv.channel|, LoggedCount(srv), sub)
    ensures DiffInv(cfg, srv.history, AdvanceSub(cfg, srv, sub))
  {
    if sub.phase.SendResync? {
      ClientAppend(cfg, sub.sent, ResyncFrame(sub.phase.seqNo, sub.phase.screen));
    }
  }

  lemma DiffReceiveStep<S, C>(cfg: Config<S, C>, srv: Server<S, C>, sub: Subscriber<S, C>)
    requires ServerInv(cfg, srv) && DiffInv(cfg, srv.history, sub) && sub.format == ScreenDiff
    requires sub.phase.Listening?
    requires PhaseInv(cfg, srv.history, |srv.channel|, LoggedCount(srv), sub)
    ensures DiffInv(cfg, srv.history, AdvanceSub(cfg, srv, sub))
  {
    if sub.cursor < |srv.channel| {
      assert srv.channel[sub.cursor] == Event(sub.cursor + 1, srv.history[sub.cursor]);
      DiffReceive(cfg, srv, srv.history, sub);
    }
  }

  lemma DiffReceive<S, C>(cfg: Config<S, C>, srv: Server<S, C>, h: seq<C>, sub: Subscriber<S, C>)
    requires DiffInv(cfg, h, sub) && sub.format == ScreenDiff && sub.phase.Listening? && sub.baseline.Some?
    requires sub.cursor < |srv.channel| && srv.channel[sub.cursor].seqNo == sub.cursor + 1
    ensures DiffInv(cfg, h, AdvanceSub(cfg, srv, sub))
  {
  }

  /** The new baseline is the screen of all chunks parsed so far. */
  lemma DiffReadStep<S, C>(cfg: Config<S, C>, srv: Server<S, C>, sub: Subscriber<S, C>)
    requires ServerInv(cfg, srv) && DiffInv(cfg, srv.history, sub) && sub.format == ScreenDiff
    requires sub.phase.ReadScreen?
    requires PhaseInv(cfg, srv.history, |srv.channel|, LoggedCount(srv), sub)
    ensures DiffInv(cfg, srv.history, AdvanceSub(cfg, srv, sub))
  {
    assert srv.history[..|srv.history|] == srv.history;
  }

  lemma DiffSendStep<S, C>(cfg: Config<S, C>, srv: Server<S, C>, sub: Subscriber<S, C>)
    requires ServerInv(cfg, srv) && DiffInv(cfg, srv.history, sub) && sub.format == ScreenDiff
    requires sub.phase.SendDiff?
    requires PhaseInv(cfg, srv.history, |srv.channel|, LoggedCount(srv), sub)
    ensures DiffInv(cfg, srv.history, AdvanceSub(cfg, srv, sub))
  {
    DiffSent(cfg, srv, srv.history, sub);
  }

  lemma DiffSent<S, C>(cfg: Config<S, C>, srv: Server<S, C>, h: seq<C>, sub: Subscriber<S, C>)
    requires DiffInv(cfg, h, sub) && sub.format == ScreenDiff && sub.phase.SendDiff? && sub.baseline.Some?
    requires sub.phase.seqNo == sub.cursor
    ensures DiffInv(cfg, h, AdvanceSub(cfg, srv, sub))
  {
    ClientAppend(cfg, sub.sent, DiffFrame(sub.phase.seqNo, sub.phase.base, sub.phase.target));
  }

  // ---- All together ------------------------------------------------------------------------

  ghost predicate SubInv<S, C>(cfg: Config<S, C>, srv: Server<S, C>, sub: Subscriber<S, C>)
    requires ServerInv(cfg, srv)
  {
    && PhaseInv(cfg, srv.history, |srv.channel|, LoggedCount(srv), sub)
    && OrderInv(sub)
    && CarriesChunks(srv.history, sub.sent)
    && RawInv(cfg, srv.history, sub)
    && DiffInv(cfg, srv.history, sub)
  }

  ghost predicate Inv<S, C>(cfg: Config<S, C>, sys: System<S, C>) {
    ServerInv(cfg, sys.server) && forall i :: 0 <= i < |sys.subs| ==> SubInv(cfg, sys.server, sys.subs[i])
  }

  lemma SubInvAfterWrite<S, C>(cfg: Config<S, C>, srv: Server<S, C>, step: WriterStep<C>, sub: Subscriber<S, C>)
    requires ServerInv(cfg, srv) && SubInv(cfg, srv, sub)
    ensures ServerInv(cfg, WriterNext(cfg, srv, step)) && SubInv(cfg, WriterNext(cfg, srv, step), sub)
  {
    WriterKeepsInv(cfg, srv, step);
    var next := WriterNext(cfg, srv, step);
    var h, h' := srv.history, next.history;
    PhaseInvMonotone(cfg, h, |srv.channel|, LoggedCount(srv), h', |next.channel|, LoggedCount(next), sub);
    SentInvStable(cfg, h, h', sub);
  }

  /** What was sent is right about any longer history. */
  lemma SentInvStable<S, C>(cfg: Config<S, C>, h: seq<C>, h': seq<C>, sub: Subscriber<S, C>)
    requires h <= h' && RecoveriesBounded(sub.recoveries, |h|) && 1 <= sub.firstSeq && sub.lastSent <= |h|
    requires CarriesChunks(h, sub.sent) && RawInv(cfg, h, sub) && DiffInv(cfg, h, sub)
    ensures CarriesChunks(h', sub.sent) && RawInv(cfg, h', sub) && DiffInv(cfg, h', sub)
  {
    TranscriptStable(cfg, h, h', sub.firstSeq, sub.recoveries, sub.lastSent);
    if sub.basePos <= |h| { assert h[..sub.basePos] == h'[..sub.basePos]; }
  }

  lemma SubInvAfterAdvance<S, C>(cfg: Config<S, C>, srv: Server<S, C>, sub: Subscriber<S, C>)
    requires ServerInv(cfg, srv) && SubInv(cfg, srv, sub)
    ensures SubInv(cfg, srv, AdvanceSub(cfg, srv, sub))
  {
    PhaseInvStep(cfg, srv, sub);
    OrderInvStep(cfg, srv, sub);
    CarriesChunksStep(cfg, srv, sub);
    RawInvStep(cfg, srv, sub);
    DiffInvStep(cfg, srv, sub);
  }

  lemma SubInvAfterStop<S, C>(cfg: Config<S, C>, srv: Server<S, C>, sub: Subscriber<S, C>)
    requires ServerInv(cfg, srv) && SubInv(cfg, srv, sub)
    ensures SubInv(cfg, srv, sub.(phase := Closed))
  {
  }

  /** Every step of the whole system keeps the invariant, whichever task it belongs to. */
  lemma StepKeepsInv<S, C>(cfg: Config<S, C>, sys: System<S, C>, act: Label<C>)
    requires Inv(cfg, sys)
    ensures Inv(cfg, Step(cfg, sys, act))
  {
    if act.Write? {
      SubsAfterWrite(cfg, sys, act.step);
    } else if act.Advance? {
      if act.sub < |sys.subs| { SubInvAfterAdvance(cfg, sys.server, sys.subs[act.sub]); }
    } else if act.Stop? {
      if act.sub < |sys.subs| { SubInvAfterStop(cfg, sys.server, sys.subs[act.sub]); }
    } else {
      NewSubInv(cfg, sys.server, act.format);
    }
  }

  lemma SubsAfterWrite<S, C>(cfg: Config<S, C>, sys: System<S, C>, step: WriterStep<C>)
    requires Inv(cfg, sys)
    ensures Inv(cfg, Step(cfg, sys, Write(step)))
  {
    WriterKeepsInv(cfg, sys.server, step);
    forall i | 0 <= i < |sys.subs| ensures SubInv(cfg, WriterNext(cfg, sys.server, step), sys.subs[i]) {
      SubInvAfterWrite(cfg, sys.server, step, sys.subs[i]);
    }
  }

  lemma NewSubInv<S, C>(cfg: Config<S, C>, srv: Server<S, C>, format: Format)
    requires ServerInv(cfg, srv)
    ensures SubInv(cfg, srv, NewSubscriber(format))
  {
  }

  /** The invariant holds after every interleaving of the writer and all subscribers. */
  lemma {:induction false} RunKeepsInv<S, C>(cfg: Config<S, C>, labels: seq<Label<C>>)
    ensures Inv(cfg, Run(cfg, labels))
  {
    if labels == [] {
      assert EventsOf<C>([])[..0] == [];
    } else {
      RunKeepsInv(cfg, labels[..|labels| - 1]);
      StepKeepsInv(cfg, Run(cfg, labels[..|labels| - 1]), labels[|labels| - 1]);
    }
  }
}
