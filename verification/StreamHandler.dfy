/** The read loop of server/src/pane.rs and handle_ws of server/src/handlers/stream.rs as the
    imperative code they are, proved to take only steps of StreamProtocol. */
module StreamHandler {
  import opened Wrappers
  import opened EventLogs
  import opened StreamProtocol
  import opened StreamInvariants
  import opened StreamTheorems
  import opened StreamSubscription

  /** A read from the PTY master. */
  datatype ReadResult<+C> = Eof | Bytes(data: C) | Interrupted | Eio | OtherError

  datatype PtyReadAction = Continue | BreakSilently | BreakWithLog

  function ClassifyReadError<C>(r: ReadResult<C>): PtyReadAction
    requires !r.Eof? && !r.Bytes?
  {
    match r
    case Interrupted => Continue
    case Eio => BreakSilently
    case OtherError => BreakWithLog
  }

  /** The chunks a sequence of reads yields before the loop is left. */
  function ChunksOf<C>(results: seq<ReadResult<C>>): seq<C> {
    if results == [] then []
    else match results[0]
      case Bytes(data) => [data] + ChunksOf(results[1..])
      case Interrupted => ChunksOf(results[1..])
      case _ => []
  }

  /** Do these reads leave the loop? */
  predicate Ends<C>(results: seq<ReadResult<C>>) {
    results != [] && (results[0].Eof? || results[0].Eio? || results[0].OtherError? || Ends(results[1..]))
  }

  lemma ReadsSplit<C>(results: seq<ReadResult<C>>, before: seq<C>)
    requires results != []
    ensures var r := results[0];
      var stops := r.Eof? || r.Eio? || r.OtherError?;
      && Ends(results) == (stops || Ends(results[1..]))
      && before + ChunksOf(results)
           == before + (if r.Bytes? then [r.data] else []) + (if stops then [] else ChunksOf(results[1..]))
  {
  }

  /** The raw frames for the first n of these events. */
  function RawFrames<S, C>(events: seq<Event<C>>, n: nat): seq<Frame<S, C>>
    requires n <= |events|
  {
    seq(n, i requires 0 <= i < n => RawFrame(events[i].seqNo, events[i].data))
  }

  lemma RawFramesNext<S, C>(before: seq<Frame<S, C>>, events: seq<Event<C>>, n: nat)
    requires n < |events|
    ensures before + RawFrames(events, n) + [RawFrame(events[n].seqNo, events[n].data)]
      == before + RawFrames(events, n + 1)
  {
  }

  /** The writer's steps in the first n bursts of a schedule. */
  function Bursts<C>(schedule: seq<seq<WriterStep<C>>>, n: nat): seq<WriterStep<C>>
    requires n <= |schedule|
  {
    if n == 0 then [] else Bursts(schedule, n - 1) + schedule[n - 1]
  }

  lemma BurstsNext<C>(before: seq<WriterStep<C>>, schedule: seq<seq<WriterStep<C>>>, n: nat)
    requires n < |schedule|
    ensures before + Bursts(schedule, n) + schedule[n] == before + Bursts(schedule, n + 1)
  {
  }

  /** At how many points, at the end of a schedule, the writer does nothing. */
  function QuietTail<C>(schedule: seq<seq<WriterStep<C>>>): (n: nat)
    ensures n <= |schedule|
    ensures forall i :: |schedule| - n <= i < |schedule| ==> |schedule[i]| == 0
  {
    if schedule == [] || |schedule[|schedule| - 1]| > 0 then 0 else 1 + QuietTail(schedule[..|schedule| - 1])
  }

  lemma {:induction false} BurstsSplit<C>(schedule: seq<seq<WriterStep<C>>>, k: nat, n: nat)
    returns (more: seq<WriterStep<C>>)
    requires k <= n <= |schedule|
    ensures Bursts(schedule, n) == Bursts(schedule, k) + more
    ensures |schedule| - QuietTail(schedule) <= k ==> more == [] && Bursts(schedule, n) == Bursts(schedule, k)
  {
    if k == n {
      more := [];
    } else {
      more := BurstsSplit(schedule, k, n - 1);
      more := more + schedule[n - 1];
    }
  }

  /** The state of a pane that its tasks share. Only the read loop writes to it. */
  class Pane<S(==), C(==)> {
    const cfg: Config<S, C>
    const eventLog: EventLog<C>
    var screen: S
    var channel: seq<Event<C>>
    var writer: Writer<C>
    var terminated: bool
    ghost var history: seq<C>

    ghost function View(): Server<S, C> reads this, eventLog {
      Server(screen, eventLog.View(), channel, writer, history)
    }

    ghost predicate Valid() reads this, eventLog {
      eventLog.Valid() && eventLog.maxEvents == cfg.maxEvents
    }

    constructor (cfg: Config<S, C>)
      ensures Valid() && this.cfg == cfg && View() == InitServer(cfg) && !terminated
      ensures fresh(eventLog)
    {
      this.cfg := cfg;
      this.eventLog := new EventLog.WithMaxEvents(cfg.maxEvents);
      this.screen, this.channel, this.writer, this.history, this.terminated := cfg.blank, [], Reading, [], false;
    }

    method Parse(chunk: C)
      requires Valid() && writer.Reading?
      modifies this
      ensures Valid() && View() == WriterNext(cfg, old(View()), WriterStep.Parse(chunk))
      ensures terminated == old(terminated)
    {
      screen := cfg.process(screen, chunk);
      history := history + [chunk];
      writer := Parsed(chunk);
    }

    method Append()
      requires Valid() && writer.Parsed?
      modifies this, eventLog
      ensures Valid() && View() == WriterNext(cfg, old(View()), WriterStep.Append)
      ensures terminated == old(terminated)
    {
      var seqNo := eventLog.PushEvent(writer.chunk);
      LogRefinesHistory(eventLog.history, cfg.maxEvents);
      writer := Logged(Event(seqNo, writer.chunk));
    }

    method Send()
      requires Valid() && writer.Logged?
      modifies this
      ensures Valid() && View() == WriterNext(cfg, old(View()), WriterStep.Broadcast)
      ensures terminated == old(terminated)
    {
      channel := channel + [writer.event];
      writer := Reading;
    }

    /** One chunk through the parser, then the log, then the channel. */
    method Publish(data: C)
      requires Valid() && writer.Reading? && ServerInv(cfg, View())
      modifies this, eventLog
      ensures Valid() && writer.Reading? && ServerInv(cfg, View()) && terminated == old(terminated)
      ensures history == old(history) + [data]
    {
      WriterKeepsInv(cfg, View(), WriterStep.Parse(data));
      Parse(data);
      WriterKeepsInv(cfg, View(), WriterStep.Append);
      Append();
      WriterKeepsInv(cfg, View(), WriterStep.Broadcast);
      Send();
    }

    /** spawn_pty_read_loop, over the results of its reads: every chunk is parsed, logged and
        broadcast in order and exactly once, until a read ends the loop. */
    method ReadLoop(results: seq<ReadResult<C>>)
      requires Valid() && writer.Reading? && ServerInv(cfg, View()) && !terminated
      modifies this, eventLog
      ensures Valid() && writer.Reading?
      ensures history == old(history) + ChunksOf(results)
      ensures channel == EventsOf(history) && eventLog.View() == LogAfter(history, cfg.maxEvents)
      ensures screen == ScreenAfter(cfg, history)
      ensures terminated == Ends(results)
    {
      var i := 0;
      while i < |results| && !terminated
        invariant i <= |results| && Valid() && writer.Reading? && ServerInv(cfg, View())
        invariant old(history) + ChunksOf(results) == history + (if terminated then [] else ChunksOf(results[i..]))
        invariant Ends(results) == (terminated || Ends(results[i..]))
      {
        ghost var before := history;
        HandleRead(results[i]);
        ReadsSplit(results[i..], before);
        assert results[i..][1..] == results[i + 1..];
        i := i + 1;
      }
      assert results[i..] == [] || terminated;
      AllPublished();
    }

    /** Between two reads, all copies agree with the history. */
    lemma AllPublished()
      requires Valid() && writer.Reading? && ServerInv(cfg, View())
      ensures channel == EventsOf(history) && eventLog.View() == LogAfter(history, cfg.maxEvents)
      ensures screen == ScreenAfter(cfg, history)
    {
      assert history[..|history|] == history;
    }

    /** One turn of the read loop. */
    method HandleRead(result: ReadResult<C>)
      requires Valid() && writer.Reading? && ServerInv(cfg, View()) && !terminated
      modifies this, eventLog
      ensures Valid() && writer.Reading? && ServerInv(cfg, View())
      ensures history == old(history) + (if result.Bytes? then [result.data] else [])
      ensures terminated <==> result.Eof? || result.Eio? || result.OtherError?
    {
      match result {
        case Bytes(data) => Publish(data);
        case Eof => terminated := true;
        case _ => terminated := ClassifyReadError(result) != Continue;
      }
    }

    /** The writer taking one step, if it is at the point that step starts from. */
    method TakeStep(step: WriterStep<C>)
      requires Valid()
      modifies this, eventLog
      ensures Valid() && View() == WriterNext(cfg, old(View()), step)
      ensures |channel| >= |old(channel)|
    {
      match step {
        case Parse(chunk) => if writer.Reading? { Parse(chunk); }
        case Append => if writer.Parsed? { Append(); }
        case Broadcast => if writer.Logged? { Send(); }
      }
    }
  }

  /** handle_ws and its helpers. `cursor` stands for the broadcast receiver and `wire` for the
      frames the socket accepted; the socket fails after `sendsLeft` sends. `schedule` is what
      the writer does at each point where the handler touches shared state, and `taken` how many
      of these points have been passed. The ghost trace is the run of StreamProtocol these steps
      amount to, from `start` on. */
  class Handler<S(==), C(==)> {
    const pane: Pane<S, C>
    const format: Format
    var cursor: nat
    var lastSentSeq: nat
    var diffBaseline: Option<S>
    var wire: seq<Frame<S, C>>
    var sendsLeft: nat
    const schedule: seq<seq<WriterStep<C>>>
    var taken: nat
    ghost const start: seq<Label<C>>
    ghost const budget: nat
    ghost var firstSeq: nat
    ghost var basePos: nat
    ghost var recoveries: seq<Recovery>
    ghost var trace: seq<Label<C>>

    ghost function Local(phase: Phase<S, C>, sent: seq<Frame<S, C>>): Subscriber<S, C> reads this {
      Subscriber(format, phase, cursor, lastSentSeq, diffBaseline, sent, firstSeq, basePos, recoveries)
    }

    ghost predicate InRun(phase: Phase<S, C>, sent: seq<Frame<S, C>>) reads this, pane, pane.eventLog {
      pane.Valid() && Run(pane.cfg, trace) == System(pane.View(), [Local(phase, sent)])
    }

    /** The writer has done exactly what was scheduled up to here, and the socket has taken or
        will take `budget` frames. */
    ghost predicate OnSchedule() reads this`taken, this`trace, this`wire, this`sendsLeft {
      && taken <= |schedule| && start <= trace
      && WritesOf(trace) == WritesOf(start) + Bursts(schedule, taken)
      && |wire| + sendsLeft == budget
    }

    /** The run so far ends in this state, with the handler at this program point. */
    ghost predicate At(phase: Phase<S, C>) reads this, pane, pane.eventLog {
      InRun(phase, wire) && OnSchedule()
    }

    /** The same, but what the run has sent is still `sent`. */
    ghost predicate Sending(phase: Phase<S, C>, sent: seq<Frame<S, C>>) reads this, pane, pane.eventLog {
      InRun(phase, sent) && OnSchedule()
    }

    /** The frames on the wire are those of a run. */
    ghost predicate WireOfRun() reads this, pane, pane.eventLog {
      && pane.Valid() && OnSchedule()
      && var sys := Run(pane.cfg, trace);
         sys.server == pane.View() && |sys.subs| == 1
         && sys.subs[0].format == format && sys.subs[0].sent == wire
    }

    /** The server once the writer has gone through this much of the schedule. */
    ghost function ServerAt(n: nat): Server<S, C>
      requires n <= |schedule|
    {
      WriterAfter(pane.cfg, WritesOf(start) + Bursts(schedule, n))
    }

    /** The diff between these screens was sent, unless they are equal. */
    twostate predicate DiffSent(seqNo: nat, base: S, new target: S) reads this {
      wire == if base == target then old(wire) else old(wire) + [DiffFrame(seqNo, base, target)]
    }

    /** The event was sent in this stream's format, and last_sent_seq raised to it. */
    twostate predicate Forwarded(event: Event<C>) reads this {
      && lastSentSeq == Max(old(lastSentSeq), event.seqNo)
      && if format == Raw then wire == old(wire) + [RawFrame(event.seqNo, event.data)]
         else old(diffBaseline).Some? && diffBaseline.Some?
              && DiffSent(event.seqNo, old(diffBaseline).value, diffBaseline.value)
    }

    /** One full screen was sent, last_sent_seq raised to its seq, and a baseline set to it. */
    twostate predicate Resynced(baseline: bool) reads this {
      && |wire| == |old(wire)| + 1 && wire[..|old(wire)|] == old(wire) && wire[|old(wire)|].ResyncFrame?
      && lastSentSeq == Max(old(lastSentSeq), wire[|old(wire)|].seqNo)
      && diffBaseline == if baseline then Some(wire[|old(wire)|].screen) else old(diffBaseline)
    }

    constructor (pane: Pane<S, C>, format: Format, sendsLeft: nat, schedule: seq<seq<WriterStep<C>>>,
                 ghost before: seq<Label<C>>)
      requires pane.Valid() && Run(pane.cfg, before) == System(pane.View(), [])
      ensures this.pane == pane && this.format == format && this.sendsLeft == sendsLeft && this.schedule == schedule
      ensures At(Connecting) && Unstarted()
    {
      this.pane, this.format, this.sendsLeft, this.schedule := pane, format, sendsLeft, schedule;
      this.taken, this.budget, this.start := 0, sendsLeft, before + [Connect(format)];
      this.cursor, this.lastSentSeq, this.diffBaseline, this.wire := 0, 0, None, [];
      this.firstSeq, this.basePos, this.recoveries := 1, 0, [];
      this.trace := before + [Connect(format)];
      new;
      RunSnoc(pane.cfg, before, Connect(format));
    }

    /** handle_ws has not begun. */
    ghost predicate Unstarted() reads this`taken, this`trace, this`wire { taken == 0 && trace == start && wire == [] }

    /** One step of the writer. */
    method WriterMoves(step: WriterStep<C>, ghost phase: Phase<S, C>)
      requires InRun(phase, wire)
      modifies this`trace, pane, pane.eventLog
      ensures InRun(phase, wire) && |pane.channel| >= |old(pane.channel)|
      ensures old(trace) <= trace && WritesOf(trace) == WritesOf(old(trace)) + [step]
    {
      RunSnoc(pane.cfg, trace, Write(step));
      WritesOfNext(trace, Write(step));
      trace := trace + [Write(step)];
      pane.TakeStep(step);
    }

    /** The writer runs until the handler gets its turn. */
    method Interleave(ghost phase: Phase<S, C>)
      requires At(phase)
      modifies this`taken, this`trace, pane, pane.eventLog
      ensures At(phase) && |pane.channel| >= |old(pane.channel)|
      ensures taken == Min(old(taken) + 1, |schedule|)
    {
      if taken < |schedule| {
        BurstsNext(WritesOf(start), schedule, taken);
        WriterRuns(schedule[taken], phase);
        taken := taken + 1;
      }
    }

    /** One burst of the writer. */
    method WriterRuns(burst: seq<WriterStep<C>>, ghost phase: Phase<S, C>)
      requires InRun(phase, wire)
      modifies this`trace, pane, pane.eventLog
      ensures InRun(phase, wire) && |pane.channel| >= |old(pane.channel)|
      ensures old(trace) <= trace && WritesOf(trace) == WritesOf(old(trace)) + burst
    {
      ghost var before := WritesOf(trace);
      var i := 0;
      while i < |burst|
        invariant i <= |burst| && InRun(phase, wire)
        invariant old(trace) <= trace && WritesOf(trace) == before + burst[..i]
        invariant |pane.channel| >= |old(pane.channel)|
      {
        WriterMoves(burst[i], phase);
        assert burst[..i + 1] == burst[..i] + [burst[i]];
        i := i + 1;
      }
      assert burst[..i] == burst;
    }

    /** The run takes the handler's next step. */
    ghost method Advanced(before: Subscriber<S, C>, phase: Phase<S, C>)
      requires pane.Valid() && Run(pane.cfg, trace) == System(pane.View(), [before]) && OnSchedule()
      requires AdvanceSub(pane.cfg, pane.View(), before) == Local(phase, wire)
      modifies this`trace
      ensures At(phase)
    {
      RunAdvance(pane.cfg, trace, pane.View(), before);
      WritesOfNext(trace, Advance(0));
      trace := trace + [Advance(0)];
    }

    method SendFrame(frame: Frame<S, C>) returns (ok: bool)
      modifies this`wire, this`sendsLeft
      ensures wire == if ok then old(wire) + [frame] else old(wire)
      ensures |wire| + sendsLeft == |old(wire)| + old(sendsLeft) && (ok <==> old(sendsLeft) > 0)
    {
      ok := sendsLeft > 0;
      if ok {
        wire := wire + [frame];
        sendsLeft := sendsLeft - 1;
      }
    }

    /** The first half of current_screen_snapshot: the log's latest seq. */
    method ReadLatestSeq(ghost lagged: bool) returns (seqNo: nat)
      requires At(SnapSeq(lagged))
      modifies this`taken, this`trace, pane, pane.eventLog
      ensures At(SnapScreen(lagged, seqNo)) && |pane.channel| >= |old(pane.channel)|
      ensures seqNo == LoggedCount(pane.View())
      ensures old(taken) <= taken <= old(taken) + 1
    {
      Interleave(SnapSeq(lagged));
      var latest := pane.eventLog.Latest();
      seqNo := if latest.None? then 0 else latest.value;
      ReadsSeeThePresent(pane.cfg, trace, 0);
      Advanced(Local(SnapSeq(lagged), wire), SnapScreen(lagged, seqNo));
    }

    /** current_screen_snapshot: first the log seq, then, later, the screen. */
    method CurrentScreenSnapshot(ghost lagged: bool) returns (seqNo: nat, screen: S, ghost screenPos: nat)
      requires At(SnapSeq(lagged))
      modifies this`taken, this`trace, pane, pane.eventLog
      ensures At(SendResync(lagged, seqNo, screen, screenPos)) && |pane.channel| >= |old(pane.channel)|
      ensures old(taken) <= taken <= old(taken) + 2
    {
      seqNo := ReadLatestSeq(lagged);
      Interleave(SnapScreen(lagged, seqNo));
      screen := pane.screen;
      screenPos := |pane.history|;
      Advanced(Local(SnapScreen(lagged, seqNo), wire), SendResync(lagged, seqNo, screen, screenPos));
    }

    /** send_screen_resync. */
    method SendScreenResync(ghost lagged: bool) returns (ok: bool, seqNo: nat, screen: S, ghost screenPos: nat)
      requires At(SnapSeq(lagged))
      modifies this`taken, this`trace, this`wire, this`sendsLeft, pane, pane.eventLog
      ensures ok ==> Sending(SendResync(lagged, seqNo, screen, screenPos), old(wire))
      ensures ok ==> wire == old(wire) + [ResyncFrame(seqNo, screen)]
      ensures !ok ==> At(SendResync(lagged, seqNo, screen, screenPos))
      ensures old(taken) <= taken <= old(taken) + 3 && |pane.channel| >= |old(pane.channel)|
      ensures ok || sendsLeft == 0
    {
      seqNo, screen, screenPos := CurrentScreenSnapshot(lagged);
      Interleave(SendResync(lagged, seqNo, screen, screenPos));
      ok := SendFrame(ResyncFrame(seqNo, screen));
    }

    /** The first half of send_screen_diff: the current screen overwrites the baseline. */
    method TakeScreen(seqNo: nat) returns (previous: S, current: S)
      requires At(ReadScreen(seqNo)) && diffBaseline.Some?
      modifies this`taken, this`trace, this`diffBaseline, this`basePos, pane, pane.eventLog
      ensures At(SendDiff(seqNo, previous, current))
      ensures old(diffBaseline) == Some(previous) && diffBaseline == Some(current)
      ensures old(taken) <= taken <= old(taken) + 1
    {
      Interleave(ReadScreen(seqNo));
      ghost var before := Local(ReadScreen(seqNo), wire);
      previous, current := diffBaseline.value, pane.screen;
      diffBaseline := Some(current);
      basePos := |pane.history|;
      Advanced(before, SendDiff(seqNo, previous, current));
    }

    /** The second half: nothing is sent if the diff is empty. */
    method SendDiffOf(seqNo: nat, base: S, target: S) returns (ok: bool)
      requires At(SendDiff(seqNo, base, target))
      modifies this`taken, this`trace, this`wire, this`sendsLeft, pane, pane.eventLog
      ensures ok && base == target ==> At(SendDiff(seqNo, base, target)) && wire == old(wire)
      ensures ok && base != target ==> Sending(SendDiff(seqNo, base, target), old(wire))
      ensures ok && base != target ==> wire == old(wire) + [DiffFrame(seqNo, base, target)]
      ensures !ok ==> At(SendDiff(seqNo, base, target))
      ensures old(taken) <= taken <= old(taken) + 1
      ensures ok || sendsLeft == 0
    {
      if base == target {
        return true;
      }
      Interleave(SendDiff(seqNo, base, target));
      ok := SendFrame(DiffFrame(seqNo, base, target));
    }

    /** send_screen_diff. */
    method SendScreenDiff(seqNo: nat) returns (ok: bool, ghost base: S, ghost target: S)
      requires At(ReadScreen(seqNo)) && diffBaseline.Some?
      modifies this`taken, this`trace, this`wire, this`sendsLeft
      modifies this`diffBaseline, this`basePos, pane, pane.eventLog
      ensures old(diffBaseline) == Some(base) && diffBaseline == Some(target)
      ensures ok && base == target ==> At(SendDiff(seqNo, base, target)) && wire == old(wire)
      ensures ok && base != target ==> Sending(SendDiff(seqNo, base, target), old(wire))
      ensures ok && base != target ==> wire == old(wire) + [DiffFrame(seqNo, base, target)]
      ensures !ok ==> At(SendDiff(seqNo, base, target))
      ensures old(taken) <= taken <= old(taken) + 2
      ensures ok || sendsLeft == 0
    {
      var previous, current := TakeScreen(seqNo);
      base, target := previous, current;
      ok := SendDiffOf(seqNo, previous, current);
    }

    method Subscribe()
      requires At(Connecting)
      modifies this`cursor, this`taken, this`trace, pane, pane.eventLog
      ensures At(Subscribed) && old(taken) <= taken <= old(taken) + 1
      ensures |old(pane.channel)| <= cursor == |pane.channel|
    {
      Interleave(Connecting);
      ghost var before := Local(Connecting, wire);
      cursor := |pane.channel|;
      Advanced(before, Subscribed);
    }

    method ReadLog() returns (history: seq<Event<C>>)
      requires At(Subscribed)
      modifies this`firstSeq, this`taken, this`trace, pane, pane.eventLog
      ensures At(SendingHistory(history)) && |history| <= |pane.history|
      ensures |pane.channel| >= |old(pane.channel)| && old(taken) <= taken <= old(taken) + 1
    {
      Interleave(Subscribed);
      ghost var before := Local(Subscribed, wire);
      history := pane.eventLog.Since(0);
      firstSeq := if pane.eventLog.events == [] then 1 else pane.eventLog.events[0].seqNo;
      Advanced(before, SendingHistory(history));
      HistoryFits(history);
    }

    lemma HistoryFits(history: seq<Event<C>>)
      requires At(SendingHistory(history))
      ensures |history| <= |pane.history| && cursor <= |pane.channel|
    {
      RunKeepsInv(pane.cfg, trace);
      assert Run(pane.cfg, trace).subs[0].phase == SendingHistory(history);
    }

    /** Subscribe, then read the log. */
    method ReadHistory() returns (history: seq<Event<C>>)
      requires At(Connecting)
      modifies this`cursor, this`firstSeq, this`taken, this`trace, pane, pane.eventLog
      ensures At(SendingHistory(history)) && |history| <= |pane.history|
      ensures |old(pane.channel)| <= cursor <= |pane.channel| && old(taken) <= taken <= old(taken) + 2
    {
      Subscribe();
      history := ReadLog();
    }

    /** Replay the log to the client. */
    method SendHistory(history: seq<Event<C>>) returns (ok: bool, ghost sent: nat)
      requires At(SendingHistory(history))
      modifies this`lastSentSeq, this`wire, this`sendsLeft, this`taken, this`trace, pane, pane.eventLog
      ensures WireOfRun()
      ensures ok ==> At(if format == ScreenDiff then SnapSeq(false) else Listening)
      ensures sent <= |history| && wire == old(wire) + RawFrames(history, sent) && (ok <==> sent == |history|)
      ensures old(taken) <= taken <= old(taken) + |history|
      ensures history != [] ==> lastSentSeq == history[if ok then sent - 1 else sent].seqNo
      ensures ok || sendsLeft == 0
    {
      var j := 0;
      assert history[0..] == history;
      while j < |history|
        invariant j <= |history| && At(SendingHistory(history[j..]))
        invariant wire == old(wire) + RawFrames(history, j)
        invariant old(taken) <= taken <= old(taken) + j
        invariant j > 0 ==> lastSentSeq == history[j - 1].seqNo
      {
        ok := SendNext(history, j);
        if !ok {
          return false, j;
        }
        RawFramesNext(old(wire), history, j);
        j := j + 1;
      }
      FinishHistory(history[j..]);
      return true, j;
    }

    /** One event of the log. */
    method SendNext(history: seq<Event<C>>, j: nat) returns (ok: bool)
      requires j < |history| && At(SendingHistory(history[j..]))
      modifies this`lastSentSeq, this`wire, this`sendsLeft, this`taken, this`trace, pane, pane.eventLog
      ensures WireOfRun() && lastSentSeq == history[j].seqNo && old(taken) <= taken <= old(taken) + 1
      ensures ok ==> At(SendingHistory(history[j + 1..]))
      ensures wire == if ok then old(wire) + [RawFrame(history[j].seqNo, history[j].data)] else old(wire)
      ensures ok || sendsLeft == 0
    {
      ghost var rest := history[j..];
      assert rest[0] == history[j] && rest[1..] == history[j + 1..];
      Interleave(SendingHistory(rest));
      ghost var before := Local(SendingHistory(rest), wire);
      lastSentSeq := history[j].seqNo;
      ok := SendFrame(RawFrame(history[j].seqNo, history[j].data));
      if ok { Advanced(before, SendingHistory(rest[1..])); }
    }

    ghost method FinishHistory(rest: seq<Event<C>>)
      requires At(SendingHistory(rest)) && rest == []
      modifies this`trace
      ensures At(if format == ScreenDiff then SnapSeq(false) else Listening) && WireOfRun()
    {
      Advanced(Local(SendingHistory([]), wire), if format == ScreenDiff then SnapSeq(false) else Listening);
    }

    /** The branch of handle_ws for RecvError::Lagged: resync, then subscribe afresh. */
    method RecoverFromLag() returns (ok: bool)
      requires At(SnapSeq(true))
      modifies this, pane, pane.eventLog
      ensures WireOfRun() && (ok ==> At(Listening) && Resynced(old(diffBaseline.Some?)))
      ensures old(taken) <= taken <= old(taken) + 4
      ensures ok ==> cursor == |pane.channel| >= |old(pane.channel)|
      ensures ok || sendsLeft == 0
    {
      var seqNo, screen;
      ghost var screenPos;
      ok, seqNo, screen, screenPos := SendScreenResync(true);
      if ok {
        AdoptSnapshot(seqNo, screen, screenPos, old(wire));
        Resubscribe();
      }
    }

    method AdoptSnapshot(seqNo: nat, screen: S, ghost screenPos: nat, ghost sent: seq<Frame<S, C>>)
      requires Sending(SendResync(true, seqNo, screen, screenPos), sent)
      requires wire == sent + [ResyncFrame(seqNo, screen)]
      modifies this`lastSentSeq, this`diffBaseline, this`basePos, this`recoveries, this`trace
      ensures At(Resubscribing) && lastSentSeq == Max(old(lastSentSeq), seqNo)
      ensures diffBaseline == if old(diffBaseline).Some? then Some(screen) else None
    {
      ghost var before := Local(SendResync(true, seqNo, screen, screenPos), sent);
      recoveries := recoveries + [Recovery(lastSentSeq, seqNo, screenPos, 0)];
      basePos := screenPos;
      lastSentSeq := Max(lastSentSeq, seqNo);
      if diffBaseline.Some? {
        diffBaseline := Some(screen);
      }
      Advanced(before, Resubscribing);
    }

    method Resubscribe()
      requires At(Resubscribing)
      modifies this`cursor, this`recoveries, this`taken, this`trace, pane, pane.eventLog
      ensures At(Listening) && cursor == |pane.channel| >= |old(pane.channel)|
      ensures old(taken) <= taken <= old(taken) + 1
    {
      Interleave(Resubscribing);
      ghost var before := Local(Resubscribing, wire);
      cursor := |pane.channel|;
      recoveries := NoteResume(recoveries, cursor);
      Advanced(before, Listening);
    }

    /** The branch of handle_ws for a received event above last_sent_seq. */
    method Forward(event: Event<C>) returns (ok: bool)
      requires At(if format == Raw then SendRaw(event) else ReadScreen(event.seqNo))
      requires format == ScreenDiff ==> diffBaseline.Some?
      modifies this, pane, pane.eventLog
      ensures WireOfRun() && (ok ==> At(Listening) && Forwarded(event)) && cursor == old(cursor)
      ensures old(taken) <= taken <= old(taken) + 2
      ensures ok || sendsLeft == 0
    {
      if format == Raw { ok := ForwardRaw(event); } else { ok := ForwardDiff(event.seqNo); }
    }

    method ForwardRaw(event: Event<C>) returns (ok: bool)
      requires At(SendRaw(event))
      modifies this`lastSentSeq, this`wire, this`sendsLeft, this`taken, this`trace, pane, pane.eventLog
      ensures WireOfRun() && (ok ==> At(Listening) && lastSentSeq == Max(old(lastSentSeq), event.seqNo))
      ensures wire == if ok then old(wire) + [RawFrame(event.seqNo, event.data)] else old(wire)
      ensures old(taken) <= taken <= old(taken) + 1
      ensures ok || sendsLeft == 0
    {
      Interleave(SendRaw(event));
      ghost var before := Local(SendRaw(event), wire);
      ok := SendFrame(RawFrame(event.seqNo, event.data));
      if !ok { return; }
      lastSentSeq := Max(lastSentSeq, event.seqNo);
      Advanced(before, Listening);
    }

    method ForwardDiff(seqNo: nat) returns (ok: bool)
      requires At(ReadScreen(seqNo)) && diffBaseline.Some?
      modifies this`lastSentSeq, this`diffBaseline, this`basePos
      modifies this`wire, this`sendsLeft, this`taken, this`trace, pane, pane.eventLog
      ensures WireOfRun() && (ok ==> At(Listening) && lastSentSeq == Max(old(lastSentSeq), seqNo))
      ensures ok ==> diffBaseline.Some? && DiffSent(seqNo, old(diffBaseline).value, diffBaseline.value)
      ensures old(taken) <= taken <= old(taken) + 2
      ensures ok || sendsLeft == 0
    {
      ghost var base, target;
      ok, base, target := SendScreenDiff(seqNo);
      if !ok { return; }
      ghost var before := Local(SendDiff(seqNo, base, target), old(wire));
      lastSentSeq := Max(lastSentSeq, seqNo);
      Advanced(before, Listening);
    }

    /** One turn of the select loop: a receive, unless everything has been received. */
    method Receive() returns (ok: bool)
      requires At(Listening)
      modifies this, pane, pane.eventLog
      ensures WireOfRun() && (ok ==> At(Listening))
      ensures Min(old(taken) + 1, |schedule|) <= taken <= old(taken) + 5
      ensures ok ==> cursor > old(cursor) || (cursor == old(cursor) >= |pane.channel| && wire == old(wire))
      ensures ok ==> cursor >= |pane.channel| || (cursor == old(cursor) + 1 && taken <= old(taken) + 3)
      ensures ok || sendsLeft == 0
    {
      Interleave(Listening);
      ok := true;
      if cursor < |pane.channel| {
        if |pane.channel| - cursor > pane.cfg.capacity {
          ghost var before := Local(Listening, wire);
          cursor := |pane.channel| - pane.cfg.capacity;
          Advanced(before, SnapSeq(true));
          ok := RecoverFromLag();
        } else {
          ok := ReceiveEvent();
        }
      }
    }

    /** The branch of handle_ws for a received event. */
    method ReceiveEvent() returns (ok: bool)
      requires At(Listening) && cursor < |pane.channel| <= cursor + pane.cfg.capacity
      modifies this, pane, pane.eventLog
      ensures WireOfRun() && (ok ==> At(Listening)) && cursor == old(cursor) + 1
      ensures var event := old(pane.channel)[old(cursor)];
        if event.seqNo <= old(lastSentSeq)
        then ok && wire == old(wire) && lastSentSeq == old(lastSentSeq) && diffBaseline == old(diffBaseline)
        else ok ==> Forwarded(event)
      ensures old(taken) <= taken <= old(taken) + 2
      ensures ok || sendsLeft == 0
    {
      ghost var before := Local(Listening, wire);
      var event := pane.channel[cursor];
      if format == ScreenDiff { DiffReplicaAgrees(pane.cfg, trace, 0); }
      assert format == ScreenDiff ==> diffBaseline.Some?;
      cursor := cursor + 1;
      ok := true;
      if event.seqNo <= lastSentSeq {
        Advanced(before, Listening);
      } else {
        Advanced(before, if format == Raw then SendRaw(event) else ReadScreen(event.seqNo));
        ok := Forward(event);
      }
    }

    /** What comes before the select loop: the replay, and the first screen of a screen_diff
        stream. */
    method CatchUp() returns (ok: bool)
      requires At(Connecting)
      modifies this, pane, pane.eventLog
      ensures WireOfRun() && (ok ==> At(Listening) && old(taken) <= taken <= old(taken) + |pane.history| + 5)
      ensures ok || sendsLeft == 0
    {
      var history := ReadHistory();
      StandsAt();
      ghost var sent;
      ghost var read := taken;
      ok, sent := SendHistory(history);
      if ok && format == ScreenDiff {
        ok := InitialResync();
      }
      StandsAt();
      HistoryGrows(read, taken);
    }

    /** handle_ws, until a send fails or the schedule is used up and the client hangs up. The
        frames on the wire are in order. As long as no send failed, a screen_diff client shows
        the baseline, which is the screen at a position not behind last_sent_seq, and a raw
        client that never lagged has received one contiguous run. Once the writer is idle and
        everything is received, the client is up to date, unless its last recovery from a lag
        missed the tail. The writer does all that is scheduled and nothing else, and a send fails
        only once the socket takes no more. If the writer does nothing for long enough in the
        end, everything is received; and as long as it does not broadcast more than the channel
        keeps, there is no recovery. */
    method HandleWs() returns (failed: bool, ghost shownPos: nat)
      requires At(Connecting) && Unstarted()
      modifies this, pane, pane.eventLog
      ensures WireOfRun() && Ordered(wire) && pane.View() == ServerAt(taken)
      ensures if failed then sendsLeft == 0 else taken == |schedule| && At(Listening)
      ensures !failed && QuietTail(schedule) >= 4 * |pane.history| + 5 ==> cursor == |pane.channel|
      ensures !failed && |pane.channel| <= |old(pane.channel)| + pane.cfg.capacity ==> recoveries == []
      ensures !failed ==> ClientShows(shownPos) && (pane.writer.Reading? && cursor == |pane.channel| ==> UpToDate())
    {
      shownPos := 0;
      var ok := CatchUp();
      StandsAt();
      if ok { StartsInTime(taken, cursor); }
      while ok && taken < |schedule|
        invariant WireOfRun() && (ok || sendsLeft == 0)
        invariant ok ==> At(Listening) && KeepsUp(taken, cursor)
        decreases |schedule| - taken
      {
        ok := TakeTurn();
      }
      failed := !ok;
      WireIsOrdered();
      StandsAt();
      if ok {
        AllReceived();
        ReceivedInTime();
        DrainedIsUpToDate();
        shownPos := WhatIsShown();
      }
    }

    /** A receive, seen from the schedule. */
    method TakeTurn() returns (ok: bool)
      requires At(Listening) && KeepsUp(taken, cursor)
      modifies this, pane, pane.eventLog
      ensures WireOfRun() && (ok || sendsLeft == 0) && Min(old(taken) + 1, |schedule|) <= taken
      ensures ok ==> At(Listening) && KeepsUp(taken, cursor)
    {
      ghost var t, c := taken, cursor;
      ok := Receive();
      if ok {
        StandsAt();
        StillKeepsUp(t, c, taken, cursor);
      }
    }

    lemma StandsAt()
      requires WireOfRun()
      ensures pane.View() == ServerAt(taken)
    {
      ServerIsTheWriters(pane.cfg, trace);
    }

    lemma HistoryGrows(t: nat, t': nat)
      requires t <= t' <= |schedule|
      ensures Extends(ServerAt(t), ServerAt(t'))
      ensures |schedule| - QuietTail(schedule) <= t ==> ServerAt(t) == ServerAt(t')
    {
      var more := BurstsSplit(schedule, t, t');
      WriterOnlyAppends(pane.cfg, WritesOf(start) + Bursts(schedule, t), more);
      assert WritesOf(start) + Bursts(schedule, t) + more == WritesOf(start) + Bursts(schedule, t');
    }

    /** In the last stretch, where the writer does nothing any more, there are turns left for all
        that is waiting, if that stretch is long enough. */
    ghost predicate KeepsUp(t: nat, c: nat)
      requires t <= |schedule|
    {
      |schedule| - QuietTail(schedule) <= t && QuietTail(schedule) >= 4 * |ServerAt(|schedule|).history| + 5 ==>
        |schedule| - t >= 3 * (|ServerAt(t).channel| - c)
    }

    lemma StartsInTime(t: nat, c: nat)
      requires t <= |schedule| && t <= |ServerAt(t).history| + 5
      ensures KeepsUp(t, c)
    {
      HistoryGrows(t, |schedule|);
      WriterAfterInv(pane.cfg, WritesOf(start) + Bursts(schedule, t));
    }

    /** A turn takes everything in, or the next event within three steps of the schedule. */
    lemma StillKeepsUp(t: nat, c: nat, t': nat, c': nat)
      requires t <= t' <= |schedule| && t' <= t + 5 && KeepsUp(t, c)
      requires c' >= |ServerAt(t').channel| || (c' == c + 1 && t' <= t + 3)
      ensures KeepsUp(t', c')
    {
      HistoryGrows(t, t');
      HistoryGrows(t', |schedule|);
      WriterAfterInv(pane.cfg, WritesOf(start) + Bursts(schedule, t'));
    }

    lemma AllReceived()
      requires At(Listening) && taken == |schedule| && KeepsUp(taken, cursor)
      ensures QuietTail(schedule) >= 4 * |pane.history| + 5 ==> cursor == |pane.channel|
    {
      StandsAt();
      RunKeepsInv(pane.cfg, trace);
    }

    lemma ReceivedInTime()
      requires At(Listening)
      requires |Run(pane.cfg, start).subs| == 1 && Run(pane.cfg, start).subs[0].phase.Connecting?
      ensures |pane.channel| <= |Run(pane.cfg, start).server.channel| + pane.cfg.capacity ==> recoveries == []
    {
      var more := trace[|start|..];
      assert start + more == trace;
      if |pane.channel| <= |Run(pane.cfg, start).server.channel| + pane.cfg.capacity {
        NoRecoveryWithin(pane.cfg, start, more, 0);
      }
    }

    lemma WireIsOrdered()
      requires WireOfRun()
      ensures Ordered(wire)
    {
      FramesAreOrdered(pane.cfg, trace, 0);
    }

    /** A screen_diff client shows the baseline, which is the screen at this position; a raw client
        has received the one transcript that goes with its recoveries, and one contiguous run if
        it never lagged. */
    ghost predicate ClientShows(shownPos: nat) reads this, pane {
      && (format == ScreenDiff ==>
            && shownPos <= |pane.history| && lastSentSeq <= shownPos
            && diffBaseline == Some(ScreenAfter(pane.cfg, pane.history[..shownPos]))
            && ClientScreen(pane.cfg, wire) == ScreenAfter(pane.cfg, pane.history[..shownPos]))
      && (format == Raw ==>
            && 1 <= firstSeq && lastSentSeq <= |pane.history| && RecoveriesBounded(recoveries, |pane.history|)
            && wire == Transcript(pane.cfg, pane.history, firstSeq, recoveries, lastSentSeq)
            && (recoveries == [] ==> wire == RawRun(pane.history, firstSeq - 1, lastSentSeq)))
    }

    /** The client has everything, unless its last recovery missed the tail. */
    ghost predicate UpToDate() reads this, pane {
      if format == ScreenDiff
      then !MissedTail(Local(Listening, wire), |pane.history|) ==> ClientScreen(pane.cfg, wire) == pane.screen
      else !MissedTailSeq(Local(Listening, wire), |pane.history|) ==> lastSentSeq == |pane.history|
    }

    /** The theorems about the run, read off the handler's variables. */
    ghost method WhatIsShown() returns (shownPos: nat)
      requires At(Listening)
      ensures ClientShows(shownPos)
    {
      shownPos := basePos;
      if format == ScreenDiff { DiffReplicaAgrees(pane.cfg, trace, 0); } else { RawTranscript(pane.cfg, trace, 0); }
    }

    lemma DrainedIsUpToDate()
      requires At(Listening)
      ensures pane.writer.Reading? && cursor == |pane.channel| ==> UpToDate()
    {
      if pane.writer.Reading? && cursor == |pane.channel| {
        if format == ScreenDiff {
          DiffConverges(pane.cfg, trace, 0);
          RunKeepsInv(pane.cfg, trace);
        } else {
          RawReachesTheEnd(pane.cfg, trace, 0);
        }
      }
    }

    /** The full-screen frame that starts a screen_diff stream. */
    method InitialResync() returns (ok: bool)
      requires At(SnapSeq(false))
      modifies this, pane, pane.eventLog
      ensures WireOfRun() && (ok ==> At(Listening) && Resynced(true)) && old(taken) <= taken <= old(taken) + 3
      ensures ok || sendsLeft == 0
    {
      var seqNo, screen;
      ghost var screenPos;
      ok, seqNo, screen, screenPos := SendScreenResync(false);
      if !ok { return; }
      ghost var before := Local(SendResync(false, seqNo, screen, screenPos), old(wire));
      lastSentSeq := Max(lastSentSeq, seqNo);
      diffBaseline := Some(screen);
      basePos := screenPos;
      Advanced(before, Listening);
    }
  }
}
