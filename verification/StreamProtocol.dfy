/** The pane output stream as a step machine: one PTY reader thread
    (server/src/pane.rs) and any number of WebSocket subscribers
    (server/src/handlers/stream.rs), interleaved at every shared access.

    A label that is not enabled leaves the system unchanged, so the lists of labels
    are exactly the interleavings (with stuttering). */
module StreamProtocol {
  import opened Wrappers
  import opened EventLogs

  type Positive = n: nat | n >= 1 witness 1

  /** The terminal emulator and the two limits. `process` is the emulator fed one chunk;
      `patch` is what a diff does to a screen that is not the one it was computed from.
      `capacity` is that of the broadcast channel (4096 in create_pane). */
  datatype Config<!S, !C> = Config(
    blank: S, process: (S, C) -> S, patch: (S, S, S) -> S, maxEvents: nat, capacity: Positive)

  /** Screen(n): the emulator after the given chunks. */
  function ScreenAfter<S, C>(cfg: Config<S, C>, history: seq<C>): S {
    if history == [] then cfg.blank
    else cfg.process(ScreenAfter(cfg, history[..|history| - 1]), history[|history| - 1])
  }

  // ---- The writer ------------------------------------------------------------

  /** Where the read loop is: it parses a chunk, then logs it, then broadcasts it. */
  datatype Writer<+C> = Reading | Parsed(chunk: C) | Logged(event: Event<C>)

  /** The shared state. `history` records every chunk ever parsed; no step reads it
      except to note a position. */
  datatype Server<+S, +C> = Server(
    screen: S, log: Log<C>, channel: seq<Event<C>>, writer: Writer<C>, history: seq<C>)

  datatype WriterStep<+C> = Parse(chunk: C) | Append | Broadcast

  function InitServer<S, C>(cfg: Config<S, C>): Server<S, C> {
    Server(cfg.blank, EmptyLog(cfg.maxEvents), [], Reading, [])
  }

  function WriterNext<S, C>(cfg: Config<S, C>, srv: Server<S, C>, step: WriterStep<C>): Server<S, C> {
    match (step, srv.writer)
    case (Parse(chunk), Reading) =>
      srv.(screen := cfg.process(srv.screen, chunk), writer := Parsed(chunk), history := srv.history + [chunk])
    case (Append, Parsed(chunk)) =>
      srv.(log := Push(srv.log, chunk), writer := Logged(Event(srv.log.nextSeq, chunk)))
    case (Broadcast, Logged(event)) =>
      srv.(channel := srv.channel + [event], writer := Reading)
    case _ => srv
  }

  // ---- Frames and the client ---------------------------------------------------

  datatype Frame<+S, +C> =
    | RawFrame(seqNo: nat, data: C)
    | ResyncFrame(seqNo: nat, screen: S)
    | DiffFrame(seqNo: nat, base: S, target: S)

  /** A full frame overrides any screen; a diff applied to its own base gives its target. */
  function Apply<S(==), C>(cfg: Config<S, C>, screen: S, frame: Frame<S, C>): S {
    match frame
    case RawFrame(_, data) => cfg.process(screen, data)
    case ResyncFrame(_, full) => full
    case DiffFrame(_, base, target) => if screen == base then target else cfg.patch(screen, base, target)
  }

  function ClientScreen<S(==), C>(cfg: Config<S, C>, sent: seq<Frame<S, C>>): S {
    if sent == [] then cfg.blank
    else Apply(cfg, ClientScreen(cfg, sent[..|sent| - 1]), sent[|sent| - 1])
  }

  // ---- A subscriber --------------------------------------------------------------

  datatype Format = Raw | ScreenDiff

  /** The program points of handle_ws between two shared accesses. `lagged` tells the resync
      after a lag from the initial one. */
  datatype Phase<+S, +C> =
    | Connecting
    | Subscribed
    | SendingHistory(rest: seq<Event<C>>)
    | SnapSeq(lagged: bool)
    | SnapScreen(lagged: bool, seqNo: nat)
    | SendResync(lagged: bool, seqNo: nat, screen: S, screenPos: nat)
    | Resubscribing
    | Listening
    | SendRaw(event: Event<C>)
    | ReadScreen(seqNo: nat)
    | SendDiff(seqNo: nat, base: S, target: S)
    | LostBaseline
    | Closed

  /** What one lag recovery saw: last_sent_seq before it, the log seq S it read, the parser
      position p of its screen, and the broadcast position b it resubscribed at. */
  datatype Recovery = Recovery(before: nat, seqNo: nat, screenPos: nat, resumeAt: nat)

  /** The local variables of handle_ws and the frames sent. The last three fields only
      record the run: the oldest seq retained when the history was read, the parser position
      of the last full screen or baseline taken, and the lag recoveries. */
  datatype Subscriber<+S, +C> = Subscriber(
    format: Format, phase: Phase<S, C>, cursor: nat, lastSent: nat, baseline: Option<S>,
    sent: seq<Frame<S, C>>,
    firstSeq: nat, basePos: nat, recoveries: seq<Recovery>)

  function NewSubscriber<S, C>(format: Format): Subscriber<S, C> {
    Subscriber(format, Connecting, 0, 0, None, [], 1, 0, [])
  }

  /** One atomic step of handle_ws. */
  function AdvanceSub<S(==), C>(cfg: Config<S, C>, srv: Server<S, C>, sub: Subscriber<S, C>): Subscriber<S, C> {
    match sub.phase
    case Connecting =>
      sub.(cursor := |srv.channel|, phase := Subscribed)
    case Subscribed =>
      sub.(phase := SendingHistory(Newer(srv.log.events, 0)),
           firstSeq := if srv.log.events == [] then 1 else srv.log.events[0].seqNo)
    case SendingHistory(rest) =>
      if rest == [] then
        sub.(phase := if sub.format == ScreenDiff then SnapSeq(false) else Listening)
      else
        sub.(phase := SendingHistory(rest[1..]), lastSent := rest[0].seqNo,
             sent := sub.sent + [RawFrame(rest[0].seqNo, rest[0].data)])
    case SnapSeq(lagged) =>
      var latest := LatestSeq(srv.log);
      sub.(phase := SnapScreen(lagged, if latest.None? then 0 else latest.value))
    case SnapScreen(lagged, seqNo) =>
      sub.(phase := SendResync(lagged, seqNo, srv.screen, |srv.history|))
    case SendResync(lagged, seqNo, screen, screenPos) =>
      sub.(sent := sub.sent + [ResyncFrame(seqNo, screen)],
           lastSent := Max(sub.lastSent, seqNo),
           baseline := if lagged && sub.baseline.None? then None else Some(screen),
           phase := if lagged then Resubscribing else Listening,
           basePos := screenPos,
           recoveries := if lagged then sub.recoveries + [Recovery(sub.lastSent, seqNo, screenPos, 0)]
                         else sub.recoveries)
    case Resubscribing =>
      sub.(cursor := |srv.channel|, phase := Listening,
           recoveries := NoteResume(sub.recoveries, |srv.channel|))
    case Listening =>
      if sub.cursor >= |srv.channel| then sub                       // nothing to receive yet
      else if |srv.channel| - sub.cursor > cfg.capacity then        // RecvError::Lagged
        sub.(cursor := |srv.channel| - cfg.capacity, phase := SnapSeq(true))
      else
        var event := srv.channel[sub.cursor];
        var next := sub.(cursor := sub.cursor + 1);
        if event.seqNo <= sub.lastSent then next
        else if sub.format == Raw then next.(phase := SendRaw(event))
        else if sub.baseline.None? then next.(phase := LostBaseline)
        else next.(phase := ReadScreen(event.seqNo))
    case SendRaw(event) =>
      sub.(sent := sub.sent + [RawFrame(event.seqNo, event.data)],
           lastSent := Max(sub.lastSent, event.seqNo), phase := Listening)
    case ReadScreen(seqNo) =>
      if sub.baseline.None? then sub.(phase := LostBaseline)
      else sub.(phase := SendDiff(seqNo, sub.baseline.value, srv.screen),
                baseline := Some(srv.screen), basePos := |srv.history|)
    case SendDiff(seqNo, base, target) =>
      sub.(sent := if base == target then sub.sent else sub.sent + [DiffFrame(seqNo, base, target)],
           lastSent := Max(sub.lastSent, seqNo), phase := Listening)
    case LostBaseline => sub
    case Closed => sub
  }

  function NoteResume(recoveries: seq<Recovery>, b: nat): seq<Recovery> {
    if recoveries == [] then []
    else recoveries[|recoveries| - 1 := recoveries[|recoveries| - 1].(resumeAt := b)]
  }

  // ---- The system ------------------------------------------------------------------

  datatype System<+S, +C> = System(server: Server<S, C>, subs: seq<Subscriber<S, C>>)

  /** `Stop` is any of the ways out of handle_ws: a failed send, a closed socket. */
  datatype Label<+C> = Write(step: WriterStep<C>) | Connect(format: Format) | Advance(sub: nat) | Stop(sub: nat)

  function Init<S, C>(cfg: Config<S, C>): System<S, C> { System(InitServer(cfg), []) }

  function Step<S(==), C>(cfg: Config<S, C>, sys: System<S, C>, act: Label<C>): System<S, C> {
    match act
    case Write(step) => sys.(server := WriterNext(cfg, sys.server, step))
    case Connect(format) => sys.(subs := sys.subs + [NewSubscriber(format)])
    case Advance(i) =>
      if i < |sys.subs| then sys.(subs := sys.subs[i := AdvanceSub(cfg, sys.server, sys.subs[i])]) else sys
    case Stop(i) =>
      if i < |sys.subs| then sys.(subs := sys.subs[i := sys.subs[i].(phase := Closed)]) else sys
  }

  /** The state after any interleaving. */
  function Run<S(==), C>(cfg: Config<S, C>, labels: seq<Label<C>>): System<S, C> {
    if labels == [] then Init(cfg)
    else Step(cfg, Run(cfg, labels[..|labels| - 1]), labels[|labels| - 1])
  }
}
