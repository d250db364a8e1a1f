/** The drained states that StreamTheorems speaks of are reached: once no more output comes,
    the writer and any subscriber that stays need only go on. */
module StreamProgress {
  import opened Wrappers
  import opened EventLogs
  import opened StreamProtocol
  import opened StreamInvariants
  import opened StreamTheorems

  /** Events the subscriber has not received. */
  function Waiting<S, C>(srv: Server<S, C>, sub: Subscriber<S, C>): nat {
    if sub.cursor < |srv.channel| then |srv.channel| - sub.cursor else 0
  }

  /** Steps until it is at its receive again, at most. */
  function StepsLeft<S, C>(srv: Server<S, C>, sub: Subscriber<S, C>): nat {
    match sub.phase
    case Connecting => 8 + |srv.log.events|
    case Subscribed => 7 + |srv.log.events|
    case SendingHistory(rest) => 6 + |rest|
    case SnapSeq(_) => 5
    case SnapScreen(_, _) => 4
    case SendResync(_, _, _, _) => 3
    case Resubscribing => 2
    case ReadScreen(_) => 2
    case SendRaw(_) => 1
    case SendDiff(_, _, _) => 1
    case Listening => 0
    case LostBaseline => 0
    case Closed => 0
  }

  lemma {:induction false} NewerIsShorter<C>(events: seq<Event<C>>, after: nat)
    ensures |Newer(events, after)| <= |events|
  {
    if events != [] { NewerIsShorter(events[1..], after); }
  }

  /** Nothing left to receive, or gone. */
  predicate AtRest<S, C>(srv: Server<S, C>, sub: Subscriber<S, C>) {
    sub.phase.Closed? || (sub.phase.Listening? && sub.cursor == |srv.channel|)
  }

  /** Every step brings the subscriber nearer to rest: it has fewer events waiting, or is nearer
      to its receive. */
  lemma AdvanceProgresses<S, C>(cfg: Config<S, C>, srv: Server<S, C>, h: seq<C>, l: nat, sub: Subscriber<S, C>)
    requires |srv.channel| <= l <= |h| && PhaseInv(cfg, h, |srv.channel|, l, sub) && !AtRest(srv, sub)
    ensures var next := AdvanceSub(cfg, srv, sub);
      && next.format == sub.format && !next.phase.Closed?
      && (Waiting(srv, next) < Waiting(srv, sub)
          || (Waiting(srv, next) == Waiting(srv, sub) && StepsLeft(srv, next) < StepsLeft(srv, sub)))
  {
    NewerIsShorter(srv.log.events, 0);
  }

  lemma ProgressInRun<S, C>(cfg: Config<S, C>, labels: seq<Label<C>>, sys: System<S, C>, i: nat)
    requires sys == Run(cfg, labels) && i < |sys.subs| && !AtRest(sys.server, sys.subs[i])
    ensures var next := Run(cfg, labels + [Advance(i)]);
      && i < |next.subs| && next.server == sys.server
      && next.subs[i].format == sys.subs[i].format && !next.subs[i].phase.Closed?
      && (Waiting(sys.server, next.subs[i]) < Waiting(sys.server, sys.subs[i])
          || (Waiting(sys.server, next.subs[i]) == Waiting(sys.server, sys.subs[i])
              && StepsLeft(sys.server, next.subs[i]) < StepsLeft(sys.server, sys.subs[i])))
  {
    RunKeepsInv(cfg, labels);
    RunSnoc(cfg, labels, Advance(i));
    AdvanceProgresses(cfg, sys.server, sys.server.history, LoggedCount(sys.server), sys.subs[i]);
  }

  /** The subscriber goes on until it is at rest; the server stands still. */
  lemma {:induction false} Settles<S, C>(cfg: Config<S, C>, labels: seq<Label<C>>, sys: System<S, C>, i: nat)
    returns (more: seq<Label<C>>)
    requires sys == Run(cfg, labels) && i < |sys.subs| && !sys.subs[i].phase.Closed?
    ensures var next := Run(cfg, labels + more);
      && i < |next.subs| && next.server == sys.server && next.subs[i].format == sys.subs[i].format
      && AtRest(next.server, next.subs[i]) && !next.subs[i].phase.Closed?
    decreases Waiting(sys.server, sys.subs[i]), StepsLeft(sys.server, sys.subs[i])
  {
    if AtRest(sys.server, sys.subs[i]) {
      more := [];
      assert labels + more == labels;
    } else {
      ProgressInRun(cfg, labels, sys, i);
      var rest := Settles(cfg, labels + [Advance(i)], Run(cfg, labels + [Advance(i)]), i);
      more := [Advance(i)] + rest;
      assert labels + more == labels + [Advance(i)] + rest;
    }
  }

  /** The writer logs and broadcasts what it has parsed. */
  lemma WriterFinishes<S, C>(cfg: Config<S, C>, labels: seq<Label<C>>) returns (more: seq<Label<C>>)
    ensures var sys, next := Run(cfg, labels), Run(cfg, labels + more);
      && next.server.writer.Reading? && next.server.history == sys.server.history && next.subs == sys.subs
  {
    var writer := Run(cfg, labels).server.writer;
    more := if writer.Reading? then [] else if writer.Parsed? then [Write(Append)] else [Write(Broadcast)];
    if writer.Reading? {
      assert labels + more == labels;
    } else {
      RunSnoc(cfg, labels, more[0]);
      assert labels + more == labels + [more[0]];
      if writer.Parsed? {
        RunSnoc(cfg, labels + more, Write(Broadcast));
        assert labels + (more + [Write(Broadcast)]) == labels + more + [Write(Broadcast)];
        more := more + [Write(Broadcast)];
      }
    }
  }

  /** From every state of every run, a subscriber that has not gone away gets drained, and the
      writer idle, without any more output: the convergence theorems then apply. */
  lemma DrainIsReached<S, C>(cfg: Config<S, C>, labels: seq<Label<C>>, i: nat) returns (more: seq<Label<C>>)
    requires var sys := Run(cfg, labels); i < |sys.subs| && !sys.subs[i].phase.Closed?
    ensures Drained(Run(cfg, labels + more), i)
    ensures var sys, next := Run(cfg, labels), Run(cfg, labels + more);
      next.server.history == sys.server.history && next.subs[i].format == sys.subs[i].format
  {
    var writes := WriterFinishes(cfg, labels);
    var advances := Settles(cfg, labels + writes, Run(cfg, labels + writes), i);
    more := writes + advances;
    assert labels + more == labels + writes + advances;
  }
}
