/** resize_pane (server/src/pane.rs) with any number of resizes of one pane under way at the
    same time: the PTY, the parser and the recorded size are set in three critical sections, and
    requests may overtake each other between them. */
module ConcurrentResize {
  import opened PaneSizes
  import opened Wrappers

  /** Where a request is: refused by the validation or by the PTY, or past some sections. */
  datatype Stage = Refused | Arrived | PtyDone | ParserDone | Done

  datatype Request = Request(size: PaneSize, stage: Stage)

  /** The three copies of the size, and the requests so far. The orders in which requests have
      passed the sections only record the run. */
  datatype System = System(
    pty: PaneSize, parser: PaneSize, recorded: PaneSize, requests: seq<Request>,
    ptyOrder: seq<nat>, parserOrder: seq<nat>, recordOrder: seq<nat>)

  datatype Label = Arrive(size: PaneSize) | ResizePty(k: nat, ok: bool) | SetParser(k: nat) | Record(k: nat)

  function Init(size: PaneSize): System { System(size, size, size, [], [], [], []) }

  predicate AtStage(sys: System, k: nat, stage: Stage) { k < |sys.requests| && sys.requests[k].stage == stage }

  function Moved(sys: System, k: nat, stage: Stage): seq<Request>
    requires k < |sys.requests|
  {
    sys.requests[k := sys.requests[k].(stage := stage)]
  }

  function Step(sys: System, act: Label): System {
    match act
    case Arrive(size) =>
      sys.(requests := sys.requests + [Request(size, if Validate(size).Ok? then Arrived else Refused)])
    case ResizePty(k, ok) =>
      if !AtStage(sys, k, Arrived) then sys
      else if !ok then sys.(requests := Moved(sys, k, Refused))
      else sys.(pty := sys.requests[k].size, requests := Moved(sys, k, PtyDone), ptyOrder := sys.ptyOrder + [k])
    case SetParser(k) =>
      if !AtStage(sys, k, PtyDone) then sys
      else sys.(parser := sys.requests[k].size, requests := Moved(sys, k, ParserDone),
                parserOrder := sys.parserOrder + [k])
    case Record(k) =>
      if !AtStage(sys, k, ParserDone) then sys
      else sys.(recorded := sys.requests[k].size, requests := Moved(sys, k, Done), recordOrder := sys.recordOrder + [k])
  }

  function Run(size: PaneSize, labels: seq<Label>): System {
    if labels == [] then Init(size) else Step(Run(size, labels[..|labels| - 1]), labels[|labels| - 1])
  }

  lemma RunSnoc(size: PaneSize, labels: seq<Label>, act: Label)
    ensures Run(size, labels + [act]) == Step(Run(size, labels), act)
  {
    assert (labels + [act])[..|labels|] == labels;
  }

  // ---- Invariant ---------------------------------------------------------------------------

  predicate PastPty(stage: Stage) { stage in {PtyDone, ParserDone, Done} }

  predicate PastParser(stage: Stage) { stage in {ParserDone, Done} }

  /** The size set last in a section, or the initial one. */
  function LastSize(size: PaneSize, requests: seq<Request>, order: seq<nat>): PaneSize {
    if order == [] || order[|order| - 1] >= |requests| then size else requests[order[|order| - 1]].size
  }

  /** Exactly the requests past a section have passed it, each once. */
  ghost predicate Passed(requests: seq<Request>, order: seq<nat>, past: Stage -> bool) {
    forall k: nat :: multiset(order)[k] == if k < |requests| && past(requests[k].stage) then 1 else 0
  }

  ghost predicate OrdersInv(sys: System) {
    && Passed(sys.requests, sys.ptyOrder, s => PastPty(s))
    && Passed(sys.requests, sys.parserOrder, s => PastParser(s))
    && Passed(sys.requests, sys.recordOrder, s => s == Done)
  }

  ghost predicate SizesInv(size: PaneSize, sys: System) {
    && sys.pty == LastSize(size, sys.requests, sys.ptyOrder)
    && sys.parser == LastSize(size, sys.requests, sys.parserOrder)
    && sys.recorded == LastSize(size, sys.requests, sys.recordOrder)
    && forall k :: 0 <= k < |sys.requests| && sys.requests[k].stage != Refused ==> Positive(sys.requests[k].size)
  }

  ghost predicate Inv(size: PaneSize, sys: System) { OrdersInv(sys) && SizesInv(size, sys) }

  lemma PassedInOrder(requests: seq<Request>, order: seq<nat>, past: Stage -> bool, k: nat)
    requires Passed(requests, order, past) && k in order
    ensures k < |requests| && past(requests[k].stage)
  {
    assert multiset(order)[k] > 0;
  }

  /** One more request passes a section. */
  lemma PassedGrows(requests: seq<Request>, order: seq<nat>, past: Stage -> bool, k: nat, stage: Stage)
    requires Passed(requests, order, past) && k < |requests| && !past(requests[k].stage) && past(stage)
    ensures Passed(requests[k := requests[k].(stage := stage)], order + [k], past)
  {
  }

  /** A request moves on without passing this section. */
  lemma PassedStays(requests: seq<Request>, order: seq<nat>, past: Stage -> bool, k: nat, stage: Stage)
    requires Passed(requests, order, past) && k < |requests| && (past(requests[k].stage) <==> past(stage))
    ensures Passed(requests[k := requests[k].(stage := stage)], order, past)
  {
  }

  lemma OrdersAfterArrive(sys: System, size: PaneSize)
    requires OrdersInv(sys)
    ensures OrdersInv(Step(sys, Arrive(size)))
  {
  }

  lemma OrdersStep(sys: System, act: Label)
    requires OrdersInv(sys)
    ensures OrdersInv(Step(sys, act))
  {
    var r, p, q, d := sys.requests, sys.ptyOrder, sys.parserOrder, sys.recordOrder;
    match act
    case Arrive(size) => OrdersAfterArrive(sys, size);
    case ResizePty(k, ok) =>
      if AtStage(sys, k, Arrived) {
        var stage := if ok then PtyDone else Refused;
        if ok { PassedGrows(r, p, s => PastPty(s), k, stage); } else { PassedStays(r, p, s => PastPty(s), k, stage); }
        PassedStays(r, q, s => PastParser(s), k, stage);
        PassedStays(r, d, s => s == Done, k, stage);
      }
    case SetParser(k) =>
      if AtStage(sys, k, PtyDone) {
        PassedStays(r, p, s => PastPty(s), k, ParserDone);
        PassedGrows(r, q, s => PastParser(s), k, ParserDone);
        PassedStays(r, d, s => s == Done, k, ParserDone);
      }
    case Record(k) =>
      if AtStage(sys, k, ParserDone) {
        PassedStays(r, p, s => PastPty(s), k, Done);
        PassedStays(r, q, s => PastParser(s), k, Done);
        PassedGrows(r, d, s => s == Done, k, Done);
      }
  }

  lemma SizesStep(size: PaneSize, sys: System, act: Label)
    requires SizesInv(size, sys)
    requires forall k :: k in sys.ptyOrder || k in sys.parserOrder || k in sys.recordOrder ==> k < |sys.requests|
    ensures SizesInv(size, Step(sys, act))
  {
    RequestsStay(sys, act);
    var next := Step(sys, act).requests;
    LastStays(size, sys.requests, next, sys.ptyOrder);
    LastStays(size, sys.requests, next, sys.parserOrder);
    LastStays(size, sys.requests, next, sys.recordOrder);
    CopiesStep(size, sys, act, next);
  }

  lemma RequestsStay(sys: System, act: Label)
    requires forall k :: 0 <= k < |sys.requests| && sys.requests[k].stage != Refused ==> Positive(sys.requests[k].size)
    ensures var next := Step(sys, act).requests;
      && |sys.requests| <= |next| && (forall k :: 0 <= k < |sys.requests| ==> next[k].size == sys.requests[k].size)
      && forall k :: 0 <= k < |next| && next[k].stage != Refused ==> Positive(next[k].size)
  {
  }

  /** Each section sets its copy to the size of the request that now passed it last. */
  lemma CopiesStep(size: PaneSize, sys: System, act: Label, r: seq<Request>)
    requires r == Step(sys, act).requests && |sys.requests| <= |r|
    requires forall k :: 0 <= k < |sys.requests| ==> r[k].size == sys.requests[k].size
    requires sys.pty == LastSize(size, r, sys.ptyOrder)
    requires sys.parser == LastSize(size, r, sys.parserOrder)
    requires sys.recorded == LastSize(size, r, sys.recordOrder)
    ensures var next := Step(sys, act);
      && next.pty == LastSize(size, r, next.ptyOrder)
      && next.parser == LastSize(size, r, next.parserOrder)
      && next.recorded == LastSize(size, r, next.recordOrder)
  {
    match act
    case Arrive(_) =>
    case ResizePty(k, _) => if k < |r| { LastIsNew(size, r, sys.ptyOrder, k); }
    case SetParser(k) => if k < |r| { LastIsNew(size, r, sys.parserOrder, k); }
    case Record(k) => if k < |r| { LastIsNew(size, r, sys.recordOrder, k); }
  }

  lemma LastIsNew(size: PaneSize, requests: seq<Request>, order: seq<nat>, k: nat)
    requires k < |requests|
    ensures LastSize(size, requests, order + [k]) == requests[k].size
  {
  }

  /** A request keeps its size. */
  lemma LastStays(size: PaneSize, requests: seq<Request>, next: seq<Request>, order: seq<nat>)
    requires forall k :: k in order ==> k < |requests|
    requires |requests| <= |next| && forall k :: 0 <= k < |requests| ==> next[k].size == requests[k].size
    ensures LastSize(size, next, order) == LastSize(size, requests, order)
  {
    if order != [] { assert order[|order| - 1] in order; }
  }

  lemma StepKeepsInv(size: PaneSize, sys: System, act: Label)
    requires Inv(size, sys)
    ensures Inv(size, Step(sys, act))
  {
    OrdersStep(sys, act);
    forall k | k in sys.ptyOrder || k in sys.parserOrder || k in sys.recordOrder ensures k < |sys.requests| {
      if k in sys.ptyOrder {
        PassedInOrder(sys.requests, sys.ptyOrder, s => PastPty(s), k);
      } else if k in sys.parserOrder {
        PassedInOrder(sys.requests, sys.parserOrder, s => PastParser(s), k);
      } else {
        PassedInOrder(sys.requests, sys.recordOrder, s => s == Done, k);
      }
    }
    SizesStep(size, sys, act);
  }

  lemma {:induction false} RunKeepsInv(size: PaneSize, labels: seq<Label>)
    ensures Inv(size, Run(size, labels))
  {
    if labels != [] {
      RunKeepsInv(size, labels[..|labels| - 1]);
      StepKeepsInv(size, Run(size, labels[..|labels| - 1]), labels[|labels| - 1]);
    }
  }

  // ---- When the three sizes agree ------------------------------------------------------------

  predicate Agree(sys: System) { sys.pty == sys.parser == sys.recorded }

  /** No request is between its sections. */
  predicate Idle(sys: System) {
    forall k :: 0 <= k < |sys.requests| ==> sys.requests[k].stage == Done || sys.requests[k].stage == Refused
  }

  /** The request that passed a section last, if any did. */
  function Last(order: seq<nat>): Option<nat> { if order == [] then None else Some(order[|order| - 1]) }

  predicate SameLast(sys: System) { Last(sys.ptyOrder) == Last(sys.parserOrder) == Last(sys.recordOrder) }

  /** No two accepted requests ask for the same size, and none for the one the pane started with. */
  ghost predicate SizesDiffer(size: PaneSize, sys: System) {
    && (forall k :: 0 <= k < |sys.requests| ==> sys.requests[k].size != size)
    && forall j, k :: 0 <= j < k < |sys.requests| ==> sys.requests[j].size != sys.requests[k].size
  }

  /** In every state, every copy of the size is positive, and is that of the request that passed
      its section last; idle, the same requests have passed all three sections. */
  lemma SizesAreRequested(size: PaneSize, labels: seq<Label>)
    requires Positive(size)
    ensures var sys := Run(size, labels);
      && Positive(sys.pty) && Positive(sys.parser) && Positive(sys.recorded)
      && sys.pty == LastSize(size, sys.requests, sys.ptyOrder)
      && sys.parser == LastSize(size, sys.requests, sys.parserOrder)
      && sys.recorded == LastSize(size, sys.requests, sys.recordOrder)
      && (Idle(sys) ==> multiset(sys.ptyOrder) == multiset(sys.parserOrder) == multiset(sys.recordOrder))
  {
    RunKeepsInv(size, labels);
    var sys := Run(size, labels);
    LastIsPositive(size, sys.requests, sys.ptyOrder, s => PastPty(s));
    LastIsPositive(size, sys.requests, sys.parserOrder, s => PastParser(s));
    LastIsPositive(size, sys.requests, sys.recordOrder, s => s == Done);
  }

  lemma LastIsPositive(size: PaneSize, requests: seq<Request>, order: seq<nat>, past: Stage -> bool)
    requires Positive(size) && Passed(requests, order, past) && !past(Refused)
    requires forall k :: 0 <= k < |requests| && requests[k].stage != Refused ==> Positive(requests[k].size)
    ensures Positive(LastSize(size, requests, order))
  {
    if order != [] { PassedInOrder(requests, order, past, order[|order| - 1]); }
  }

  /** The three sizes agree if one request passed all three sections last, whatever was under way
      at the same time; and only then, unless different requests ask for the same size. */
  lemma AgreeIff(size: PaneSize, labels: seq<Label>)
    ensures var sys := Run(size, labels);
      && (SameLast(sys) ==> Agree(sys))
      && (SizesDiffer(size, sys) ==> (Agree(sys) <==> SameLast(sys)))
  {
    RunKeepsInv(size, labels);
    var sys := Run(size, labels);
    if SizesDiffer(size, sys) {
      SameSizeSameLast(size, sys, sys.ptyOrder, s => PastPty(s), sys.parserOrder, s => PastParser(s));
      SameSizeSameLast(size, sys, sys.parserOrder, s => PastParser(s), sys.recordOrder, s => s == Done);
    }
  }

  lemma SameSizeSameLast(size: PaneSize, sys: System, a: seq<nat>, past: Stage -> bool,
                         b: seq<nat>, past': Stage -> bool)
    requires SizesDiffer(size, sys) && Passed(sys.requests, a, past) && Passed(sys.requests, b, past')
    ensures LastSize(size, sys.requests, a) == LastSize(size, sys.requests, b) ==> Last(a) == Last(b)
  {
    if a != [] { PassedInOrder(sys.requests, a, past, a[|a| - 1]); }
    if b != [] { PassedInOrder(sys.requests, b, past', b[|b| - 1]); }
  }

  // ---- One request after the other ---------------------------------------------------------

  /** One whole request, number k, with nothing in between. */
  function Alone(k: nat, size: PaneSize, ok: bool): seq<Label> {
    [Arrive(size), ResizePty(k, ok), SetParser(k), Record(k)]
  }

  lemma AloneRuns(start: PaneSize, labels: seq<Label>, sys: System, size: PaneSize, ok: bool)
    requires sys == Run(start, labels)
    ensures var next := Run(start, labels + Alone(|sys.requests|, size, ok));
      && |next.requests| == |sys.requests| + 1
      && (forall k :: 0 <= k < |sys.requests| ==> next.requests[k] == sys.requests[k])
      && (next.requests[|sys.requests|].stage == Done || next.requests[|sys.requests|].stage == Refused)
      && (if ok && Positive(size) then next.pty == next.parser == next.recorded == size
          else next.pty == sys.pty && next.parser == sys.parser && next.recorded == sys.recorded)
  {
    var k := |sys.requests|;
    RunSnoc(start, labels, Arrive(size));
    RunSnoc(start, labels + [Arrive(size)], ResizePty(k, ok));
    RunSnoc(start, labels + [Arrive(size)] + [ResizePty(k, ok)], SetParser(k));
    RunSnoc(start, labels + [Arrive(size)] + [ResizePty(k, ok)] + [SetParser(k)], Record(k));
    assert labels + Alone(k, size, ok)
        == labels + [Arrive(size)] + [ResizePty(k, ok)] + [SetParser(k)] + [Record(k)];
  }

  datatype Ask = Ask(size: PaneSize, ptyOk: bool)

  function OneByOne(asks: seq<Ask>): seq<Label> {
    if asks == [] then []
    else OneByOne(asks[..|asks| - 1]) + Alone(|asks| - 1, asks[|asks| - 1].size, asks[|asks| - 1].ptyOk)
  }

  /** The size of the last request that is valid and that the PTY accepts. */
  function LastAccepted(start: PaneSize, asks: seq<Ask>): PaneSize {
    if asks == [] then start
    else
      var ask := asks[|asks| - 1];
      if ask.ptyOk && Positive(ask.size) then ask.size else LastAccepted(start, asks[..|asks| - 1])
  }

  /** Requests that do not overlap leave the pane idle, with all three sizes those of the last
      request that was accepted. */
  lemma {:induction false} OneByOneAgrees(start: PaneSize, asks: seq<Ask>)
    ensures var sys := Run(start, OneByOne(asks));
      && |sys.requests| == |asks| && Idle(sys)
      && sys.pty == sys.parser == sys.recorded == LastAccepted(start, asks)
  {
    if asks != [] {
      var n := |asks| - 1;
      OneByOneAgrees(start, asks[..n]);
      var before := OneByOne(asks[..n]);
      AloneRuns(start, before, Run(start, before), asks[n].size, asks[n].ptyOk);
    }
  }

  // ---- Two at a time -----------------------------------------------------------------------

  /** Two valid resizes to different sizes, both accepted and over, can leave the PTY and the
      record with the one size and the parser with the other. */
  lemma OverlapCanDisagree(start: PaneSize, a: PaneSize, b: PaneSize)
    requires Positive(a) && Positive(b) && a != b
    ensures exists labels :: var sys := Run(start, labels);
      && Idle(sys) && sys.requests == [Request(a, Done), Request(b, Done)]
      && sys.pty == b && sys.parser == a && sys.recorded == b && !Agree(sys)
  {
    var labels := BothPastPty(start, a, b);
    RunSnoc(start, labels, SetParser(1));
    labels := labels + [SetParser(1)];
    RunSnoc(start, labels, SetParser(0));
    labels := labels + [SetParser(0)];
    RunSnoc(start, labels, Record(0));
    labels := labels + [Record(0)];
    RunSnoc(start, labels, Record(1));
    labels := labels + [Record(1)];
    assert Run(start, labels).requests == [Request(a, Done), Request(b, Done)];
  }

  lemma BothArrived(start: PaneSize, a: PaneSize, b: PaneSize) returns (labels: seq<Label>)
    requires Positive(a) && Positive(b)
    ensures Run(start, labels)
         == System(start, start, start, [Request(a, Arrived), Request(b, Arrived)], [], [], [])
  {
    RunSnoc(start, [], Arrive(a));
    labels := [] + [Arrive(a)];
    assert Run(start, labels) == System(start, start, start, [Request(a, Arrived)], [], [], []);
    RunSnoc(start, labels, Arrive(b));
    labels := labels + [Arrive(b)];
  }

  lemma BothPastPty(start: PaneSize, a: PaneSize, b: PaneSize) returns (labels: seq<Label>)
    requires Positive(a) && Positive(b)
    ensures Run(start, labels)
         == System(b, start, start, [Request(a, PtyDone), Request(b, PtyDone)], [0, 1], [], [])
  {
    labels := BothArrived(start, a, b);
    RunSnoc(start, labels, ResizePty(0, true));
    labels := labels + [ResizePty(0, true)];
    assert Run(start, labels)
        == System(a, start, start, [Request(a, PtyDone), Request(b, Arrived)], [0], [], []);
    RunSnoc(start, labels, ResizePty(1, true));
    labels := labels + [ResizePty(1, true)];
  }
}
