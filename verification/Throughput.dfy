/** ThroughputWindow of gui_client_rs/src/main.rs: a queue of samples with a running total,
    against the plain sum over everything ever recorded. Times are instants in nanoseconds. */
module Throughput {

  const WINDOW_SECONDS: nat := 5
  const WINDOW: nat := WINDOW_SECONDS * 1_000_000_000

  datatype Sample = Sample(at: nat, bytes: nat)

  datatype Window = Window(samples: seq<Sample>, totalBytes: nat)

  function Sum(samples: seq<Sample>): nat {
    if samples == [] then 0 else samples[0].bytes + Sum(samples[1..])
  }

  /** Instant::duration_since, which is zero when `earlier` is the later one. */
  function DurationSince(now: nat, earlier: nat): nat { if now >= earlier then now - earlier else 0 }

  predicate Stale(s: Sample, now: nat) { DurationSince(now, s.at) > WINDOW }

  /** How many samples the loop of prune pops. */
  function Popped(samples: seq<Sample>, now: nat): (n: nat)
    ensures n <= |samples|
  {
    if samples == [] || !Stale(samples[0], now) then 0 else 1 + Popped(samples[1..], now)
  }

  function SaturatingSub(a: nat, b: nat): nat { if a >= b then a - b else 0 }

  function Prune(w: Window, now: nat): Window {
    Window(w.samples[Popped(w.samples, now)..], SaturatingSub(w.totalBytes, Sum(w.samples[..Popped(w.samples, now)])))
  }

  function Record(w: Window, now: nat, bytes: nat): Window {
    if bytes == 0 then Prune(w, now)
    else Prune(Window(w.samples + [Sample(now, bytes)], w.totalBytes + bytes), now)
  }

  lemma {:induction false} SumSplit(a: seq<Sample>, b: seq<Sample>)
    ensures Sum(a + b) == Sum(a) + Sum(b)
  {
    if a == [] {
      assert a + b == b;
    } else {
      SumSplit(a[1..], b);
      assert (a + b)[1..] == a[1..] + b;
    }
  }

  /** The counter as the object the GUI keeps per pane. The ghost fields count the samples
      pushed and popped over its lifetime. */
  class ThroughputWindow {
    var samples: seq<Sample>
    var totalBytes: nat
    ghost var pushes: nat
    ghost var pops: nat

    ghost function View(): Window reads this { Window(samples, totalBytes) }

    /** The running total is exact, and no sample is popped that was not pushed. */
    ghost predicate Valid() reads this {
      totalBytes == Sum(samples) && pops + |samples| == pushes
    }

    constructor ()
      ensures Valid() && View() == Window([], 0) && pushes == pops == 0
    {
      samples, totalBytes, pushes, pops := [], 0, 0, 0;
    }

    /** The saturating subtraction never saturates: every popped sample is covered by the total. */
    method PruneStale(now: nat)
      requires Valid()
      modifies this
      ensures Valid() && View() == Prune(old(View()), now) && pushes == old(pushes) && old(pops) <= pops
    {
      ghost var all := samples;
      ghost var n := 0;
      while samples != [] && Stale(samples[0], now)
        invariant n <= |all| && samples == all[n..] && pops == old(pops) + n && pushes == old(pushes)
        invariant totalBytes == Sum(samples) && Sum(all) == Sum(all[..n]) + Sum(samples)
        invariant Popped(all, now) == n + Popped(samples, now)
        decreases |samples|
      {
        assert totalBytes >= samples[0].bytes;
        assert all[..n + 1] == all[..n] + [samples[0]] && samples[1..] == all[n + 1..];
        SumSplit(all[..n], [samples[0]]);
        totalBytes := SaturatingSub(totalBytes, samples[0].bytes);
        samples := samples[1..];
        n := n + 1;
        pops := pops + 1;
      }
      assert Popped(samples, now) == 0;
    }

    method RecordBytes(now: nat, bytes: nat)
      requires Valid()
      modifies this
      ensures Valid() && View() == Record(old(View()), now, bytes)
      ensures pushes == old(pushes) + (if bytes == 0 then 0 else 1) && old(pops) <= pops <= pushes
    {
      if bytes == 0 {
        PruneStale(now);
        return;
      }
      SumSplit(samples, [Sample(now, bytes)]);
      samples := samples + [Sample(now, bytes)];
      totalBytes := totalBytes + bytes;
      pushes := pushes + 1;
      PruneStale(now);
    }

    method BytesPerSecond(now: nat) returns (rate: real)
      requires Valid()
      modifies this
      ensures Valid() && View() == Prune(old(View()), now) && pushes == old(pushes)
      ensures rate * 5.0 == Sum(samples) as real
    {
      PruneStale(now);
      rate := totalBytes as real / WINDOW_SECONDS as real;
    }
  }

  // ---- Against the brute-force window ----------------------------------------------------

  datatype Op = Rec(now: nat, bytes: nat) | Query(now: nat)

  function After(ops: seq<Op>): Window {
    if ops == [] then Window([], 0)
    else
      var w := After(ops[..|ops| - 1]);
      match ops[|ops| - 1]
      case Rec(now, bytes) => Record(w, now, bytes)
      case Query(now) => Prune(w, now)
  }

  /** Every sample ever recorded, in order. */
  function Recorded(ops: seq<Op>): seq<Sample> {
    if ops == [] then []
    else
      var all := Recorded(ops[..|ops| - 1]);
      match ops[|ops| - 1]
      case Rec(now, bytes) => all + [Sample(now, bytes)]
      case Query(_) => all
  }

  /** The sum over the samples that are at most 5 s old. */
  function WindowSum(all: seq<Sample>, now: nat): nat {
    if all == [] then 0
    else (if Stale(all[0], now) then 0 else all[0].bytes) + WindowSum(all[1..], now)
  }

  /** How the GUI calls it: record times never go back, query times never go back, and what is
      recorded before a query was received before it. A sample may be recorded after a query
      with a later time. */
  ghost predicate Orderly(ops: seq<Op>) {
    && (forall i, j :: 0 <= i < j < |ops| && ops[i].Rec? && ops[j].Rec? ==> ops[i].now <= ops[j].now)
    && (forall i, j :: 0 <= i < j < |ops| && ops[j].Query? ==> ops[i].now <= ops[j].now)
  }

  ghost predicate Sorted(samples: seq<Sample>) {
    forall i, j :: 0 <= i < j < |samples| ==> samples[i].at <= samples[j].at
  }

  /** Samples of zero bytes never enter the queue. */
  function NonZero(samples: seq<Sample>): seq<Sample> {
    if samples == [] then []
    else
      var init, last := samples[..|samples| - 1], samples[|samples| - 1];
      if last.bytes == 0 then NonZero(init) else NonZero(init) + [last]
  }

  function Latest(ops: seq<Op>): nat {
    if ops == [] then 0
    else
      var before, now := Latest(ops[..|ops| - 1]), ops[|ops| - 1].now;
      if before > now then before else now
  }

  /** The queue is the history without its first k samples, all stale at the latest time seen. */
  ghost predicate Refines(w: Window, kept: seq<Sample>, k: nat, latest: nat) {
    && Sorted(kept) && k <= |kept|
    && w.samples == kept[k..] && w.totalBytes == Sum(w.samples)
    && forall i :: 0 <= i < k ==> Stale(kept[i], latest)
  }

  lemma {:induction false} PoppedAreStale(samples: seq<Sample>, now: nat)
    ensures forall i :: 0 <= i < Popped(samples, now) ==> Stale(samples[i], now)
    ensures Popped(samples, now) < |samples| ==> !Stale(samples[Popped(samples, now)], now)
  {
    if samples != [] && Stale(samples[0], now) {
      PoppedAreStale(samples[1..], now);
      var n := Popped(samples[1..], now);
      assert forall i :: 0 < i < n + 1 ==> samples[i] == samples[1..][i - 1];
    }
  }

  /** Pruning drops a longer stale prefix, and keeps the total exact. */
  lemma PruneRefines(w: Window, kept: seq<Sample>, k: nat, now: nat, latest: nat)
    requires Refines(w, kept, k, latest) && now <= latest
    ensures Refines(Prune(w, now), kept, k + Popped(w.samples, now), latest)
  {
    var n := Popped(w.samples, now);
    PoppedAreStale(w.samples, now);
    assert w.samples[n..] == kept[k + n..];
    assert w.samples == w.samples[..n] + w.samples[n..];
    SumSplit(w.samples[..n], w.samples[n..]);
    forall i | k <= i < k + n ensures Stale(kept[i], latest) {
      assert kept[i] == w.samples[i - k];
    }
  }

  lemma {:induction false} RecordedBefore(ops: seq<Op>, s: Sample)
    requires s in NonZero(Recorded(ops))
    ensures exists i :: 0 <= i < |ops| && ops[i] == Rec(s.at, s.bytes)
  {
    var init, op := ops[..|ops| - 1], ops[|ops| - 1];
    if op.Rec? {
      assert Recorded(ops)[..|Recorded(ops)| - 1] == Recorded(init);
    }
    if s in NonZero(Recorded(init)) {
      RecordedBefore(init, s);
      var i :| 0 <= i < |init| && init[i] == Rec(s.at, s.bytes);
      assert ops[i] == Rec(s.at, s.bytes);
    }
  }

  /** Recording keeps the refinement, as long as no earlier sample is later in time. */
  lemma RecordRefines(w: Window, kept: seq<Sample>, k: nat, now: nat, bytes: nat, latest: nat) returns (k': nat)
    requires Refines(w, kept, k, latest) && now <= latest && bytes > 0
    requires forall s :: s in kept ==> s.at <= now
    ensures Refines(Record(w, now, bytes), kept + [Sample(now, bytes)], k', latest)
  {
    var more := kept + [Sample(now, bytes)];
    var pushed := Window(w.samples + [Sample(now, bytes)], w.totalBytes + bytes);
    SumSplit(w.samples, [Sample(now, bytes)]);
    assert more[k..] == pushed.samples;
    PruneRefines(pushed, more, k, now, latest);
    k' := k + Popped(pushed.samples, now);
  }

  lemma RefinesLater(w: Window, kept: seq<Sample>, k: nat, earlier: nat, later: nat)
    requires Refines(w, kept, k, earlier) && earlier <= later
    ensures Refines(w, kept, k, later)
  {
  }

  lemma {:induction false} WindowRefinesHistory(ops: seq<Op>) returns (k: nat)
    requires Orderly(ops)
    ensures Refines(After(ops), NonZero(Recorded(ops)), k, Latest(ops))
  {
    if ops == [] {
      return 0;
    }
    var init, op := ops[..|ops| - 1], ops[|ops| - 1];
    k := WindowRefinesHistory(init);
    var w, kept := After(init), NonZero(Recorded(init));
    RefinesLater(w, kept, k, Latest(init), Latest(ops));
    if op.Rec? {
      assert Recorded(ops)[..|Recorded(ops)| - 1] == Recorded(init);
    }
    if op.Rec? && op.bytes > 0 {
      forall s | s in kept ensures s.at <= op.now { RecordedBefore(init, s); }
      k := RecordRefines(w, kept, k, op.now, op.bytes, Latest(ops));
    } else {
      PruneRefines(w, kept, k, op.now, Latest(ops));
      k := k + Popped(w.samples, op.now);
    }
  }

  /** The bytes of the samples recorded in the last five seconds. */
  function RecentBytes(all: seq<Sample>, now: nat): nat {
    if all == [] then 0
    else
      var init, last := all[..|all| - 1], all[|all| - 1];
      RecentBytes(init, now) + if now - last.at <= 5_000_000_000 then last.bytes else 0
  }

  lemma {:induction false} WindowSumIsRecent(all: seq<Sample>, now: nat)
    ensures WindowSum(all, now) == RecentBytes(all, now)
  {
    if all != [] {
      var init, last := all[..|all| - 1], all[|all| - 1];
      WindowSumIsRecent(init, now);
      assert all == init + [last];
      WindowSumSplit(init, [last], now);
    }
  }

  lemma {:induction false} WindowSumSplit(a: seq<Sample>, b: seq<Sample>, now: nat)
    ensures WindowSum(a + b, now) == WindowSum(a, now) + WindowSum(b, now)
  {
    if a == [] {
      assert a + b == b;
    } else {
      WindowSumSplit(a[1..], b, now);
      assert (a + b)[1..] == a[1..] + b;
    }
  }

  lemma {:induction false} WindowSumOfStale(samples: seq<Sample>, now: nat)
    requires forall i :: 0 <= i < |samples| ==> Stale(samples[i], now)
    ensures WindowSum(samples, now) == 0
  {
    if samples != [] { WindowSumOfStale(samples[1..], now); }
  }

  lemma {:induction false} WindowSumOfFresh(samples: seq<Sample>, now: nat)
    requires forall i :: 0 <= i < |samples| ==> !Stale(samples[i], now)
    ensures WindowSum(samples, now) == Sum(samples)
  {
    if samples != [] { WindowSumOfFresh(samples[1..], now); }
  }

  lemma {:induction false} WindowSumOfNonZero(samples: seq<Sample>, now: nat)
    ensures WindowSum(NonZero(samples), now) == WindowSum(samples, now)
  {
    if samples != [] {
      var init, last := samples[..|samples| - 1], samples[|samples| - 1];
      WindowSumOfNonZero(init, now);
      assert samples == init + [last];
      WindowSumSplit(init, [last], now);
      WindowSumSplit(NonZero(init), [last], now);
    }
  }

  /** At every query of an orderly run, the incremental total is the plain sum of the bytes of
      all samples ever recorded that are at most 5 s old. */
  lemma QueryEqualsBruteForce(ops: seq<Op>, now: nat)
    requires Orderly(ops + [Query(now)])
    ensures After(ops + [Query(now)]).totalBytes == RecentBytes(Recorded(ops), now)
  {
    var all := ops + [Query(now)];
    assert all[..|ops|] == ops;
    var k := WindowRefinesHistory(all);
    LatestIsLast(ops, now);
    var w, kept := After(all), NonZero(Recorded(ops));
    PoppedAreStale(After(ops).samples, now);
    forall i | 0 <= i < |w.samples| ensures !Stale(w.samples[i], now) {
      assert !Stale(w.samples[0], now);
      assert w.samples[0] == kept[k] && w.samples[i] == kept[k + i];
    }
    assert kept == kept[..k] + w.samples;
    WindowSumSplit(kept[..k], w.samples, now);
    WindowSumOfStale(kept[..k], now);
    WindowSumOfFresh(w.samples, now);
    WindowSumOfNonZero(Recorded(ops), now);
    WindowSumIsRecent(Recorded(ops), now);
  }

  /** After every call, whatever is left in front of the queue is at most 5 s old. */
  lemma FrontIsFresh(ops: seq<Op>)
    requires ops != [] && After(ops).samples != []
    ensures ops[|ops| - 1].now - After(ops).samples[0].at <= 5_000_000_000
  {
    var before, op := After(ops[..|ops| - 1]).samples, ops[|ops| - 1];
    PoppedAreStale(if op.Rec? && op.bytes > 0 then before + [Sample(op.now, op.bytes)] else before, op.now);
  }

  lemma {:induction false} LatestIsAttained(ops: seq<Op>)
    requires ops != []
    ensures exists i :: 0 <= i < |ops| && ops[i].now == Latest(ops)
  {
    var n := |ops| - 1;
    if Latest(ops) == ops[n].now {
    } else {
      LatestIsAttained(ops[..n]);
      var i :| 0 <= i < n && ops[..n][i].now == Latest(ops[..n]);
      assert ops[i].now == Latest(ops);
    }
  }

  lemma LatestIsLast(ops: seq<Op>, now: nat)
    requires Orderly(ops + [Query(now)])
    ensures Latest(ops + [Query(now)]) == now
  {
    var all := ops + [Query(now)];
    LatestIsAttained(all);
    var i :| 0 <= i < |all| && all[i].now == Latest(all);
    assert all[|ops|].Query?;
  }
}
