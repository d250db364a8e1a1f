/** The bounded, sequence-numbered event log of server/src/event.rs, and the
    incremental polling that server/src/handlers/events.rs offers over it. */
module EventLogs {
  import opened Wrappers

  /** One PTY output event. Timestamps are not part of this model: the logged and
      the broadcast copy of an event take theirs separately. */
  datatype Event<+C> = Event(seqNo: nat, data: C)

  /** The value of a log: retained events, next sequence number, retention limit. */
  datatype Log<+C> = Log(events: seq<Event<C>>, nextSeq: nat, maxEvents: nat)

  function EmptyLog<C>(maxEvents: nat): Log<C> { Log([], 1, maxEvents) }

  function Push<C>(log: Log<C>, data: C): Log<C> {
    var kept := if |log.events| >= log.maxEvents && |log.events| > 0 then log.events[1..] else log.events;
    log.(events := kept + [Event(log.nextSeq, data)], nextSeq := log.nextSeq + 1)
  }

  /** The log after all of `history` was pushed into an empty log. */
  function LogAfter<C>(history: seq<C>, maxEvents: nat): Log<C> {
    if history == [] then EmptyLog(maxEvents)
    else Push(LogAfter(history[..|history| - 1], maxEvents), history[|history| - 1])
  }

  /** Plain filter: the events newer than `after`, in order. */
  function Newer<C>(events: seq<Event<C>>, after: nat): seq<Event<C>> {
    if events == [] then []
    else (if events[0].seqNo > after then [events[0]] else []) + Newer(events[1..], after)
  }

  function LatestSeq<C>(log: Log<C>): Option<nat> {
    if log.events == [] then None else Some(log.events[|log.events| - 1].seqNo)
  }

  /** The unbounded history, numbered from 1. */
  function EventsOf<C>(history: seq<C>): seq<Event<C>> {
    seq(|history|, i requires 0 <= i < |history| => Event(i + 1, history[i]))
  }

  /** How many of `pushed` events a log with limit `maxEvents` keeps: a limit of 0 keeps one. */
  function Kept(pushed: nat, maxEvents: nat): nat { Min(pushed, Max(1, maxEvents)) }

  function Evicted(pushed: nat, maxEvents: nat): nat { pushed - Kept(pushed, maxEvents) }

  /** The log refines the unbounded history: it holds exactly its last `Kept` events. */
  lemma {:induction false} LogRefinesHistory<C>(history: seq<C>, maxEvents: nat)
    ensures LogAfter(history, maxEvents)
         == Log(EventsOf(history)[Evicted(|history|, maxEvents)..], |history| + 1, maxEvents)
  {
    if history == [] {
      assert EventsOf(history)[0..] == [];
    } else {
      var init, data := history[..|history| - 1], history[|history| - 1];
      LogRefinesHistory(init, maxEvents);
      var before := EventsOf(init)[Evicted(|init|, maxEvents)..];
      var after := EventsOf(history)[Evicted(|history|, maxEvents)..];
      assert EventsOf(history) == EventsOf(init) + [Event(|history|, data)];
      if |before| >= maxEvents && |before| > 0 {
        assert after == before[1..] + [Event(|history|, data)];
      } else {
        assert after == before + [Event(|history|, data)];
      }
    }
  }

  /** Filtering a consecutively numbered stretch is dropping its prefix. */
  lemma {:induction false} NewerOfConsecutive<C>(history: seq<C>, lo: nat, after: nat)
    requires lo <= |history|
    ensures Newer(EventsOf(history)[lo..], after) == EventsOf(history)[Min(|history|, Max(lo, after))..]
    decreases |history| - lo
  {
    var events := EventsOf(history)[lo..];
    if lo < |history| {
      assert events[1..] == EventsOf(history)[lo + 1..];
      NewerOfConsecutive(history, lo + 1, after);
      if lo + 1 > after {
        assert Newer(events, after) == [events[0]] + EventsOf(history)[lo + 1..];
      }
    }
  }

  /** What a query answers in terms of the unbounded history. */
  lemma {:induction false} SinceAnswersFromHistory<C>(history: seq<C>, maxEvents: nat, after: nat)
    ensures Newer(LogAfter(history, maxEvents).events, after)
         == EventsOf(history)[Min(|history|, Max(Evicted(|history|, maxEvents), after))..]
  {
    LogRefinesHistory(history, maxEvents);
    NewerOfConsecutive(history, Evicted(|history|, maxEvents), after);
  }

  lemma {:induction false} LatestSeqCountsHistory<C>(history: seq<C>, maxEvents: nat)
    ensures LatestSeq(LogAfter(history, maxEvents))
         == if history == [] then None else Some(|history|)
  {
    LogRefinesHistory(history, maxEvents);
  }

  lemma PushExtendsHistory<C>(history: seq<C>, maxEvents: nat, data: C)
    ensures LogAfter(history, maxEvents).nextSeq == |history| + 1
    ensures LogAfter(history + [data], maxEvents) == Push(LogAfter(history, maxEvents), data)
  {
    LogRefinesHistory(history, maxEvents);
    assert (history + [data])[..|history|] == history;
  }

  /** server/src/event.rs: the log as the object that the server shares. */
  class EventLog<C(==)> {
    var events: seq<Event<C>>
    var nextSeq: nat
    const maxEvents: nat
    ghost var history: seq<C>

    ghost function View(): Log<C> reads this { Log(events, nextSeq, maxEvents) }

    ghost predicate Valid() reads this { View() == LogAfter(history, maxEvents) }

    constructor WithMaxEvents(maxEvents: nat)
      ensures Valid() && history == [] && this.maxEvents == maxEvents
      ensures View() == EmptyLog(maxEvents)
    {
      events, nextSeq, history := [], 1, [];
      this.maxEvents := maxEvents;
    }

    method PushEvent(data: C) returns (seqNo: nat)
      requires Valid()
      modifies this
      ensures Valid() && history == old(history) + [data]
      ensures View() == Push(old(View()), data)
      ensures seqNo == |history|
    {
      PushExtendsHistory(history, maxEvents, data);
      seqNo := nextSeq;
      nextSeq := nextSeq + 1;
      if |events| >= maxEvents {
        if events != [] {
          events := events[1..];
        }
      }
      events := events + [Event(seqNo, data)];
      history := history + [data];
    }

    /** The binary search behind `partition_point(|e| e.seq <= after)`. */
    method PartitionPoint(after: nat) returns (start: nat)
      requires Valid()
      ensures start <= |events|
      ensures forall i :: 0 <= i < start ==> events[i].seqNo <= after
      ensures forall i :: start <= i < |events| ==> events[i].seqNo > after
    {
      LogRefinesHistory(history, maxEvents);
      var lo, hi := 0, |events|;
      while lo < hi
        invariant lo <= hi <= |events|
        invariant forall i :: 0 <= i < lo ==> events[i].seqNo <= after
        invariant forall i :: hi <= i < |events| ==> events[i].seqNo > after
      {
        var mid := lo + (hi - lo) / 2;
        if events[mid].seqNo <= after { lo := mid + 1; } else { hi := mid; }
      }
      start := lo;
    }

    method Since(after: nat) returns (newer: seq<Event<C>>)
      requires Valid()
      ensures newer == Newer(events, after)
      ensures newer == EventsOf(history)[Min(|history|, Max(Evicted(|history|, maxEvents), after))..]
    {
      SinceAnswersFromHistory(history, maxEvents, after);
      LogRefinesHistory(history, maxEvents);
      if events == [] {
        return [];
      }
      var start := PartitionPoint(after);
      newer := events[start..];
      ghost var first := Evicted(|history|, maxEvents);
      assert forall i :: 0 <= i < |events| ==> events[i].seqNo == first + i + 1;
      if start > 0 { assert events[start - 1].seqNo <= after; }
      if start < |events| { assert events[start].seqNo > after; }
      assert first + start == Min(|history|, Max(first, after));
    }

    method OldestSeq() returns (seqNo: Option<nat>)
      requires Valid()
      ensures seqNo == if history == [] then None else Some(Evicted(|history|, maxEvents) + 1)
    {
      LogRefinesHistory(history, maxEvents);
      seqNo := if events == [] then None else Some(events[0].seqNo);
    }

    method Latest() returns (seqNo: Option<nat>)
      requires Valid()
      ensures seqNo == LatestSeq(View())
      ensures seqNo == if history == [] then None else Some(|history|)
    {
      LatestSeqCountsHistory(history, maxEvents);
      seqNo := if events == [] then None else Some(events[|events| - 1].seqNo);
    }
  }

  // ---- Incremental polling -------------------------------------------------

  /** A client that keeps asking for the events after the last one it has seen. */
  datatype Poller<+C> = Poller(history: seq<C>, after: nat, got: seq<Event<C>>)

  /** One response, and the `after` the client sends next. */
  function PollOnce<C>(p: Poller<C>, pushed: seq<C>, maxEvents: nat): Poller<C> {
    var history := p.history + pushed;
    var response := Newer(LogAfter(history, maxEvents).events, p.after);
    Poller(history,
           if response == [] then p.after else response[|response| - 1].seqNo,
           p.got + response)
  }

  /** One poll after each batch of pushes. */
  function PollAll<C>(batches: seq<seq<C>>, maxEvents: nat): Poller<C> {
    if batches == [] then Poller([], 0, [])
    else PollOnce(PollAll(batches[..|batches| - 1], maxEvents), batches[|batches| - 1], maxEvents)
  }

  function Concat<C>(batches: seq<seq<C>>): seq<C> {
    if batches == [] then [] else Concat(batches[..|batches| - 1]) + batches[|batches| - 1]
  }

  /** Was event `k` still retained at the first poll made after it was pushed? */
  ghost predicate InTime<C>(batches: seq<seq<C>>, maxEvents: nat, k: nat) {
    exists i :: 0 <= i < |batches| && InTimeAt(batches, maxEvents, i, k)
  }

  ghost predicate InBatch<C>(batches: seq<seq<C>>, i: nat, k: nat)
    requires i < |batches|
  {
    |Concat(batches[..i])| < k <= |Concat(batches[..i + 1])|
  }

  /** The batch numbered i contains event k, and event k is still retained after it. */
  ghost predicate InTimeAt<C>(batches: seq<seq<C>>, maxEvents: nat, i: nat, k: nat)
    requires i < |batches|
  {
    InBatch(batches, i, k) && k > Evicted(|Concat(batches[..i + 1])|, maxEvents)
  }

  ghost predicate StrictlyIncreasing<C>(events: seq<Event<C>>) {
    forall i, j :: 0 <= i < j < |events| ==> events[i].seqNo < events[j].seqNo
  }

  /** After every poll the client's cursor is the number of events pushed so far. */
  lemma {:induction false} PollerKeepsUp<C>(batches: seq<seq<C>>, maxEvents: nat)
    ensures var p := PollAll(batches, maxEvents);
      p.history == Concat(batches) && p.after == |p.history|
  {
    if batches != [] {
      var p := PollAll(batches[..|batches| - 1], maxEvents);
      PollerKeepsUp(batches[..|batches| - 1], maxEvents);
      SinceAnswersFromHistory(p.history + batches[|batches| - 1], maxEvents, p.after);
    }
  }

  /** One response is the history from the client's cursor on, minus what was evicted:
      a first seq above after + 1 shows exactly that something was evicted unseen. */
  lemma {:induction false} PollResponse<C>(batches: seq<seq<C>>, pushed: seq<C>, maxEvents: nat)
    ensures var p, q := PollAll(batches, maxEvents), PollAll(batches + [pushed], maxEvents);
      && q.history == p.history + pushed && p.after == |p.history| && q.after == |q.history|
      && q.got == p.got + EventsOf(q.history)[Max(p.after, Evicted(|q.history|, maxEvents))..]
      && (|q.got| > |p.got| ==>
           (q.got[|p.got|].seqNo > p.after + 1 <==> Evicted(|q.history|, maxEvents) > p.after))
      && (|q.got| == |p.got| <==> pushed == [])
  {
    assert (batches + [pushed])[..|batches|] == batches;
    PollerKeepsUp(batches, maxEvents);
    PollerKeepsUp(batches + [pushed], maxEvents);
    SinceAnswersFromHistory(PollAll(batches, maxEvents).history + pushed, maxEvents,
                            PollAll(batches, maxEvents).after);
  }

  ghost predicate Has<C>(events: seq<Event<C>>, history: seq<C>, k: nat) {
    1 <= k <= |history| && Event(k, history[k - 1]) in events
  }

  /** Numbered in strictly increasing order, and carrying what was pushed. */
  ghost predicate Genuine<C>(events: seq<Event<C>>, history: seq<C>) {
    && StrictlyIncreasing(events)
    && forall e :: e in events ==> 1 <= e.seqNo <= |history| && e.data == history[e.seqNo - 1]
  }

  /** Every run of polls delivers, in strictly increasing order, exactly the events that
      were not evicted before the first poll after their push. */
  lemma {:induction false} PollingDeliversExactly<C>(batches: seq<seq<C>>, maxEvents: nat)
    ensures var p := PollAll(batches, maxEvents);
      && Genuine(p.got, p.history)
      && forall k :: 1 <= k <= |p.history| ==>
           (Has(p.got, p.history, k) <==> InTime(batches, maxEvents, k))
  {
    if batches == [] {
      return;
    }
    var n := |batches| - 1;
    var init := batches[..n];
    assert init + [batches[n]] == batches;
    PollingDeliversExactly(init, maxEvents);
    PollerKeepsUp(batches, maxEvents);
    PollerKeepsUp(init, maxEvents);
    PollResponse(init, batches[n], maxEvents);
    var p, q := PollAll(init, maxEvents), PollAll(batches, maxEvents);
    var start := Max(p.after, Evicted(|q.history|, maxEvents));
    AppendStretch(p.got, p.history, q.history, start);
    forall k | 1 <= k <= |q.history|
      ensures Has(q.got, q.history, k) <==> InTime(batches, maxEvents, k)
    {
      InTimePrefix(batches, maxEvents, k);
    }
  }

  /** Appending the tail of a longer history to genuine events of a shorter one. */
  lemma AppendStretch<C>(got: seq<Event<C>>, h: seq<C>, all: seq<C>, lo: nat)
    requires Genuine(got, h) && h <= all && |h| <= lo <= |all|
    ensures Genuine(got + EventsOf(all)[lo..], all)
    ensures forall k :: 1 <= k <= |all| ==>
      (Has(got + EventsOf(all)[lo..], all, k) <==> Has(got, h, k) || k > lo)
  {
    var tail := EventsOf(all)[lo..];
    forall k | 1 <= k <= |all| ensures Has(got + tail, all, k) <==> Has(got, h, k) || k > lo
    {
      if k > lo {
        assert tail[k - 1 - lo] == Event(k, all[k - 1]);
        assert Event(k, all[k - 1]) in got + tail;
      }
    }
  }

  lemma EarlierBatch<C>(batches: seq<seq<C>>, maxEvents: nat, i: nat, k: nat)
    requires i + 1 < |batches|
    ensures InTimeAt(batches[..|batches| - 1], maxEvents, i, k) <==> InTimeAt(batches, maxEvents, i, k)
  {
    var init := batches[..|batches| - 1];
    assert init[..i] == batches[..i] && init[..i + 1] == batches[..i + 1];
  }

  /** Being in time is settled by the batch that contains the event. */
  lemma InTimePrefix<C>(batches: seq<seq<C>>, maxEvents: nat, k: nat)
    requires batches != [] && 1 <= k <= |Concat(batches)|
    ensures var init := batches[..|batches| - 1];
      InTime(batches, maxEvents, k) <==>
        if k <= |Concat(init)| then InTime(init, maxEvents, k)
        else k > Evicted(|Concat(batches)|, maxEvents)
  {
    var n := |batches| - 1;
    var init := batches[..n];
    assert batches[..n + 1] == batches;
    if k <= |Concat(init)| {
      assert !InTimeAt(batches, maxEvents, n, k);
      forall i | 0 <= i < n ensures InTimeAt(init, maxEvents, i, k) <==> InTimeAt(batches, maxEvents, i, k) {
        EarlierBatch(batches, maxEvents, i, k);
      }
    } else {
      forall i | 0 <= i < n ensures !InTimeAt(batches, maxEvents, i, k) {
        ConcatGrows(batches, i + 1, n);
      }
      assert InTimeAt(batches, maxEvents, n, k) <==> k > Evicted(|Concat(batches)|, maxEvents);
    }
  }

  lemma {:induction false} ConcatGrows<C>(batches: seq<seq<C>>, i: nat, j: nat)
    requires i <= j <= |batches|
    ensures |Concat(batches[..i])| <= |Concat(batches[..j])|
  {
    if i < j {
      ConcatGrows(batches, i, j - 1);
      assert batches[..j][..j - 1] == batches[..j - 1];
    }
  }

  /** Polling rebuilds the whole history if and only if no more than max(1, max_events)
      events were pushed between two polls. */
  lemma {:induction false} PollingIsLosslessIff<C>(batches: seq<seq<C>>, maxEvents: nat)
    ensures PollAll(batches, maxEvents).got == EventsOf(Concat(batches))
       <==> forall b :: b in batches ==> |b| <= Max(1, maxEvents)
  {
    if batches != [] {
      var n := |batches| - 1;
      var init, last := batches[..n], batches[n];
      assert init + [last] == batches;
      PollingIsLosslessIff(init, maxEvents);
      PollerKeepsUp(init, maxEvents);
      PollerKeepsUp(batches, maxEvents);
      PollResponse(init, last, maxEvents);
      PollGotBounded(init, maxEvents);
      LosslessStep(PollAll(init, maxEvents).got, PollAll(batches, maxEvents).got,
                   Concat(init), Concat(batches), |last|, maxEvents);
      assert forall b :: b in batches <==> b in init || b == last;
    }
  }

  /** One more poll: nothing is missing iff nothing was missing and nothing is evicted now. */
  lemma LosslessStep<C>(got: seq<Event<C>>, more: seq<Event<C>>, h: seq<C>, all: seq<C>, pushed: nat, maxEvents: nat)
    requires h <= all && |all| == |h| + pushed && |got| <= |h|
    requires more == got + EventsOf(all)[Max(|h|, Evicted(|all|, maxEvents))..]
    ensures more == EventsOf(all) <==> got == EventsOf(h) && pushed <= Max(1, maxEvents)
  {
    assert EventsOf(all) == EventsOf(h) + EventsOf(all)[|h|..];
    if more == EventsOf(all) {
      assert |got| == |h|;
      assert got == more[..|h|] == EventsOf(h);
    }
  }

  lemma {:induction false} PollGotBounded<C>(batches: seq<seq<C>>, maxEvents: nat)
    ensures |PollAll(batches, maxEvents).got| <= |Concat(batches)|
  {
    if batches != [] {
      var n := |batches| - 1;
      assert batches[..n] + [batches[n]] == batches;
      PollGotBounded(batches[..n], maxEvents);
      PollerKeepsUp(batches[..n], maxEvents);
      PollerKeepsUp(batches, maxEvents);
      PollResponse(batches[..n], batches[n], maxEvents);
    }
  }
}
