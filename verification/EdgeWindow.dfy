/** Transmission statistics of one edge (crates/graph/src/edge_window.rs). */
module EdgeWindow {
  import opened Prelude

  /** One recorded transmission. */
  datatype Transmit = Transmit(depth: nat, bytes: nat)

  datatype Summary = Summary(count: nat, maxDepth: nat, depthSum: nat, bytes: nat)

  /** `window` numbers the window that raised the alarm. */
  datatype Alarm = Alarm(window: nat, depth: nat, dropped: nat)

  /** EDGE_WINDOW_DURATION in milliseconds. */
  const WINDOW_MS := 100

  function DepthOf(): Transmit -> nat { (t: Transmit) => t.depth }

  function BytesOf(): Transmit -> nat { (t: Transmit) => t.bytes }

  function MaxDepth(ts: seq<Transmit>): nat {
    if ts == [] then 0 else Max(MaxDepth(ts[..|ts| - 1]), ts[|ts| - 1].depth)
  }

  function SummaryOf(ts: seq<Transmit>): Summary {
    Summary(|ts|, MaxDepth(ts), SumBy(DepthOf(), ts), SumBy(BytesOf(), ts))
  }

  /** At least 80% full. */
  predicate Hot(capacity: nat, depth: nat) {
    capacity > 0 && depth * 10 >= capacity * 8
  }

  /** In integers, the test for 80% is exact. */
  lemma {:induction false} HotIff(capacity: nat, depth: nat)
    ensures Hot(capacity, depth) <==> capacity > 0 && depth as real / capacity as real >= 0.8
  {
    if capacity > 0 {
      var d, c := depth as real, capacity as real;
      assert d / c * c == d;
      if Hot(capacity, depth) {
        assert d >= 0.8 * c;
        QuotientAtLeast(d, c);
      }
    }
  }

  lemma {:induction false} QuotientAtLeast(d: real, c: real)
    requires c > 0.0 && d >= 0.8 * c
    ensures d / c >= 0.8
  {
    assert d / c * c == d;
  }

  predicate HotWindow(capacity: nat, ts: seq<Transmit>) {
    exists i :: 0 <= i < |ts| && Hot(capacity, ts[i].depth)
  }

  function AlarmsOf(alarms: seq<Alarm>, window: nat): nat {
    SumBy(RaisedIn(window), alarms)
  }

  function RaisedIn(window: nat): Alarm -> nat {
    (a: Alarm) => if a.window == window then 1 else 0
  }

  function Concat(windows: seq<seq<Transmit>>): seq<Transmit> {
    if windows == [] then [] else Concat(windows[..|windows| - 1]) + windows[|windows| - 1]
  }

  function CountOf(): Summary -> nat { (s: Summary) => s.count }

  function SummaryBytes(): Summary -> nat { (s: Summary) => s.bytes }

  lemma {:induction false} SumByAppend<T>(f: T -> nat, xs: seq<T>, ys: seq<T>)
    ensures SumBy(f, xs + ys) == SumBy(f, xs) + SumBy(f, ys)
  {
    if xs == [] {
      assert xs + ys == ys;
    } else {
      assert (xs + ys)[1..] == xs[1..] + ys;
      SumByAppend(f, xs[1..], ys);
    }
  }

  lemma {:induction false} SummaryOfNext(ts: seq<Transmit>, t: Transmit)
    ensures SummaryOf(ts + [t]) ==
            var s := SummaryOf(ts);
            Summary(s.count + 1, Max(s.maxDepth, t.depth), s.depthSum + t.depth, s.bytes + t.bytes)
  {
    assert (ts + [t])[..|ts|] == ts;
    SumByAppend(DepthOf(), ts, [t]);
    SumByAppend(BytesOf(), ts, [t]);
  }

  /** The average queue depth a summary reports never exceeds its maximum. */
  lemma {:induction false} AverageBelowMax(ts: seq<Transmit>)
    requires ts != []
    ensures SummaryOf(ts).depthSum as real / SummaryOf(ts).count as real <= SummaryOf(ts).maxDepth as real
  {
    SumBelowMax(ts);
    var s := SummaryOf(ts);
    DivideSum(s.depthSum, s.count, s.maxDepth);
  }

  lemma {:induction false} DivideSum(sum: nat, count: nat, max: nat)
    requires count > 0 && sum <= count * max
    ensures sum as real / count as real <= max as real
  {
    var c, m := count as real, max as real;
    assert (count * max) as real == c * m;
    assert sum as real <= c * m;
    DivideBy(sum as real, c, m);
  }

  lemma {:induction false} DivideBy(x: real, c: real, m: real)
    requires c > 0.0 && x <= c * m
    ensures x / c <= m
  {
    assert x / c * c == x;
  }

  lemma {:induction false} SumBelowMax(ts: seq<Transmit>)
    ensures SumBy(DepthOf(), ts) <= |ts| * MaxDepth(ts)
  {
    if ts != [] {
      var front := ts[..|ts| - 1];
      assert ts == front + [ts[|ts| - 1]];
      SummaryOfNext(front, ts[|ts| - 1]);
      SumBelowMax(front);
      MulMonotone(|front|, MaxDepth(front), MaxDepth(ts));
    }
  }

  lemma {:induction false} MulMonotone(n: nat, a: nat, b: nat)
    requires a <= b
    ensures n * a <= n * b && (n + 1) * b == n * b + b
  {
  }

  /** Nothing recorded is lost: the summaries and the open window add up to everything recorded. */
  lemma {:induction false} TotalsConserved(windows: seq<seq<Transmit>>, current: seq<Transmit>, summaries: seq<Summary>)
    requires |summaries| == |windows| && forall i :: 0 <= i < |windows| ==> summaries[i] == SummaryOf(windows[i])
    ensures SumBy(CountOf(), summaries) + |current| == |Concat(windows) + current|
    ensures SumBy(SummaryBytes(), summaries) + SumBy(BytesOf(), current) == SumBy(BytesOf(), Concat(windows) + current)
  {
    SumByAppend(BytesOf(), Concat(windows), current);
    if windows != [] {
      var n := |windows| - 1;
      TotalsConserved(windows[..n], [], summaries[..n]);
      assert summaries == summaries[..n] + [summaries[n]];
      SumByAppend(CountOf(), summaries[..n], [summaries[n]]);
      SumByAppend(SummaryBytes(), summaries[..n], [summaries[n]]);
      SumByAppend(BytesOf(), Concat(windows[..n]), windows[n]);
      assert Concat(windows[..n]) + [] == Concat(windows[..n]);
    }
  }

  /**
   Every summary is the summary of the transmissions of its window, and every window, flushed or open, has raised
   one alarm if a record in it reached 80% of a positive capacity, and none otherwise.
   */
  ghost predicate Consistent(capacity: nat, open: Summary, reported: bool, summaries: seq<Summary>, alarms: seq<Alarm>,
                             flushed: seq<seq<Transmit>>, current: seq<Transmit>)
  {
    && open == SummaryOf(current)
    && |summaries| == |flushed|
    && (forall i :: 0 <= i < |flushed| ==> flushed[i] != [] && summaries[i] == SummaryOf(flushed[i]))
    && (reported <==> HotWindow(capacity, current))
    && (forall i :: 0 <= i < |flushed| ==> AlarmsOf(alarms, i) == if HotWindow(capacity, flushed[i]) then 1 else 0)
    && AlarmsOf(alarms, |flushed|) == (if HotWindow(capacity, current) then 1 else 0)
    && (forall i :: 0 <= i < |alarms| ==> alarms[i].window <= |flushed|)
  }

  /** The alarm a record raises: the first record of a window to reach 80%. */
  function Raised(capacity: nat, reported: bool, window: nat, t: Transmit, dropped: nat): seq<Alarm> {
    if !reported && Hot(capacity, t.depth) then [Alarm(window, t.depth, dropped)] else []
  }

  lemma {:induction false} RecordKeeps(capacity: nat, open: Summary, reported: bool, summaries: seq<Summary>,
                                       alarms: seq<Alarm>, flushed: seq<seq<Transmit>>, current: seq<Transmit>,
                                       t: Transmit, dropped: nat)
    requires Consistent(capacity, open, reported, summaries, alarms, flushed, current)
    ensures Consistent(capacity,
                       Summary(open.count + 1, Max(open.maxDepth, t.depth), open.depthSum + t.depth, open.bytes + t.bytes),
                       reported || Hot(capacity, t.depth), summaries,
                       alarms + Raised(capacity, reported, |flushed|, t, dropped), flushed, current + [t])
  {
    SummaryOfNext(current, t);
    HotNext(capacity, current, t);
    var raised := Raised(capacity, reported, |flushed|, t, dropped);
    forall i ensures AlarmsOf(alarms + raised, i) == AlarmsOf(alarms, i) + if raised != [] && i == |flushed| then 1 else 0 {
      SumByAppend(RaisedIn(i), alarms, raised);
    }
  }

  lemma {:induction false} HotNext(capacity: nat, ts: seq<Transmit>, t: Transmit)
    ensures HotWindow(capacity, ts + [t]) <==> HotWindow(capacity, ts) || Hot(capacity, t.depth)
  {
    assert (ts + [t])[|ts|] == t;
    assert forall i :: 0 <= i < |ts| ==> (ts + [t])[i] == ts[i];
  }

  lemma {:induction false} FlushKeeps(capacity: nat, open: Summary, reported: bool, summaries: seq<Summary>,
                                      alarms: seq<Alarm>, flushed: seq<seq<Transmit>>, current: seq<Transmit>)
    requires Consistent(capacity, open, reported, summaries, alarms, flushed, current) && current != []
    ensures Consistent(capacity, Summary(0, 0, 0, 0), false, summaries + [open], alarms, flushed + [current], [])
  {
    AlarmsOnlySoFar(alarms, |flushed| + 1);
  }

  class EdgeWindow {
    const capacity: nat
    var transmitCount: nat
    var maxQueueDepth: nat
    var queueDepthSum: nat
    var totalPayloadBytes: nat
    var windowStart: int
    var backpressureReported: bool
    var droppedInWindow: nat
    /** Events sent so far. */
    var summaries: seq<Summary>
    var alarms: seq<Alarm>
    /** What was recorded: the flushed windows and the open one. */
    ghost var flushed: seq<seq<Transmit>>
    ghost var current: seq<Transmit>

    ghost predicate Valid()
      reads this
    {
      Consistent(capacity, Summary(transmitCount, maxQueueDepth, queueDepthSum, totalPayloadBytes), backpressureReported,
                 summaries, alarms, flushed, current)
    }

    constructor (capacity: nat, now: int)
      ensures Valid() && current == [] && flushed == [] && this.capacity == capacity
    {
      this.capacity := capacity;
      transmitCount, maxQueueDepth, queueDepthSum, totalPayloadBytes := 0, 0, 0, 0;
      windowStart, backpressureReported, droppedInWindow := now, false, 0;
      summaries, alarms := [], [];
      flushed, current := [], [];
    }

    method Record(queueDepth: nat, payloadBytes: nat)
      requires Valid()
      modifies this
      ensures Valid()
      ensures flushed == old(flushed) && current == old(current) + [Transmit(queueDepth, payloadBytes)]
      ensures summaries == old(summaries) && droppedInWindow == old(droppedInWindow) && windowStart == old(windowStart)
      ensures alarms == old(alarms) + Raised(capacity, HotWindow(capacity, old(current)), |old(flushed)|,
                                             Transmit(queueDepth, payloadBytes), old(droppedInWindow))
    {
      RecordKeeps(capacity, Summary(transmitCount, maxQueueDepth, queueDepthSum, totalPayloadBytes), backpressureReported,
                  summaries, alarms, flushed, current, Transmit(queueDepth, payloadBytes), droppedInWindow);
      transmitCount := transmitCount + 1;
      maxQueueDepth := Max(maxQueueDepth, queueDepth);
      queueDepthSum := queueDepthSum + queueDepth;
      totalPayloadBytes := totalPayloadBytes + payloadBytes;
      current := current + [Transmit(queueDepth, payloadBytes)];
      if !backpressureReported && capacity > 0 && queueDepth * 10 >= capacity * 8 {
        alarms := alarms + [Alarm(|summaries|, queueDepth, droppedInWindow)];
        backpressureReported := true;
      }
    }

    method RecordDrop()
      requires Valid()
      modifies this`droppedInWindow
      ensures Valid() && droppedInWindow == old(droppedInWindow) + 1
    {
      droppedInWindow := droppedInWindow + 1;
    }

    method FlushIfReady(now: int)
      requires Valid()
      modifies this
      ensures Valid() && alarms == old(alarms)
      ensures if old(current) == [] || now - old(windowStart) < WINDOW_MS
              then flushed == old(flushed) && current == old(current) && droppedInWindow == old(droppedInWindow)
              else flushed == old(flushed) + [old(current)] && current == [] && droppedInWindow == 0 && windowStart == now
    {
      if transmitCount == 0 || now - windowStart < WINDOW_MS {
        return;
      }
      DoFlush(now);
    }

    /** At the end of the loop nothing is pending. */
    method ForceFlush(now: int)
      requires Valid()
      modifies this
      ensures Valid() && alarms == old(alarms)
      ensures current == [] && flushed == old(flushed) + if old(current) == [] then [] else [old(current)]
    {
      if transmitCount == 0 {
        return;
      }
      DoFlush(now);
    }

    method DoFlush(now: int)
      requires Valid() && current != []
      modifies this
      ensures Valid() && alarms == old(alarms)
      ensures flushed == old(flushed) + [old(current)] && current == []
      ensures droppedInWindow == 0 && windowStart == now
    {
      FlushKeeps(capacity, Summary(transmitCount, maxQueueDepth, queueDepthSum, totalPayloadBytes), backpressureReported,
                 summaries, alarms, flushed, current);
      summaries := summaries + [Summary(transmitCount, maxQueueDepth, queueDepthSum, totalPayloadBytes)];
      transmitCount, maxQueueDepth, queueDepthSum, totalPayloadBytes := 0, 0, 0, 0;
      backpressureReported := false;
      droppedInWindow := 0;
      windowStart := now;
      flushed, current := flushed + [current], [];
    }
  }

  lemma {:induction false} AlarmsOnlySoFar(alarms: seq<Alarm>, window: nat)
    requires forall i :: 0 <= i < |alarms| ==> alarms[i].window < window
    ensures AlarmsOf(alarms, window) == 0
  {
    SumByZero(RaisedIn(window), alarms);
  }
}
