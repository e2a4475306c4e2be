/**
 One dispatch lane: concurrent producers, a bounded queue, one consumer that retries and dead-letters
 (src-tauri/src/runtime.rs). Every step is one atomic action; delivery results are nondeterministic.
 */
module DispatchLane {
  import opened Prelude
  import Policy

  type Envelope = nat

  datatype Strategy = Block | RejectNewest

  /** The consumer's hand: an envelope just received, or under delivery with failed attempts and tries so far. */
  datatype Hand = Empty | Taken(e: Envelope) | Trying(e: Envelope, attempts: nat, tries: nat)

  /** What became of an envelope: delivered or dead-lettered after so many tries. */
  datatype Fate = Fate(e: Envelope, delivered: bool, tries: nat)

  datatype Lane = Lane(
    strategy: Strategy,
    capacity: nat,
    maxRetryAttempts: nat,
    queue: seq<Envelope>,
    closed: bool,
    hand: Hand,
    raised: multiset<Envelope>,   // Block producers that incremented the depth and have not sent yet
    settling: nat,                // RejectNewest producers that sent and have not incremented the depth yet
    confirming: nat,              // producers that have not incremented `accepted` yet
    depth: nat,
    accepted: nat,
    retried: nat,
    deadLettered: nat,
    // what has happened so far
    submitted: nat,
    sent: seq<Envelope>,
    rejected: nat,
    closedErrors: nat,
    done: seq<Fate>,
    clamped: nat)                 // decrements that found the depth at zero

  datatype Step = Submit(e: Envelope) | SendBlocked(e: Envelope) | Settle | Confirm | Recv | Decrement | Try(ok: bool) | Close

  predicate Enabled(l: Lane, step: Step) {
    match step
    case Submit(_) => true
    case SendBlocked(e) => e in l.raised && (l.closed || |l.queue| < l.capacity)
    case Settle => l.settling > 0
    case Confirm => l.confirming > 0
    case Recv => l.hand == Empty && l.queue != [] && !l.closed
    case Decrement => l.hand.Taken? && !l.closed
    case Try(_) => l.hand.Trying? && !l.closed
    case Close => true
  }

  function Do(l: Lane, step: Step): Lane
    requires Enabled(l, step)
  {
    match step
    case Submit(e) =>
      var s := l.(submitted := l.submitted + 1);
      if l.strategy == Block then s.(depth := l.depth + 1, raised := l.raised + multiset{e})
      else if l.closed then s.(closedErrors := l.closedErrors + 1)
      else if |l.queue| < l.capacity then s.(queue := l.queue + [e], sent := l.sent + [e], settling := l.settling + 1)
      else s.(deadLettered := l.deadLettered + 1, rejected := l.rejected + 1)
    case SendBlocked(e) =>
      var s := l.(raised := l.raised - multiset{e});
      if l.closed then s.(depth := if l.depth == 0 then USIZE_RANGE - 1 else l.depth - 1, closedErrors := l.closedErrors + 1)
      else s.(queue := l.queue + [e], sent := l.sent + [e], confirming := l.confirming + 1)
    case Settle => l.(settling := l.settling - 1, depth := l.depth + 1, confirming := l.confirming + 1)
    case Confirm => l.(confirming := l.confirming - 1, accepted := l.accepted + 1)
    case Recv => l.(queue := l.queue[1..], hand := Taken(l.queue[0]))
    case Decrement =>
      l.(hand := Trying(l.hand.e, 0, 0),
         depth := if l.depth > 0 then l.depth - 1 else 0,
         clamped := if l.depth > 0 then l.clamped else l.clamped + 1)
    case Try(ok) =>
      var e, attempts, tries := l.hand.e, l.hand.attempts, l.hand.tries + 1;
      if ok then l.(hand := Empty, done := l.done + [Fate(e, true, tries)])
      else if attempts < l.maxRetryAttempts then l.(hand := Trying(e, attempts + 1, tries), retried := l.retried + 1)
      else l.(hand := Empty, done := l.done + [Fate(e, false, tries)], deadLettered := l.deadLettered + 1)
    case Close => l.(closed := true)
  }

  // ---- Invariant ----

  function InHand(h: Hand): seq<Envelope> {
    if h == Empty then [] else [h.e]
  }

  function Envelopes(done: seq<Fate>): seq<Envelope> {
    if done == [] then [] else Envelopes(done[..|done| - 1]) + [done[|done| - 1].e]
  }

  function DeadCount(done: seq<Fate>): nat {
    if done == [] then 0 else DeadCount(done[..|done| - 1]) + if done[|done| - 1].delivered then 0 else 1
  }

  /** Tries beyond the first. */
  function ExtraTries(done: seq<Fate>): int {
    if done == [] then 0 else ExtraTries(done[..|done| - 1]) + done[|done| - 1].tries - 1
  }

  /** The depth counts queued messages, announced sends and one received message, less what is still to be counted. */
  predicate DepthExact(l: Lane) {
    l.depth + l.settling == |l.queue| + |l.raised| + (if l.hand.Taken? then 1 else 0) + l.clamped
  }

  predicate BlockNeverClamps(l: Lane) {
    if l.strategy == Block then l.settling == 0 && l.clamped == 0 else l.raised == multiset{}
  }

  /** First in, first out, nothing lost and nothing twice. */
  predicate Fifo(l: Lane) {
    l.sent == Envelopes(l.done) + InHand(l.hand) + l.queue
  }

  predicate Conserved(l: Lane) {
    && l.submitted == |l.sent| + l.rejected + l.closedErrors + |l.raised|
    && l.deadLettered == l.rejected + DeadCount(l.done)
    && l.accepted + l.confirming + l.settling == |l.sent|
  }

  predicate TriesOk(l: Lane) {
    && (forall i :: 0 <= i < |l.done| ==>
          if l.done[i].delivered then 1 <= l.done[i].tries <= l.maxRetryAttempts + 1
          else l.done[i].tries == l.maxRetryAttempts + 1)
    && (l.hand.Trying? ==> l.hand.tries == l.hand.attempts <= l.maxRetryAttempts)
    && l.retried == ExtraTries(l.done) + if l.hand.Trying? then l.hand.attempts else 0
  }

  predicate Inv(l: Lane) {
    DepthExact(l) && BlockNeverClamps(l) && Fifo(l) && Conserved(l) && TriesOk(l)
  }

  predicate Init(l: Lane) {
    l == Lane(l.strategy, l.capacity, l.maxRetryAttempts, [], false, Empty, multiset{}, 0, 0, 0, 0, 0, 0, 0, [], 0, 0, [], 0)
  }

  lemma {:induction false} FatesGrow(done: seq<Fate>, f: Fate)
    ensures Envelopes(done + [f]) == Envelopes(done) + [f.e]
    ensures DeadCount(done + [f]) == DeadCount(done) + if f.delivered then 0 else 1
    ensures ExtraTries(done + [f]) == ExtraTries(done) + f.tries - 1
  {
    assert (done + [f])[..|done|] == done;
  }

  // Each part of the invariant is kept by every step.

  lemma {:induction false} DepthKept(l: Lane, step: Step)
    requires DepthExact(l) && BlockNeverClamps(l) && Enabled(l, step)
    ensures DepthExact(Do(l, step)) && BlockNeverClamps(Do(l, step))
  {
    if step.SendBlocked? {
      OneLess(l.raised, step.e);
    }
  }

  lemma {:induction false} OneLess(m: multiset<Envelope>, e: Envelope)
    requires e in m
    ensures |m| == |m - multiset{e}| + 1
  {
    assert m == m - multiset{e} + multiset{e};
  }

  lemma {:induction false} FifoKept(l: Lane, step: Step)
    requires Fifo(l) && Enabled(l, step) && !step.Try?
    ensures Fifo(Do(l, step))
  {
    if step.Recv? {
      assert l.queue == [l.queue[0]] + l.queue[1..];
    }
  }

  lemma {:induction false} ConservedKept(l: Lane, step: Step)
    requires Conserved(l) && BlockNeverClamps(l) && Enabled(l, step) && !step.Try?
    ensures Conserved(Do(l, step))
  {
    if step.SendBlocked? {
      OneLess(l.raised, step.e);
    }
  }

  lemma {:induction false} TriesKept(l: Lane, step: Step)
    requires TriesOk(l) && Enabled(l, step) && !step.Try?
    ensures TriesOk(Do(l, step))
  {
  }

  /** A try that fails with attempts left changes nothing but the tries. */
  lemma {:induction false} RetryKeeps(l: Lane, step: Step)
    requires Fifo(l) && Conserved(l) && TriesOk(l) && step.Try? && Enabled(l, step)
    requires !step.ok && l.hand.attempts < l.maxRetryAttempts
    ensures Fifo(Do(l, step)) && Conserved(Do(l, step)) && TriesOk(Do(l, step))
  {
    assert InHand(Do(l, step).hand) == InHand(l.hand);
  }

  /** The last try seals the envelope's fate. */
  lemma {:induction false} SealKeepsOrder(l: Lane, f: Fate)
    requires Fifo(l) && l.hand.Trying? && f.e == l.hand.e
    ensures Fifo(l.(hand := Empty, done := l.done + [f]))
  {
    FatesGrow(l.done, f);
    assert Envelopes(l.done) + [f.e] + l.queue == Envelopes(l.done + [f]) + [] + l.queue;
  }

  lemma {:induction false} SealKeepsCounts(l: Lane, f: Fate)
    requires Conserved(l) && TriesOk(l) && l.hand.Trying? && f.tries == l.hand.tries + 1
    requires !f.delivered ==> l.hand.attempts == l.maxRetryAttempts
    ensures var l' := l.(hand := Empty, done := l.done + [f], deadLettered := l.deadLettered + if f.delivered then 0 else 1);
            Conserved(l') && TriesOk(l')
  {
    FatesGrow(l.done, f);
  }

  lemma {:induction false} LastTryKeeps(l: Lane, step: Step)
    requires Fifo(l) && Conserved(l) && TriesOk(l) && step.Try? && Enabled(l, step)
    requires step.ok || l.hand.attempts >= l.maxRetryAttempts
    ensures Fifo(Do(l, step)) && Conserved(Do(l, step)) && TriesOk(Do(l, step))
  {
    var f := Fate(l.hand.e, step.ok, l.hand.tries + 1);
    var order := l.(hand := Empty, done := l.done + [f]);
    SealKeepsOrder(l, f);
    SealKeepsCounts(l, f);
    assert Do(l, step) == order.(deadLettered := l.deadLettered + if f.delivered then 0 else 1);
  }

  lemma {:induction false} TryKeeps(l: Lane, step: Step)
    requires Fifo(l) && Conserved(l) && TriesOk(l) && step.Try? && Enabled(l, step)
    ensures Fifo(Do(l, step)) && Conserved(Do(l, step)) && TriesOk(Do(l, step))
  {
    if !step.ok && l.hand.attempts < l.maxRetryAttempts {
      RetryKeeps(l, step);
    } else {
      LastTryKeeps(l, step);
    }
  }

  lemma {:induction false} StepKeeps(l: Lane, step: Step)
    requires Inv(l) && Enabled(l, step)
    ensures Inv(Do(l, step))
  {
    DepthKept(l, step);
    if step.Try? {
      TryKeeps(l, step);
    } else {
      FifoKept(l, step);
      ConservedKept(l, step);
      TriesKept(l, step);
    }
  }

  ghost predicate IsRun(lanes: seq<Lane>, steps: seq<Step>) {
    && |lanes| == |steps| + 1 && Init(lanes[0])
    && forall i :: 0 <= i < |steps| ==> Enabled(lanes[i], steps[i]) && lanes[i + 1] == Do(lanes[i], steps[i])
  }

  lemma {:induction false} RunsKeep(lanes: seq<Lane>, steps: seq<Step>, k: nat)
    requires IsRun(lanes, steps) && k < |lanes|
    ensures Inv(lanes[k])
  {
    if k > 0 {
      RunsKeep(lanes, steps, k - 1);
      StepKeeps(lanes[k - 1], steps[k - 1]);
    }
  }

  /** RejectNewest refuses an envelope iff the queue is full, and dead-letters exactly those; otherwise it is queued last. */
  lemma {:induction false} RejectsOnlyWhenFull(l: Lane, e: Envelope)
    requires l.strategy == RejectNewest && !l.closed
    ensures var l' := Do(l, Submit(e));
            if |l.queue| >= l.capacity then l'.queue == l.queue && l'.rejected == l.rejected + 1 && l'.deadLettered == l.deadLettered + 1
            else l'.queue == l.queue + [e] && l'.rejected == l.rejected && l'.deadLettered == l.deadLettered
  {
  }

  /** Block never refuses: an envelope waits for room, and only a closed channel turns it away. */
  lemma {:induction false} BlockNeverRejects(l: Lane, step: Step)
    requires l.strategy == Block && Enabled(l, step)
    ensures Do(l, step).rejected == l.rejected
    ensures Do(l, step).closedErrors == l.closedErrors + if step.SendBlocked? && l.closed then 1 else 0
    ensures step.SendBlocked? && !l.closed ==> |l.queue| < l.capacity && Do(l, step).queue == l.queue + [step.e]
  {
  }

  /** The queue never exceeds its capacity. */
  lemma {:induction false} QueueFits(lanes: seq<Lane>, steps: seq<Step>, k: nat)
    requires IsRun(lanes, steps) && k < |lanes|
    ensures |lanes[k].queue| <= lanes[k].capacity
  {
    if k > 0 {
      QueueFits(lanes, steps, k - 1);
      QueueFitsNext(lanes[k - 1], steps[k - 1], lanes[k]);
    }
  }

  lemma {:induction false} QueueFitsNext(l: Lane, step: Step, l': Lane)
    requires Enabled(l, step) && l' == Do(l, step) && |l.queue| <= l.capacity
    ensures |l'.queue| <= l'.capacity
  {
  }

  /**
   With Block the reported depth is exact at any moment. With RejectNewest it never under-reports once the pending
   increments are added; when none is pending it is too high by one for every decrement that found it at zero.
   */
  lemma {:induction false} DepthReport(lanes: seq<Lane>, steps: seq<Step>, k: nat)
    requires IsRun(lanes, steps) && k < |lanes|
    ensures var l := lanes[k];
            var received := if l.hand.Taken? then 1 else 0;
            && (l.strategy == Block ==> l.depth == |l.queue| + |l.raised| + received)
            && l.depth + l.settling >= |l.queue| + received
            && (l.settling == 0 && l.raised == multiset{} ==> l.depth == |l.queue| + received + l.clamped)
  {
    RunsKeep(lanes, steps, k);
  }

  /** With Block the zero clamp of the decrement is never reached, nor does a failed send wrap the counter. */
  lemma {:induction false} BlockCounterStaysPositive(lanes: seq<Lane>, steps: seq<Step>, k: nat)
    requires IsRun(lanes, steps) && k < |steps|
    ensures steps[k] == Decrement && lanes[k].strategy == Block ==> lanes[k].depth > 0
    ensures steps[k].SendBlocked? ==> lanes[k].depth > 0
  {
    RunsKeep(lanes, steps, k);
    if steps[k].SendBlocked? {
      assert |lanes[k].raised| >= 1 by {
        assert lanes[k].raised == lanes[k].raised - multiset{steps[k].e} + multiset{steps[k].e};
      }
    }
  }

  /** Every submission is delivered, dead-lettered, refused by a closed channel, or still queued. */
  lemma {:induction false} QuiescentConservation(lanes: seq<Lane>, steps: seq<Step>, k: nat)
    requires IsRun(lanes, steps) && k < |lanes|
    requires lanes[k].hand == Empty && lanes[k].raised == multiset{}
    ensures var l := lanes[k];
            && l.submitted == (|l.done| - DeadCount(l.done)) + l.deadLettered + l.closedErrors + |l.queue|
            && Envelopes(l.done) + l.queue == l.sent
  {
    RunsKeep(lanes, steps, k);
    FatesCount(lanes[k].done);
  }

  lemma {:induction false} FatesCount(done: seq<Fate>)
    ensures |Envelopes(done)| == |done|
  {
    if done != [] {
      FatesCount(done[..|done| - 1]);
    }
  }

  /** A dead letter was tried exactly max_retry_attempts + 1 times, and `retried` counts every further try once. */
  lemma {:induction false} DeadLettersAreExhausted(lanes: seq<Lane>, steps: seq<Step>, k: nat, i: nat)
    requires IsRun(lanes, steps) && k < |lanes| && i < |lanes[k].done|
    ensures !lanes[k].done[i].delivered ==> lanes[k].done[i].tries == lanes[k].maxRetryAttempts + 1
    ensures lanes[k].done[i].delivered ==> lanes[k].done[i].tries <= lanes[k].maxRetryAttempts + 1
    ensures lanes[k].hand == Empty ==> lanes[k].retried == ExtraTries(lanes[k].done)
  {
    RunsKeep(lanes, steps, k);
  }

  /** With RejectNewest the consumer can overtake the increment: the lane is empty and reports one message. */
  lemma {:induction false} DepthDrifts()
    ensures var l := Lane(RejectNewest, 1, 0, [], false, Empty, multiset{}, 0, 0, 0, 0, 0, 0, 0, [], 0, 0, [], 0);
            var a := Do(l, Submit(7));
            && Init(l) && Enabled(a, Recv)
            && var b := Do(a, Recv);
            && Enabled(b, Decrement)
            && var c := Do(b, Decrement);
            && Enabled(c, Settle)
            && var d := Do(c, Settle);
            && d.queue == [] && d.depth == 1 && d.clamped == 1 && d.settling == 0
  {
  }

  // ---- The retry loop ----

  /** One envelope through the delivery loop; `deliver(n)` is the result of the n-th attempt, counted from 0. */
  method Deliver(deliver: nat -> bool, maxRetryAttempts: nat) returns (delivered: bool, attempts: nat, tries: nat, retried: nat)
    ensures delivered <==> exists n :: 0 <= n <= maxRetryAttempts && deliver(n)
    ensures tries == attempts + 1 && retried == attempts <= maxRetryAttempts
    ensures forall n :: 0 <= n < tries - 1 ==> !deliver(n)
    ensures if delivered then deliver(tries - 1) else tries == maxRetryAttempts + 1
  {
    attempts, tries, retried := 0, 0, 0;
    while true
      invariant attempts == tries == retried <= maxRetryAttempts
      invariant forall n :: 0 <= n < tries ==> !deliver(n)
      decreases maxRetryAttempts - attempts
    {
      var ok := deliver(tries);
      tries := tries + 1;
      if ok {
        return true, attempts, tries, retried;
      }
      if attempts >= maxRetryAttempts {
        return false, attempts, tries, retried;
      }
      attempts := attempts + 1;
      retried := retried + 1;
    }
  }

  // ---- Backoff ----

  function SaturatingPow2(n: nat): nat {
    Min(Policy.Pow2(n), U64_MAX)
  }

  function Clamp(x: nat, low: nat, high: nat): nat
    requires low <= high
  {
    if x < low then low else if x > high then high else x
  }

  function RetryBackoffMs(initial: nat, max: nat, attempt: nat): nat {
    Clamp(Policy.SaturatingMul(initial, SaturatingPow2(Max(attempt - 1, 0))), initial, Max(max, initial))
  }

  /** The saturating computation equals initial * 2^(attempt - 1), capped by the larger of the two limits. */
  lemma {:induction false} BackoffIsUnbounded(initial: nat, max: nat, attempt: nat)
    requires initial <= U64_MAX && max <= U64_MAX
    ensures RetryBackoffMs(initial, max, attempt) == Min(initial * Policy.Pow2(Max(attempt - 1, 0)), Max(max, initial))
  {
    var p := Policy.Pow2(Max(attempt - 1, 0));
    Policy.MulMonotone(initial, 1, p);
    if p > U64_MAX && initial > 0 {
      Policy.MulMonotone(p, 1, initial);
      Policy.MulMonotone(U64_MAX, 1, initial);
    }
  }

  lemma {:induction false} BackoffIsMonotone(initial: nat, max: nat, a: nat, b: nat)
    requires initial <= U64_MAX && max <= U64_MAX && a <= b
    ensures initial <= RetryBackoffMs(initial, max, a) <= RetryBackoffMs(initial, max, b) <= Max(max, initial)
  {
    BackoffIsUnbounded(initial, max, a);
    BackoffIsUnbounded(initial, max, b);
    Policy.Pow2Monotone(Max(a - 1, 0), Max(b - 1, 0));
    Policy.MulMonotone(initial, Policy.Pow2(Max(a - 1, 0)), Policy.Pow2(Max(b - 1, 0)));
  }
}
