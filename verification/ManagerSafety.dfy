/** Safety of one managed connection over all runs: record shape, circuit breaker, exclusive leases, rate limit. */
module ManagerSafety {
  import opened Prelude
  import opened Policy
  import opened Health
  import opened Manager

  // ---- Shape of the health record ----

  predicate FailedAt(h: Snapshot) {
    h.lastFailureAt.Some?
  }

  /** Waiting to retry: a short streak, no open deadline, and a retry time set from the last failure. */
  predicate BackingOff(h: Snapshot, g: Governance) {
    && FailedAt(h) && h.circuitOpenUntil == None
    && h.nextRetryAt == Some(h.lastFailureAt.value + Duration(ReconnectDelayMs(g, h.reconnectAttempts)))
    && 1 <= h.consecutiveFailures < g.circuitFailureThreshold
  }

  predicate Open(h: Snapshot, g: Governance) {
    && FailedAt(h)
    && h.circuitOpenUntil == h.nextRetryAt == Some(h.lastFailureAt.value + Duration(g.circuitOpenMs))
    && h.consecutiveFailures >= g.circuitFailureThreshold
  }

  /** Lent out after failures: the lease is not older than the last failure and no breaker deadline is pending. */
  predicate LentAfterFailure(r: Record) {
    && FailedAt(r.health) && r.lastBorrowedAt.Some? && r.health.lastFailureAt.value <= r.lastBorrowedAt.value
    && r.health.consecutiveFailures >= 1 && r.health.circuitOpenUntil == None
  }

  predicate PhaseFits(r: Record, g: Governance) {
    match r.health.phase
    case CircuitOpen => Open(r.health, g)
    case Timeout => BackingOff(r.health, g)
    case Reconnecting => BackingOff(r.health, g) || LentAfterFailure(r)
    case RateLimited => r.health.rateLimitedUntil.Some?
    case _ => true
  }

  predicate WellShaped(r: Record, g: Governance, clock: Time) {
    var h := r.health;
    && h.reconnectAttempts == h.consecutiveFailures <= h.totalFailures <= U32_MAX
    && h.timeoutCount <= h.totalFailures
    && (h.consecutiveFailures > 0 ==> FailedAt(h))
    && (FailedAt(h) ==> h.lastFailureAt.value <= clock)
    && (h.circuitOpenUntil.Some? ==> h.consecutiveFailures >= g.circuitFailureThreshold
                                     && h.circuitOpenUntil.value <= clock + Duration(g.circuitOpenMs))
    && PhaseFits(r, g)
  }

  lemma {:induction false} FailureShapes(r: Record, g: Governance, clock: Time, now: Time, reason: string, timedOut: bool)
    requires WellShaped(r, g, clock) && clock <= now
    ensures WellShaped(ApplyFailure(r, g, now, reason, timedOut), g, now)
  {
  }

  lemma {:induction false} PollShapes(r: Record, g: Governance, clock: Time, now: Time)
    requires WellShaped(r, g, clock) && clock <= now
    ensures WellShaped(Reconcile(r, g, now), g, now)
    ensures var h := Reconcile(r, g, now).health; h.circuitOpenUntil.Some? ==> h.circuitOpenUntil.value > now
  {
    ReconcileIsPolled(r, g, now);
    var p := Polled(r.health, g, r.inUse, now);
    var q := Reconcile(r, g, now);
    assert Core(q) == r.(health := p);
    assert q.health.(lastStateChangedAt := None) == p;
  }

  lemma {:induction false} VerdictShapes(r: Record, attempts: seq<Time>, g: Governance, now: Time, configOk: bool)
    requires WellShaped(r, g, now)
    requires r.health.circuitOpenUntil.Some? ==> r.health.circuitOpenUntil.value > now
    ensures WellShaped(RecordAfter(r, VerdictOn(r, attempts, g, now, configOk), g, now), g, now)
  {
  }

  /** The shape is kept by every step. */
  lemma {:induction false} StepShapes(c: Conn, g: Governance, step: Step, clock: Time)
    requires Enabled(c, step) && WellShaped(c.rec, g, clock) && clock <= step.now
    ensures WellShaped(Do(c, g, step).rec, g, step.now)
  {
    match step
    case Acquire(now, configOk) =>
      PollShapes(c.rec, g, clock, now);
      VerdictShapes(Reconcile(c.rec, g, now), c.attempts, g, now, configOk);
    case Poll(now) => PollShapes(c.rec, g, clock, now);
    case DropGuard(i, outcome, now) => FinalizeShapes(c.rec, g, clock, c.guards[i], outcome, now);
    case RecordFailure(now, timedOut) => FailureShapes(c.rec, g, clock, now, "connect failure", timedOut);
    case _ =>
  }

  lemma {:induction false} FinalizeShapes(r: Record, g: Governance, clock: Time, borrowedAt: Time, outcome: Outcome, now: Time)
    requires WellShaped(r, g, clock) && clock <= now
    ensures WellShaped(Finalize(r, g, borrowedAt, outcome, now), g, now)
  {
    var free := r.(inUse := false);
    FailureShapes(free, g, clock, now, "operation timeout", true);
    if outcome.Failure? {
      FailureShapes(free, g, clock, now, if outcome.reason == "" then "unspecified failure" else outcome.reason, false);
    }
  }

  function Clock(steps: seq<Step>, k: nat): Time
    requires k <= |steps| && steps != []
  {
    if k == 0 then steps[0].now else steps[k - 1].now
  }

  /** In every reachable state the phase tells the truth about streak and deadlines. */
  lemma {:induction false} RunsAreWellShaped(conns: seq<Conn>, steps: seq<Step>, g: Governance, k: nat)
    requires IsRun(conns, steps, g) && steps != [] && k <= |steps|
    ensures WellShaped(conns[k].rec, g, Clock(steps, k))
  {
    if k > 0 {
      RunsAreWellShaped(conns, steps, g, k - 1);
      StepShapes(conns[k - 1], g, steps[k - 1], Clock(steps, k - 1));
    }
  }

  /**
   Reconnecting alone does not mean that a retry time is set: fail once, let the wait pass, borrow again. The second
   state after the loan has a streak, no deadline at all, and is Reconnecting.
   */
  lemma {:induction false} ReconnectingWithoutRetryTime()
    ensures var c := Conn(Record(false, None, FRESH), [], []);
            var failed := Do(c, DEFAULTS, RecordFailure(0, false));
            var lent := Do(failed, DEFAULTS, Acquire(Duration(800), true));
            && failed.rec.health.phase == Reconnecting && BackingOff(failed.rec.health, DEFAULTS)
            && lent.rec.health.phase == Reconnecting && lent.rec.health.nextRetryAt == None && lent.guards == [Duration(800)]
  {
    var c := Conn(Record(false, None, FRESH), [], []);
    assert ReconnectDelayMs(DEFAULTS, 1) == 800 by {
      assert Pow2(0) == 1;
    }
    var failed := Do(c, DEFAULTS, RecordFailure(0, false));
    var r := Reconcile(failed.rec, DEFAULTS, Duration(800));
    assert r.health.phase == Idle && r.health.nextRetryAt == None;
    assert VerdictOn(r, [], DEFAULTS, Duration(800), true) == Granted;
  }

  // ---- Circuit breaker ----

  /** Before the deadline a step that does not clear the failures can only move the deadline later. */
  lemma {:induction false} BreakerHolds(c: Conn, g: Governance, step: Step, clock: Time, deadline: Time)
    requires Enabled(c, step) && WellShaped(c.rec, g, clock) && clock <= step.now < deadline
    requires c.rec.health.circuitOpenUntil.Some? && c.rec.health.circuitOpenUntil.value >= deadline
    requires !Clears(c, g, step)
    ensures var u := Do(c, g, step).rec.health.circuitOpenUntil; u.Some? && u.value >= deadline
  {
    match step
    case Acquire(now, configOk) =>
      ReconcileIsPolled(c.rec, g, now);
      var r := Reconcile(c.rec, g, now);
      assert Core(r).health.circuitOpenUntil == r.health.circuitOpenUntil == c.rec.health.circuitOpenUntil;
      BreakerVerdict(r, c.attempts, g, now, configOk);
    case Poll(now) => ReconcileIsPolled(c.rec, g, now);
      assert Core(Reconcile(c.rec, g, now)).health.circuitOpenUntil == Reconcile(c.rec, g, now).health.circuitOpenUntil;
    case _ =>
  }

  lemma {:induction false} BreakerVerdict(r: Record, attempts: seq<Time>, g: Governance, now: Time, configOk: bool)
    requires r.health.circuitOpenUntil.Some? && r.health.circuitOpenUntil.value > now
    ensures var v := VerdictOn(r, attempts, g, now, configOk);
            && (v == Busy || v == BadConfig || v.CircuitRefused?)
            && RecordAfter(r, v, g, now).health.circuitOpenUntil == r.health.circuitOpenUntil
  {
  }

  lemma {:induction false} BreakerNext(c: Conn, g: Governance, step: Step, d: Conn, clock: Time, deadline: Time)
    requires Enabled(c, step) && d == Do(c, g, step) && WellShaped(c.rec, g, clock) && clock <= step.now < deadline
    requires c.rec.health.circuitOpenUntil.Some? && c.rec.health.circuitOpenUntil.value >= deadline && !Clears(c, g, step)
    ensures d.rec.health.circuitOpenUntil.Some? && d.rec.health.circuitOpenUntil.value >= deadline
  {
    BreakerHolds(c, g, step, clock, deadline);
  }

  lemma {:induction false} DeadlineNext(conns: seq<Conn>, steps: seq<Step>, g: Governance, k: nat, deadline: Time)
    requires IsRun(conns, steps, g) && k < |steps| && steps[k].now < deadline && !Clears(conns[k], g, steps[k])
    requires var u := conns[k].rec.health.circuitOpenUntil; u.Some? && u.value >= deadline
    ensures var u := conns[k + 1].rec.health.circuitOpenUntil; u.Some? && u.value >= deadline
  {
    RunStep(conns, steps, g, k);
    RunsAreWellShaped(conns, steps, g, k);
    BreakerNext(conns[k], g, steps[k], conns[k + 1], Clock(steps, k), deadline);
  }

  lemma {:induction false} DeadlineStays(conns: seq<Conn>, steps: seq<Step>, g: Governance, i: nat, j: nat, deadline: Time)
    requires IsRun(conns, steps, g) && i <= j <= |steps|
    requires conns[i].rec.health.circuitOpenUntil == Some(deadline)
    requires forall k :: i <= k < j ==> steps[k].now < deadline && !Clears(conns[k], g, steps[k])
    ensures var u := conns[j].rec.health.circuitOpenUntil; u.Some? && u.value >= deadline
  {
    if i < j {
      var k := j - 1;
      DeadlineStays(conns, steps, g, i, k, deadline);
      DeadlineNext(conns, steps, g, k, deadline);
    }
  }

  /**
   Once the circuit is open, nobody borrows the connection before the deadline unless a success or a manual reset came
   in between, whatever else happens: polls, releases, further failures, disconnects, stops.
   */
  lemma {:induction false} NoLeaseWhileOpen(conns: seq<Conn>, steps: seq<Step>, g: Governance, i: nat, j: nat, deadline: Time)
    requires IsRun(conns, steps, g) && i <= j < |steps| && steps[j].Acquire? && steps[j].now < deadline
    requires conns[i].rec.health.circuitOpenUntil == Some(deadline)
    requires forall k :: i <= k < j ==> !Clears(conns[k], g, steps[k])
    ensures var v := AcquireVerdict(conns[j], g, steps[j].now, steps[j].configOk);
            v == Busy || v == BadConfig || v.CircuitRefused?
  {
    DeadlineStays(conns, steps, g, i, j, deadline);
    var now := steps[j].now;
    ReconcileIsPolled(conns[j].rec, g, now);
    var r := Reconcile(conns[j].rec, g, now);
    assert Core(r).health.circuitOpenUntil == r.health.circuitOpenUntil == conns[j].rec.health.circuitOpenUntil;
    BreakerVerdict(r, conns[j].attempts, g, now, steps[j].configOk);
  }

  // ---- Exclusive leases ----

  /** In use exactly while one guard is out. */
  predicate Exclusive(c: Conn) {
    |c.guards| == if c.rec.inUse then 1 else 0
  }

  /** Frees the record without its guard. */
  predicate Frees(step: Step) {
    step.MarkInvalid? || step.Disconnect? || step.MarkIdle?
  }

  /** A step keeps leases exclusive iff it does not free a record whose guard is still out. */
  lemma {:induction false} StepExclusive(c: Conn, g: Governance, step: Step)
    requires Enabled(c, step) && Exclusive(c)
    ensures Exclusive(Do(c, g, step)) <==> !(Frees(step) && c.guards != [])
  {
    match step
    case Acquire(now, configOk) =>
      var r := Reconcile(c.rec, g, now);
      assert r.inUse == c.rec.inUse;
    case _ =>
  }

  lemma {:induction false} RunsAreExclusive(conns: seq<Conn>, steps: seq<Step>, g: Governance, k: nat)
    requires IsRun(conns, steps, g) && k <= |steps|
    requires forall i :: 0 <= i < |steps| ==> !(Frees(steps[i]) && conns[i].guards != [])
    ensures Exclusive(conns[k]) && |conns[k].guards| <= 1
  {
    if k > 0 {
      RunsAreExclusive(conns, steps, g, k - 1);
      StepExclusive(conns[k - 1], g, steps[k - 1]);
    }
  }

  /** Otherwise two guards are out: borrow, disconnect, borrow. */
  lemma {:induction false} TwoGuards()
    ensures var c := Conn(Record(false, None, FRESH), [], []);
            var a := Do(c, DEFAULTS, Acquire(0, true));
            var b := Do(a, DEFAULTS, Disconnect(1));
            Do(b, DEFAULTS, Acquire(2, true)).guards == [0, 2]
  {
    var c := Conn(Record(false, None, FRESH), [], []);
    var a := Do(c, DEFAULTS, Acquire(0, true));
    assert VerdictOn(Reconcile(c.rec, DEFAULTS, 0), [], DEFAULTS, 0, true) == Granted;
    assert a.guards == [0] && a.attempts == [0] && a.rec.inUse;
    var b := Do(a, DEFAULTS, Disconnect(1));
    assert Prune([0], 2 - Duration(10_000)) == [0];
    assert VerdictOn(Reconcile(b.rec, DEFAULTS, 2), [0], DEFAULTS, 2, true) == Granted;
  }

  // ---- Rate limit ----

  /** The times of the loans among the first k steps. */
  ghost function Loans(conns: seq<Conn>, steps: seq<Step>, g: Governance, k: nat): seq<Time>
    requires IsRun(conns, steps, g) && k <= |steps|
  {
    if k == 0 then [] else LoansAfter(conns[k - 1], g, steps[k - 1], Loans(conns, steps, g, k - 1))
  }

  /** The window is the tail of the loans; whatever left it is older than the window. */
  predicate Window(attempts: seq<Time>, loans: seq<Time>, width: Time, clock: Time) {
    && |attempts| <= |loans| && attempts == loans[|loans| - |attempts|..]
    && (forall i :: 0 <= i < |loans| ==> loans[i] <= clock)
    && (forall i :: 0 <= i < |loans| - |attempts| ==> loans[i] < clock - width)
  }

  /** Any `max` + 1 successive loans take longer than the window. */
  predicate Spaced(loans: seq<Time>, width: Time, max: nat) {
    forall i, j :: 0 <= i && j == i + max < |loans| ==> loans[j] - loans[i] > width
  }

  lemma {:induction false} PruneKeepsTail(attempts: seq<Time>, cutoff: Time)
    ensures var kept := Prune(attempts, cutoff);
            && |kept| <= |attempts| && kept == attempts[|attempts| - |kept|..]
            && forall i :: 0 <= i < |attempts| - |kept| ==> attempts[i] < cutoff
  {
    if attempts != [] && attempts[0] < cutoff {
      PruneKeepsTail(attempts[1..], cutoff);
    }
  }

  lemma {:induction false} PruneKeepsWindow(attempts: seq<Time>, loans: seq<Time>, width: Time, clock: Time, now: Time)
    requires Window(attempts, loans, width, clock) && clock <= now
    ensures Window(Prune(attempts, now - width), loans, width, now)
  {
    PruneKeepsTail(attempts, now - width);
    var kept := Prune(attempts, now - width);
    var gone := |loans| - |attempts|;
    forall i | 0 <= i < |loans| - |kept| ensures loans[i] < now - width {
      if i >= gone {
        assert loans[i] == attempts[i - gone];
      }
    }
    assert kept == loans[|loans| - |kept|..];
  }

  lemma {:induction false} AdmitKeepsWindow(kept: seq<Time>, loans: seq<Time>, width: Time, max: nat, now: Time)
    requires Window(kept, loans, width, now) && Spaced(loans, width, max) && |kept| < max
    ensures Window(kept + [now], loans + [now], width, now) && Spaced(loans + [now], width, max)
  {
    assert kept + [now] == (loans + [now])[|loans| - |kept|..];
    forall i, j | 0 <= i && j == i + max < |loans + [now]| ensures (loans + [now])[j] - (loans + [now])[i] > width {
      if j == |loans| {
        assert i < |loans| - |kept|;
      } else {
        assert loans[j] - loans[i] > width;
      }
    }
  }

  /** The loans after a step that asked the limiter, or did not. */
  lemma {:induction false} RegisterSpaces(attempts: seq<Time>, loans: seq<Time>, g: Governance, clock: Time, now: Time)
    requires Window(attempts, loans, Duration(g.rateLimitWindowMs), clock) && clock <= now
    requires Spaced(loans, Duration(g.rateLimitWindowMs), g.rateLimitMaxAttempts)
    ensures var (kept, ok) := Register(attempts, g, now);
            var loans' := if ok then loans + [now] else loans;
            && Window(kept, loans', Duration(g.rateLimitWindowMs), now)
            && Spaced(loans', Duration(g.rateLimitWindowMs), g.rateLimitMaxAttempts)
  {
    var width := Duration(g.rateLimitWindowMs);
    PruneKeepsWindow(attempts, loans, width, clock, now);
    var kept := Prune(attempts, now - width);
    if |kept| < g.rateLimitMaxAttempts {
      AdmitKeepsWindow(kept, loans, width, g.rateLimitMaxAttempts, now);
    }
  }

  lemma {:induction false} StepSpaces(c: Conn, g: Governance, s: Step, loans: seq<Time>, clock: Time)
    requires Enabled(c, s) && clock <= s.now
    requires LimiterOk(c, g, loans, clock)
    ensures LimiterOk(Do(c, g, s), g, LoansAfter(c, g, s, loans), s.now)
  {
    if s.Acquire? {
      RegisterSpaces(c.attempts, loans, g, clock, s.now);
      GrantedRegisters(Reconcile(c.rec, g, s.now), c.attempts, g, s.now, s.configOk);
    } else {
      assert Do(c, g, s).attempts == c.attempts;
    }
    WindowLater(c.attempts, loans, Duration(g.rateLimitWindowMs), clock, s.now);
  }

  lemma {:induction false} WindowLater(attempts: seq<Time>, loans: seq<Time>, width: Time, clock: Time, now: Time)
    requires Window(attempts, loans, width, clock) && clock <= now
    ensures Window(attempts, loans, width, now)
  {
  }

  ghost predicate LimiterOk(c: Conn, g: Governance, loans: seq<Time>, clock: Time) {
    && Window(c.attempts, loans, Duration(g.rateLimitWindowMs), clock)
    && Spaced(loans, Duration(g.rateLimitWindowMs), g.rateLimitMaxAttempts)
  }

  function LoansAfter(c: Conn, g: Governance, s: Step, loans: seq<Time>): seq<Time> {
    if s.Acquire? && AcquireVerdict(c, g, s.now, s.configOk) == Granted then loans + [s.now] else loans
  }

  /** In every run the limiter admits at most `rateLimitMaxAttempts` loans in any window. */
  lemma {:induction false} LoansAreSpaced(conns: seq<Conn>, steps: seq<Step>, g: Governance, k: nat)
    requires IsRun(conns, steps, g) && steps != [] && k <= |steps|
    ensures LimiterOk(conns[k], g, Loans(conns, steps, g, k), Clock(steps, k))
  {
    if k > 0 {
      LoansAreSpaced(conns, steps, g, k - 1);
      var c, s, loans := conns[k - 1], steps[k - 1], Loans(conns, steps, g, k - 1);
      assert Enabled(c, s) && conns[k] == Do(c, g, s) && Clock(steps, k - 1) <= s.now == Clock(steps, k);
      StepSpaces(c, g, s, loans, Clock(steps, k - 1));
    }
  }

  lemma {:induction false} GrantedRegisters(r: Record, attempts: seq<Time>, g: Governance, now: Time, configOk: bool)
    ensures var v := VerdictOn(r, attempts, g, now, configOk);
            && (v == Granted ==> Register(attempts, g, now).1)
            && (v.RateRefused? && r.health.rateLimitedUntil.None? ==> !Register(attempts, g, now).1)
  {
  }
}
