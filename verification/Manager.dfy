/**
 One connection in its manager: leases, polls, recorded failures and manual interventions over whole runs
 (crates/connections/src/manager/mod.rs, manager/health_ops.rs on top of health.rs).
 */
module Manager {
  import opened Prelude
  import opened Policy
  import opened Health

  /** `attempts` is the sliding window of the rate limiter, `guards` the borrow times of the guards not yet dropped. */
  datatype Conn = Conn(rec: Record, attempts: seq<Time>, guards: seq<Time>)

  datatype Step =
    | Acquire(now: Time, configOk: bool)
    | Poll(now: Time)                                      // get, list
    | DropGuard(guard: nat, outcome: Outcome, now: Time)
    | RecordFailure(now: Time, timedOut: bool)             // record_connect_failure, record_timeout
    | ConnectSuccess(now: Time)
    | Heartbeat(now: Time)
    | MarkInvalid(now: Time)
    | Disconnect(now: Time)
    | ResetBreaker(now: Time)
    | MarkIdle(now: Time)                                  // mark_all_idle

  datatype Verdict = Granted | Busy | BadConfig | CircuitRefused(retryAfterMs: nat) | RateRefused(retryAfterMs: nat)

  // ---- Rate limiter ----

  /** Attempts older than the window leave from the front. */
  function Prune(attempts: seq<Time>, cutoff: Time): seq<Time> {
    if attempts != [] && attempts[0] < cutoff then Prune(attempts[1..], cutoff) else attempts
  }

  function Register(attempts: seq<Time>, g: Governance, now: Time): (seq<Time>, bool) {
    var kept := Prune(attempts, now - Duration(g.rateLimitWindowMs));
    if |kept| >= g.rateLimitMaxAttempts then (kept, false) else (kept + [now], true)
  }

  // ---- Acquire ----

  /** The verdict on a borrower, from the reconciled record. */
  function VerdictOn(r: Record, attempts: seq<Time>, g: Governance, now: Time, configOk: bool): Verdict {
    var h := r.health;
    if r.inUse then Busy
    else if !configOk then BadConfig
    else if h.circuitOpenUntil.Some? && h.circuitOpenUntil.value > now then
      CircuitRefused(RemainingMs(h.circuitOpenUntil.value, now))
    else if h.rateLimitedUntil.Some? && h.rateLimitedUntil.value > now then
      RateRefused(RemainingMs(h.rateLimitedUntil.value, now))
    else if !Register(attempts, g, now).1 then RateRefused(g.rateLimitCooldownMs)
    else Granted
  }

  function AcquireVerdict(c: Conn, g: Governance, now: Time, configOk: bool): Verdict {
    VerdictOn(Reconcile(c.rec, g, now), c.attempts, g, now, configOk)
  }

  /** What a verdict does to the reconciled record. */
  function RecordAfter(r: Record, v: Verdict, g: Governance, now: Time): Record {
    match v
    case BadConfig => Invalidated(r, "invalid configuration", now)
    case RateRefused(_) =>
      if r.health.rateLimitedUntil.Some? then r
      else r.(health := MoveTo(r.health, RateLimited, now).(
                rateLimitHits := Bump(r.health.rateLimitHits),
                rateLimitedUntil := Some(now + Duration(g.rateLimitCooldownMs))))
    case Granted =>
      r.(inUse := true, lastBorrowedAt := Some(now),
         health := MoveTo(r.health, if r.health.consecutiveFailures > 0 then Reconnecting else Connecting, now))
    case _ => r
  }

  function DoAcquire(c: Conn, g: Governance, now: Time, configOk: bool): Conn {
    var r := Reconcile(c.rec, g, now);
    var v := VerdictOn(r, c.attempts, g, now, configOk);
    var registered := v == Granted || (v.RateRefused? && r.health.rateLimitedUntil.None?);
    Conn(RecordAfter(r, v, g, now),
         if registered then Register(c.attempts, g, now).0 else c.attempts,
         if v == Granted then c.guards + [now] else c.guards)
  }

  function Without(guards: seq<Time>, i: nat): seq<Time>
    requires i < |guards|
  {
    guards[..i] + guards[i + 1..]
  }

  predicate Enabled(c: Conn, step: Step) {
    step.DropGuard? ==> step.guard < |c.guards|
  }

  function IdleAfterStop(r: Record, now: Time): Record {
    var h := r.health.(nextRetryAt := None);
    r.(inUse := false,
       health :=
         if h.phase == Invalid then h.(lastStateChangedAt := Some(now))
         else if h.lastFailureReason.Some?
                 && h.phase in {CircuitOpen, Disconnected, RateLimited, Reconnecting, Timeout} then MoveTo(h, Degraded, now)
         else MoveTo(h, Idle, now))
  }

  function Do(c: Conn, g: Governance, step: Step): Conn
    requires Enabled(c, step)
  {
    var r, h := c.rec, c.rec.health;
    match step
    case Acquire(now, configOk) => DoAcquire(c, g, now, configOk)
    case Poll(now) => c.(rec := Reconcile(r, g, now))
    case DropGuard(i, outcome, now) =>
      c.(rec := Finalize(r, g, c.guards[i], outcome, now), guards := Without(c.guards, i))
    case RecordFailure(now, timedOut) => c.(rec := ApplyFailure(r, g, now, "connect failure", timedOut))
    case ConnectSuccess(now) =>
      c.(rec := r.(health := ClearFailures(MoveTo(h, Healthy, now)).(lastHeartbeatAt := Some(now))))
    case Heartbeat(now) =>
      var beat := h.(lastHeartbeatAt := Some(now));
      c.(rec := r.(health := if h.phase in {Invalid, CircuitOpen, RateLimited} then beat
                             else MoveTo(beat, if r.inUse then Healthy else Degraded, now)))
    case MarkInvalid(now) => c.(rec := Invalidated(r, "invalid configuration", now))
    case Disconnect(now) => c.(rec := r.(inUse := false, health := MoveTo(h, Disconnected, now)))
    case ResetBreaker(now) => c.(rec := r.(health := ClearFailures(MoveTo(h, Idle, now))))
    case MarkIdle(now) => c.(rec := IdleAfterStop(r, now))
  }

  // ---- Counting failures ----

  /** The step records a failure. */
  predicate Fails(c: Conn, g: Governance, step: Step)
    requires Enabled(c, step)
  {
    match step
    case RecordFailure(_, _) => true
    case DropGuard(i, outcome, now) =>
      Overdue(g, c.guards[i], now) || (outcome.Failure? && !FailureRecordedDuringLease(c.rec, c.guards[i]))
    case _ => false
  }

  /** The step records that the connection works, or an operator says so. */
  predicate Clears(c: Conn, g: Governance, step: Step)
    requires Enabled(c, step)
  {
    match step
    case ConnectSuccess(_) => true
    case ResetBreaker(_) => true
    case DropGuard(i, outcome, now) => !Overdue(g, c.guards[i], now) && outcome == Success
    case _ => false
  }

  predicate TimesOut(c: Conn, g: Governance, step: Step)
    requires Enabled(c, step)
  {
    (step.RecordFailure? && step.timedOut) || (step.DropGuard? && Overdue(g, c.guards[step.guard], step.now))
  }

  ghost predicate IsRun(conns: seq<Conn>, steps: seq<Step>, g: Governance) {
    && |conns| == |steps| + 1
    && conns[0].rec.health in {FRESH, FRESH.(phase := Invalid, lastFailureReason := conns[0].rec.health.lastFailureReason)}
    && !conns[0].rec.inUse && conns[0].attempts == [] && conns[0].guards == []
    && (forall i :: 0 <= i < |steps| ==> Enabled(conns[i], steps[i]) && conns[i + 1] == Do(conns[i], g, steps[i]))
    && (forall i, j :: 0 <= i < j < |steps| ==> steps[i].now <= steps[j].now)
  }

  lemma {:induction false} RunStep(conns: seq<Conn>, steps: seq<Step>, g: Governance, k: nat)
    requires IsRun(conns, steps, g) && k < |steps|
    ensures Enabled(conns[k], steps[k]) && conns[k + 1] == Do(conns[k], g, steps[k])
    ensures forall i :: 0 <= i < k ==> steps[i].now <= steps[k].now
  {
  }

  /** Failures since the connection was last known to work, among the first k steps. */
  ghost function Streak(conns: seq<Conn>, steps: seq<Step>, g: Governance, k: nat): nat
    requires IsRun(conns, steps, g) && k <= |steps|
  {
    if k == 0 then 0
    else if Clears(conns[k - 1], g, steps[k - 1]) then 0
    else Streak(conns, steps, g, k - 1) + if Fails(conns[k - 1], g, steps[k - 1]) then 1 else 0
  }

  ghost function FailureTotal(conns: seq<Conn>, steps: seq<Step>, g: Governance, k: nat): nat
    requires IsRun(conns, steps, g) && k <= |steps|
  {
    if k == 0 then 0
    else FailureTotal(conns, steps, g, k - 1) + if Fails(conns[k - 1], g, steps[k - 1]) then 1 else 0
  }

  ghost function TimeoutTotal(conns: seq<Conn>, steps: seq<Step>, g: Governance, k: nat): nat
    requires IsRun(conns, steps, g) && k <= |steps|
  {
    if k == 0 then 0
    else TimeoutTotal(conns, steps, g, k - 1) + if TimesOut(conns[k - 1], g, steps[k - 1]) then 1 else 0
  }

  /** What one step does to the counters. */
  lemma {:induction false} StepCounts(c: Conn, g: Governance, step: Step)
    requires Enabled(c, step)
    ensures var h, h' := c.rec.health, Do(c, g, step).rec.health;
            && h'.consecutiveFailures == (if Clears(c, g, step) then 0
                                          else if Fails(c, g, step) then Bump(h.consecutiveFailures) else h.consecutiveFailures)
            && h'.reconnectAttempts == (if Clears(c, g, step) then 0
                                        else if Fails(c, g, step) then Bump(h.reconnectAttempts) else h.reconnectAttempts)
            && h'.totalFailures == (if Fails(c, g, step) then Bump(h.totalFailures) else h.totalFailures)
            && h'.timeoutCount == (if TimesOut(c, g, step) then Bump(h.timeoutCount) else h.timeoutCount)
            && (TimesOut(c, g, step) ==> Fails(c, g, step))
            && (Fails(c, g, step) ==> (h'.phase == CircuitOpen <==> h'.consecutiveFailures >= g.circuitFailureThreshold))
  {
    match step
    case Acquire(now, configOk) => AcquireCounts(c, g, now, configOk);
    case DropGuard(i, outcome, now) => ReleaseCounts(c.rec, g, c.guards[i], outcome, now);
    case _ =>
  }

  lemma {:induction false} ReleaseCounts(r: Record, g: Governance, borrowedAt: Time, outcome: Outcome, now: Time)
    ensures var h, h' := r.health, Finalize(r, g, borrowedAt, outcome, now).health;
            var late := Overdue(g, borrowedAt, now);
            var fails := late || (outcome.Failure? && !FailureRecordedDuringLease(r, borrowedAt));
            var clears := !late && outcome == Success;
            && h'.consecutiveFailures
               == (if clears then 0 else if fails then Bump(h.consecutiveFailures) else h.consecutiveFailures)
            && h'.reconnectAttempts == (if clears then 0 else if fails then Bump(h.reconnectAttempts) else h.reconnectAttempts)
            && h'.totalFailures == (if fails then Bump(h.totalFailures) else h.totalFailures)
            && h'.timeoutCount == (if late then Bump(h.timeoutCount) else h.timeoutCount)
            && (fails ==> (h'.phase == CircuitOpen <==> h'.consecutiveFailures >= g.circuitFailureThreshold))
  {
    match outcome
    case Pending =>
    case Success =>
    case Failure(_) =>
  }

  lemma {:induction false} AcquireCounts(c: Conn, g: Governance, now: Time, configOk: bool)
    ensures SameCounters(c.rec.health, DoAcquire(c, g, now, configOk).rec.health)
  {
    var r := Reconcile(c.rec, g, now);
    ReconcileIsPolled(c.rec, g, now);
    assert SameCounters(c.rec.health, Core(r).health);
    VerdictCounts(r, VerdictOn(r, c.attempts, g, now, configOk), g, now);
  }

  predicate SameCounters(h: Snapshot, k: Snapshot) {
    && h.consecutiveFailures == k.consecutiveFailures && h.reconnectAttempts == k.reconnectAttempts
    && h.totalFailures == k.totalFailures && h.timeoutCount == k.timeoutCount
  }

  lemma {:induction false} VerdictCounts(r: Record, v: Verdict, g: Governance, now: Time)
    ensures SameCounters(r.health, RecordAfter(r, v, g, now).health)
  {
  }

  /** The counters are the true counts, cut at u32::MAX. */
  lemma {:induction false} CountersAreExact(conns: seq<Conn>, steps: seq<Step>, g: Governance, k: nat)
    requires IsRun(conns, steps, g) && k <= |steps|
    ensures var h := conns[k].rec.health;
            && h.consecutiveFailures == h.reconnectAttempts == Min(Streak(conns, steps, g, k), U32_MAX)
            && h.totalFailures == Min(FailureTotal(conns, steps, g, k), U32_MAX)
            && h.timeoutCount == Min(TimeoutTotal(conns, steps, g, k), U32_MAX)
  {
    if k > 0 {
      CountersAreExact(conns, steps, g, k - 1);
      StepCounts(conns[k - 1], g, steps[k - 1]);
      assert conns[k] == Do(conns[k - 1], g, steps[k - 1]);
    }
  }

  /** A failure opens the circuit exactly when the streak has reached the threshold. */
  lemma {:induction false} OpensAtThreshold(conns: seq<Conn>, steps: seq<Step>, g: Governance, k: nat)
    requires IsRun(conns, steps, g) && k < |steps| && Fails(conns[k], g, steps[k])
    requires g.circuitFailureThreshold <= U32_MAX
    ensures conns[k + 1].rec.health.phase == CircuitOpen <==> Streak(conns, steps, g, k + 1) >= g.circuitFailureThreshold
  {
    CountersAreExact(conns, steps, g, k + 1);
    StepCounts(conns[k], g, steps[k]);
    assert conns[k + 1] == Do(conns[k], g, steps[k]);
  }
}
