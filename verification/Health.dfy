/** The health record of one connection and its RAII guard (crates/connections/src/health.rs, guard.rs). */
module Health {
  import opened Prelude
  import opened Policy

  /** Instants in nanoseconds. */
  type Time = int

  const NANOS_PER_MS := 1_000_000

  datatype Phase =
    Idle | Connecting | Healthy | Degraded | Invalid | Reconnecting | RateLimited | CircuitOpen | Timeout | Disconnected

  datatype Snapshot = Snapshot(
    phase: Phase,
    lastStateChangedAt: Option<Time>,
    lastHeartbeatAt: Option<Time>,
    lastFailureAt: Option<Time>,
    lastFailureReason: Option<string>,
    nextRetryAt: Option<Time>,
    circuitOpenUntil: Option<Time>,
    rateLimitedUntil: Option<Time>,
    consecutiveFailures: nat,
    totalFailures: nat,
    timeoutCount: nat,
    rateLimitHits: nat,
    reconnectAttempts: nat)

  datatype Record = Record(inUse: bool, lastBorrowedAt: Option<Time>, health: Snapshot)

  datatype Outcome = Pending | Success | Failure(reason: string)

  const FRESH := Snapshot(Idle, None, None, None, None, None, None, None, 0, 0, 0, 0, 0)

  /** u32 counters saturate. */
  function Bump(n: nat): nat {
    Min(n + 1, U32_MAX)
  }

  /** Milliseconds are cut to the i64 range. */
  function Duration(ms: nat): Time {
    Min(ms, I64_MAX) * NANOS_PER_MS
  }

  function ElapsedMs(now: Time, since: Time): nat {
    Max(now - since, 0) / NANOS_PER_MS
  }

  function RemainingMs(target: Time, now: Time): nat {
    ElapsedMs(target, now)
  }

  predicate Passed(deadline: Option<Time>, now: Time) {
    deadline.Some? && deadline.value <= now
  }

  // ---- The transitions as functions ----

  function ApplyFailure(r: Record, g: Governance, now: Time, reason: string, timedOut: bool): Record {
    var h := r.health;
    var counted := h.(totalFailures := Bump(h.totalFailures),
                      consecutiveFailures := Bump(h.consecutiveFailures),
                      reconnectAttempts := Bump(h.reconnectAttempts),
                      timeoutCount := if timedOut then Bump(h.timeoutCount) else h.timeoutCount,
                      lastFailureAt := Some(now), lastStateChangedAt := Some(now), lastFailureReason := Some(reason));
    r.(health :=
      if counted.consecutiveFailures >= g.circuitFailureThreshold then
        var openUntil := Some(now + Duration(g.circuitOpenMs));
        counted.(phase := CircuitOpen, circuitOpenUntil := openUntil, nextRetryAt := openUntil)
      else
        counted.(phase := if timedOut then Timeout else Reconnecting,
                 nextRetryAt := Some(now + Duration(ReconnectDelayMs(g, counted.reconnectAttempts))),
                 circuitOpenUntil := None))
  }

  function MoveTo(h: Snapshot, phase: Phase, now: Time): Snapshot {
    h.(phase := phase, lastStateChangedAt := Some(now))
  }

  function ReconcileRateLimit(h: Snapshot, now: Time): Snapshot {
    if !Passed(h.rateLimitedUntil, now) then h
    else if h.phase == RateLimited then MoveTo(h, Idle, now).(rateLimitedUntil := None)
    else h.(rateLimitedUntil := None)
  }

  function ReconcileCircuit(h: Snapshot, now: Time): Snapshot {
    if !Passed(h.circuitOpenUntil, now) then h
    else if h.phase == CircuitOpen then MoveTo(h, Idle, now).(circuitOpenUntil := None)
    else h.(circuitOpenUntil := None)
  }

  function ReconcileIdle(h: Snapshot, g: Governance, now: Time): Snapshot {
    var a := if Passed(h.nextRetryAt, now) && (h.phase == Reconnecting || h.phase == Timeout)
             then MoveTo(h, Idle, now).(nextRetryAt := None) else h;
    var b := if a.phase == Connecting then MoveTo(a, Idle, now) else a;
    if b.phase == Healthy && b.lastHeartbeatAt.Some? && ElapsedMs(now, b.lastHeartbeatAt.value) > g.heartbeatTimeoutMs
    then MoveTo(b, Degraded, now) else b
  }

  function Reconcile(r: Record, g: Governance, now: Time): Record {
    var h := ReconcileCircuit(ReconcileRateLimit(r.health, now), now);
    r.(health := if r.inUse then h else ReconcileIdle(h, g, now))
  }

  predicate FailureRecordedDuringLease(r: Record, borrowedAt: Time) {
    && (r.health.phase == Reconnecting || r.health.phase == CircuitOpen || r.health.phase == Timeout)
    && r.health.lastFailureAt.Some? && r.health.lastFailureAt.value >= borrowedAt
  }

  predicate Overdue(g: Governance, borrowedAt: Time, now: Time) {
    ElapsedMs(now, borrowedAt) > g.operationTimeoutMs
  }

  function ClearFailures(h: Snapshot): Snapshot {
    h.(consecutiveFailures := 0, reconnectAttempts := 0, nextRetryAt := None, rateLimitedUntil := None, circuitOpenUntil := None)
  }

  function Finalize(r: Record, g: Governance, borrowedAt: Time, outcome: Outcome, now: Time): Record {
    var free := r.(inUse := false);
    if Overdue(g, borrowedAt, now) then ApplyFailure(free, g, now, "operation timeout", true)
    else
      match outcome
      case Success => free.(health := ClearFailures(MoveTo(free.health, Healthy, now)).(lastHeartbeatAt := Some(now)))
      case Failure(reason) =>
        if FailureRecordedDuringLease(free, borrowedAt) then free
        else ApplyFailure(free, g, now, if reason == "" then "unspecified failure" else reason, false)
      case Pending => free.(health := MoveTo(free.health, Degraded, now))
  }

  function Invalidated(r: Record, reason: string, now: Time): Record {
    r.(inUse := false,
       health := MoveTo(r.health, Invalid, now).(lastFailureAt := Some(now), lastFailureReason := Some(reason)))
  }

  // ---- The record and the guard ----

  class ConnectionRecord {
    const policy: Governance
    var inUse: bool
    var lastBorrowedAt: Option<Time>
    var health: Snapshot

    function Contents(): Record
      reads this
    {
      Record(inUse, lastBorrowedAt, health)
    }

    /** A new record; `configError` is the verdict on its definition. */
    constructor (policy: Governance, configError: Option<string>)
      ensures this.policy == policy
      ensures Contents() == Record(false, None, if configError.None? then FRESH
                                                else FRESH.(phase := Invalid, lastFailureReason := configError))
    {
      this.policy := policy;
      inUse, lastBorrowedAt, health := false, None, FRESH;
      new;
      RefreshDefinitionDiagnosis(configError);
    }

    method RefreshDefinitionDiagnosis(configError: Option<string>)
      modifies this`health
      ensures health == if configError.None? then old(health).(phase := Idle)
                        else old(health).(phase := Invalid, lastFailureReason := configError)
    {
      if configError.None? {
        health := health.(phase := Idle);
      } else {
        health := health.(phase := Invalid);
        health := health.(lastFailureReason := configError);
      }
    }

    method ApplyRuntimeFailure(now: Time, reason: string, timedOut: bool) returns (retryAfterMs: nat)
      modifies this`health
      ensures Contents() == ApplyFailure(old(Contents()), policy, now, reason, timedOut)
      ensures health.nextRetryAt == Some(now + Duration(retryAfterMs))
      ensures health.phase == if health.consecutiveFailures >= policy.circuitFailureThreshold then CircuitOpen
                              else if timedOut then Timeout else Reconnecting
      ensures health.lastFailureAt == Some(now) && health.lastFailureReason == Some(reason)
    {
      health := health.(totalFailures := Bump(health.totalFailures));
      health := health.(consecutiveFailures := Bump(health.consecutiveFailures));
      health := health.(reconnectAttempts := Bump(health.reconnectAttempts));
      if timedOut {
        health := health.(timeoutCount := Bump(health.timeoutCount));
      }
      health := health.(lastFailureAt := Some(now), lastStateChangedAt := Some(now), lastFailureReason := Some(reason));
      if health.consecutiveFailures >= policy.circuitFailureThreshold {
        var openUntil := now + Duration(policy.circuitOpenMs);
        health := health.(phase := CircuitOpen);
        health := health.(circuitOpenUntil := Some(openUntil), nextRetryAt := Some(openUntil));
        return policy.circuitOpenMs;
      }
      retryAfterMs := ReconnectDelayMs(policy, health.reconnectAttempts);
      health := health.(phase := if timedOut then Timeout else Reconnecting);
      health := health.(nextRetryAt := Some(now + Duration(retryAfterMs)), circuitOpenUntil := None);
    }

    method ReconcileTimedState(now: Time)
      modifies this`health
      ensures Contents() == Reconcile(old(Contents()), policy, now)
    {
      if health.rateLimitedUntil.Some? && health.rateLimitedUntil.value <= now {
        health := health.(rateLimitedUntil := None);
        if health.phase == RateLimited {
          health := health.(phase := Idle, lastStateChangedAt := Some(now));
        }
      }
      assert health == ReconcileRateLimit(old(health), now);
      if health.circuitOpenUntil.Some? && health.circuitOpenUntil.value <= now {
        health := health.(circuitOpenUntil := None);
        if health.phase == CircuitOpen {
          health := health.(phase := Idle, lastStateChangedAt := Some(now));
        }
      }
      ghost var reconciled := health;
      assert reconciled == ReconcileCircuit(ReconcileRateLimit(old(health), now), now);
      if health.nextRetryAt.Some? && health.nextRetryAt.value <= now
         && (health.phase == Reconnecting || health.phase == Timeout) && !inUse {
        health := health.(nextRetryAt := None, phase := Idle, lastStateChangedAt := Some(now));
      }
      if !inUse {
        if health.phase == Connecting {
          health := health.(phase := Idle, lastStateChangedAt := Some(now));
        }
        if health.lastHeartbeatAt.Some? {
          var age := ElapsedMs(now, health.lastHeartbeatAt.value);
          if age > policy.heartbeatTimeoutMs && health.phase == Healthy {
            health := health.(phase := Degraded, lastStateChangedAt := Some(now));
          }
        }
        assert health == ReconcileIdle(reconciled, policy, now);
      }
    }

    method FinalizeRelease(borrowedAt: Time, outcome: Outcome, now: Time)
      modifies this`health, this`inUse
      ensures Contents() == Finalize(old(Contents()), policy, borrowedAt, outcome, now)
    {
      inUse := false;
      if ElapsedMs(now, borrowedAt) > policy.operationTimeoutMs {
        var _ := ApplyRuntimeFailure(now, "operation timeout", true);
        return;
      }
      match outcome {
        case Success =>
          health := health.(phase := Healthy, lastStateChangedAt := Some(now), lastHeartbeatAt := Some(now));
          health := health.(consecutiveFailures := 0, reconnectAttempts := 0);
          health := health.(nextRetryAt := None, rateLimitedUntil := None, circuitOpenUntil := None);
        case Failure(reason) =>
          var failureReason := if reason == "" then "unspecified failure" else reason;
          if !FailureRecordedDuringLease(Contents(), borrowedAt) {
            var _ := ApplyRuntimeFailure(now, failureReason, false);
          }
        case Pending =>
          health := health.(phase := Degraded, lastStateChangedAt := Some(now));
      }
    }

    method MarkInvalid(reason: string, now: Time)
      modifies this`health, this`inUse
      ensures Contents() == Invalidated(old(Contents()), reason, now)
    {
      inUse := false;
      health := health.(phase := Invalid, lastStateChangedAt := Some(now));
      health := health.(lastFailureAt := Some(now), lastFailureReason := Some(reason));
    }
  }

  /** Dropping the guard always releases the connection, with the outcome marked last. */
  class ConnectionGuard {
    const borrowedAt: Time
    const record: ConnectionRecord
    var outcome: Outcome

    constructor (borrowedAt: Time, record: ConnectionRecord)
      ensures this.borrowedAt == borrowedAt && this.record == record && outcome == Pending
    {
      this.borrowedAt, this.record, outcome := borrowedAt, record, Pending;
    }

    method MarkSuccess()
      modifies this
      ensures outcome == Success
    {
      outcome := Success;
    }

    method MarkFailure(reason: string)
      modifies this
      ensures outcome == Failure(reason)
    {
      outcome := Failure(reason);
    }

    method Drop(now: Time)
      modifies record
      ensures record.Contents() == Finalize(old(record.Contents()), record.policy, borrowedAt, outcome, now)
      ensures !record.inUse
    {
      record.FinalizeRelease(borrowedAt, outcome, now);
    }
  }

  // ---- Reconciliation ----

  /** Everything but the bookkeeping of when the phase last changed. */
  function Core(r: Record): Record {
    r.(health := r.health.(lastStateChangedAt := None))
  }

  lemma {:induction false} ElapsedMonotone(now: Time, later: Time, since: Time)
    requires now <= later
    ensures ElapsedMs(now, since) <= ElapsedMs(later, since)
  {
  }

  function Unexpired(deadline: Option<Time>, now: Time): Option<Time> {
    if Passed(deadline, now) then None else deadline
  }

  predicate Silent(h: Snapshot, g: Governance, now: Time) {
    h.lastHeartbeatAt.Some? && ElapsedMs(now, h.lastHeartbeatAt.value) > g.heartbeatTimeoutMs
  }

  predicate RetryDue(h: Snapshot, now: Time) {
    (h.phase == Reconnecting || h.phase == Timeout) && Passed(h.nextRetryAt, now)
  }

  /** The phase a poll leaves, decided by the phase before it alone. */
  function PolledPhase(h: Snapshot, g: Governance, inUse: bool, now: Time): Phase {
    if h.phase == RateLimited && Passed(h.rateLimitedUntil, now) then Idle
    else if h.phase == CircuitOpen && Passed(h.circuitOpenUntil, now) then Idle
    else if !inUse && (h.phase == Connecting || RetryDue(h, now)) then Idle
    else if !inUse && h.phase == Healthy && Silent(h, g, now) then Degraded
    else h.phase
  }

  function Polled(h: Snapshot, g: Governance, inUse: bool, now: Time): Snapshot {
    h.(phase := PolledPhase(h, g, inUse, now), lastStateChangedAt := None,
       rateLimitedUntil := Unexpired(h.rateLimitedUntil, now),
       circuitOpenUntil := Unexpired(h.circuitOpenUntil, now),
       nextRetryAt := if !inUse && RetryDue(h, now) then None else h.nextRetryAt)
  }

  lemma {:induction false} ReconcileIsPolled(r: Record, g: Governance, now: Time)
    ensures Core(Reconcile(r, g, now)) == r.(health := Polled(r.health, g, r.inUse, now))
  {
  }

  lemma {:induction false} PolledMerge(h: Snapshot, g: Governance, inUse: bool, t: Time, u: Time)
    ensures Polled(Polled(h, g, inUse, t), g, inUse, u) == Polled(h, g, inUse, Max(t, u))
  {
    if h.lastHeartbeatAt.Some? {
      ElapsedMonotone(Min(t, u), Max(t, u), h.lastHeartbeatAt.value);
    }
  }

  /** Two polls in either order do what one poll at the later time does. */
  lemma {:induction false} PollsMerge(r: Record, g: Governance, t: Time, u: Time)
    ensures Core(Reconcile(Reconcile(r, g, t), g, u)) == Core(Reconcile(r, g, Max(t, u)))
  {
    ReconcileIsPolled(r, g, t);
    ReconcileIsPolled(r, g, Max(t, u));
    ReconcileIsPolled(r.(health := Polled(r.health, g, r.inUse, t)), g, u);
    ReconcileIgnoresBookkeeping(Reconcile(r, g, t), r.(health := Polled(r.health, g, r.inUse, t)), g, u);
    PolledMerge(r.health, g, r.inUse, t, u);
  }

  lemma {:induction false} ReconcileIgnoresBookkeeping(r: Record, s: Record, g: Governance, t: Time)
    requires Core(r) == Core(s)
    ensures Core(Reconcile(r, g, t)) == Core(Reconcile(s, g, t))
  {
    ReconcileIsPolled(r, g, t);
    ReconcileIsPolled(s, g, t);
    assert r.inUse == s.inUse && r.lastBorrowedAt == s.lastBorrowedAt;
    assert r.health.(lastStateChangedAt := None) == s.health.(lastStateChangedAt := None);
  }

  function PollAll(r: Record, g: Governance, polls: seq<Time>): Record {
    if polls == [] then r else Reconcile(PollAll(r, g, polls[..|polls| - 1]), g, polls[|polls| - 1])
  }

  function Latest(polls: seq<Time>): Time
    requires polls != []
  {
    if |polls| == 1 then polls[0] else Max(Latest(polls[..|polls| - 1]), polls[|polls| - 1])
  }

  /** Lazy reconciliation is confluent: any list of polls leaves the record as one poll at the latest time would. */
  lemma {:induction false} PollingIsConfluent(r: Record, g: Governance, polls: seq<Time>)
    requires polls != []
    ensures Core(PollAll(r, g, polls)) == Core(Reconcile(r, g, Latest(polls)))
  {
    var n := |polls| - 1;
    if n == 0 {
      assert polls[..0] == [];
    } else {
      PollingIsConfluent(r, g, polls[..n]);
      ReconcileIgnoresBookkeeping(PollAll(r, g, polls[..n]), Reconcile(r, g, Latest(polls[..n])), g, polls[n]);
      PollsMerge(r, g, Latest(polls[..n]), polls[n]);
    }
  }

  /** Polling leaves CircuitOpen exactly when the deadline has come. */
  lemma {:induction false} OpenUntilDeadline(r: Record, g: Governance, polls: seq<Time>)
    requires polls != [] && r.health.phase == CircuitOpen && r.health.circuitOpenUntil.Some?
    ensures PollAll(r, g, polls).health.phase == CircuitOpen <==> Latest(polls) < r.health.circuitOpenUntil.value
    ensures PollAll(r, g, polls).health.phase in {CircuitOpen, Idle}
  {
    PollingIsConfluent(r, g, polls);
    var a, b := PollAll(r, g, polls), Reconcile(r, g, Latest(polls));
    assert Core(a).health.phase == Core(b).health.phase;
  }

  lemma {:induction false} PollKeepsLease(r: Record, g: Governance, now: Time)
    ensures var p := Reconcile(r, g, now);
            && p.inUse == r.inUse && p.lastBorrowedAt == r.lastBorrowedAt
            && p.health.lastFailureAt == r.health.lastFailureAt
            && p.health.consecutiveFailures == r.health.consecutiveFailures
            && p.health.totalFailures == r.health.totalFailures
  {
  }

  lemma {:induction false} PollingKeepsLease(r: Record, g: Governance, polls: seq<Time>)
    ensures var p := PollAll(r, g, polls);
            && p.inUse == r.inUse && p.lastBorrowedAt == r.lastBorrowedAt
            && p.health.lastFailureAt == r.health.lastFailureAt
            && p.health.consecutiveFailures == r.health.consecutiveFailures
            && p.health.totalFailures == r.health.totalFailures
  {
    if polls != [] {
      var n := |polls| - 1;
      PollingKeepsLease(r, g, polls[..n]);
      PollKeepsLease(PollAll(r, g, polls[..n]), g, polls[n]);
    }
  }

  // ---- One failure, one count ----

  /**
   A lease whose failure was already recorded is released with mark_failure inside the operation timeout, and nothing
   but polls came in between. The failure is counted a second time iff it opened the circuit and a poll came at or
   after the deadline. (For any steps in between see ManagerFailures.)
   */
  lemma {:induction false} FailureCountedOnce(r: Record, g: Governance, borrowedAt: Time, failedAt: Time, timedOut: bool,
                                              polls: seq<Time>, now: Time, reason: string)
    requires r.inUse && borrowedAt <= failedAt && !Overdue(g, borrowedAt, now)
    ensures var failed := ApplyFailure(r, g, failedAt, reason, timedOut);
            var released := Finalize(PollAll(failed, g, polls), g, borrowedAt, Failure(reason), now);
            var twice := failed.health.phase == CircuitOpen && polls != [] && Latest(polls) >= failed.health.circuitOpenUntil.value;
            && released.health.totalFailures == (if twice then Bump(Bump(r.health.totalFailures)) else Bump(r.health.totalFailures))
            && released.health.consecutiveFailures
               == if twice then Bump(Bump(r.health.consecutiveFailures)) else Bump(r.health.consecutiveFailures)
  {
    var failed := ApplyFailure(r, g, failedAt, reason, timedOut);
    PollingKeepsLease(failed, g, polls);
    if polls != [] {
      if failed.health.phase == CircuitOpen {
        OpenUntilDeadline(failed, g, polls);
      } else {
        PollingIsConfluent(failed, g, polls);
        var p := PollAll(failed, g, polls);
        assert Core(p).health.phase == Core(Reconcile(failed, g, Latest(polls))).health.phase == failed.health.phase;
      }
    }
  }
}
