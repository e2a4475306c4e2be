/** What each operation leaves a connection in, and where a healthy connection comes from. */
module ManagerPhases {
  import opened Prelude
  import opened Policy
  import opened Health
  import opened Manager

  /** More than the operation timeout, in whole milliseconds, has passed since the loan. */
  predicate Late(g: Governance, borrowedAt: Time, now: Time) {
    now - borrowedAt >= (g.operationTimeoutMs + 1) * 1_000_000
  }

  lemma {:induction false} LateIff(g: Governance, borrowedAt: Time, now: Time)
    ensures Overdue(g, borrowedAt, now) <==> Late(g, borrowedAt, now)
  {
  }

  /** The phase after a counted failure: the threshold opens the circuit; below it only a timeout leads to Timeout. */
  predicate FailurePhase(h: Snapshot, g: Governance, timedOut: bool, phase: Phase) {
    phase == if Min(h.consecutiveFailures + 1, 0xFFFF_FFFF) >= g.circuitFailureThreshold then CircuitOpen
             else if timedOut then Timeout
             else Reconnecting
  }

  /** A failure of this lease is already on record. */
  predicate OnRecord(h: Snapshot, borrowedAt: Time) {
    h.phase in {Reconnecting, CircuitOpen, Timeout} && h.lastFailureAt.Some? && h.lastFailureAt.value >= borrowedAt
  }

  /** Streak and deadlines are gone. */
  predicate Cleared(h: Snapshot) {
    && h.consecutiveFailures == 0 && h.reconnectAttempts == 0
    && h.nextRetryAt == None && h.rateLimitedUntil == None && h.circuitOpenUntil == None
  }

  /**
   A release gives the connection back. Inside the timeout a success leaves it Healthy, an unmarked guard Degraded, and a
   failure counts unless it is on record; a late release is a timeout whatever it was marked.
   */
  lemma {:induction false} ReleasePhase(c: Conn, g: Governance, step: Step)
    requires Enabled(c, step) && step.DropGuard?
    ensures var h, h' := c.rec.health, Do(c, g, step).rec.health;
            var borrowedAt := c.guards[step.guard];
            && !Do(c, g, step).rec.inUse && Do(c, g, step).guards == c.guards[..step.guard] + c.guards[step.guard + 1..]
            && (if Late(g, borrowedAt, step.now) then FailurePhase(h, g, true, h'.phase)
                else match step.outcome
                     case Success => h'.phase == Healthy && h'.lastHeartbeatAt == Some(step.now) && Cleared(h')
                     case Pending => h'.phase == Degraded
                     case Failure(_) => if OnRecord(h, borrowedAt) then h' == h else FailurePhase(h, g, false, h'.phase))
  {
    LateIff(g, c.guards[step.guard], step.now);
  }

  /** The other operations that set the phase outright. */
  lemma {:induction false} OperationPhase(c: Conn, g: Governance, step: Step)
    requires Enabled(c, step) && !step.Acquire? && !step.Poll? && !step.DropGuard?
    ensures var h, h', inUse := c.rec.health, Do(c, g, step).rec.health, Do(c, g, step).rec.inUse;
            match step
            case RecordFailure(_, timedOut) => FailurePhase(h, g, timedOut, h'.phase) && inUse == c.rec.inUse
            case ConnectSuccess(now) => h'.phase == Healthy && h'.lastHeartbeatAt == Some(now) && Cleared(h') && inUse == c.rec.inUse
            case Heartbeat(now) =>
              && h'.lastHeartbeatAt == Some(now) && inUse == c.rec.inUse
              && h'.phase == if h.phase in {Invalid, CircuitOpen, RateLimited} then h.phase
                             else if c.rec.inUse then Healthy else Degraded
            case MarkInvalid(now) => h'.phase == Invalid && h'.lastFailureAt == Some(now) && !inUse
            case Disconnect(_) => h'.phase == Disconnected && !inUse
            case ResetBreaker(_) => h'.phase == Idle && Cleared(h') && inUse == c.rec.inUse
            case MarkIdle(_) =>
              && h'.nextRetryAt == None && !inUse
              && h'.phase == if h.phase == Invalid then Invalid
                             else if h.lastFailureReason.Some?
                                     && h.phase !in {Idle, Connecting, Healthy, Degraded} then Degraded
                             else Idle
            case _ => true
  {
  }

  /** A poll ends waits that have run out, gives up idle dials, and notices silence. */
  lemma {:induction false} PollPhase(r: Record, g: Governance, now: Time)
    ensures var h, h' := r.health, Reconcile(r, g, now).health;
            var past := (d: Option<Time>) => d.Some? && d.value <= now;
            && Reconcile(r, g, now).inUse == r.inUse
            && h'.phase == (
                 if (h.phase == RateLimited && past(h.rateLimitedUntil)) || (h.phase == CircuitOpen && past(h.circuitOpenUntil)) then Idle
                 else if r.inUse then h.phase
                 else if h.phase == Connecting || (h.phase in {Reconnecting, Timeout} && past(h.nextRetryAt)) then Idle
                 else if h.phase == Healthy && h.lastHeartbeatAt.Some?
                         && now - h.lastHeartbeatAt.value >= (g.heartbeatTimeoutMs + 1) * 1_000_000 then Degraded
                 else h.phase)
            && h'.lastStateChangedAt == (if h'.phase == h.phase then h.lastStateChangedAt else Some(now))
  {
  }

  // ---- Runs ----

  /** A release inside the timeout leaves the connection Healthy iff it was marked a success. */
  lemma {:induction false} HealthyReleaseIff(conns: seq<Conn>, steps: seq<Step>, g: Governance, k: nat)
    requires IsRun(conns, steps, g) && k < |steps| && steps[k].DropGuard?
    requires !Late(g, conns[k].guards[steps[k].guard], steps[k].now)
    ensures conns[k + 1].rec.health.phase == Healthy <==> steps[k].outcome == Success
    ensures steps[k].outcome == Pending ==> conns[k + 1].rec.health.phase == Degraded
    ensures !conns[k + 1].rec.inUse
  {
    assert conns[k + 1] == Do(conns[k], g, steps[k]);
    ReleasePhase(conns[k], g, steps[k]);
  }

  /** The steps that make a connection healthy. */
  predicate MakesHealthy(c: Conn, g: Governance, step: Step)
    requires Enabled(c, step)
  {
    match step
    case ConnectSuccess(_) => true
    case DropGuard(i, outcome, now) => outcome == Success && !Late(g, c.guards[i], now)
    case Heartbeat(_) => c.rec.inUse && c.rec.health.phase !in {Invalid, CircuitOpen, RateLimited}
    case _ => false
  }

  lemma {:induction false} HealthyStep(c: Conn, g: Governance, step: Step, d: Conn)
    requires Enabled(c, step) && d == Do(c, g, step)
    ensures MakesHealthy(c, g, step) ==> d.rec.health.phase == Healthy
    ensures d.rec.health.phase == Healthy ==> MakesHealthy(c, g, step) || c.rec.health.phase == Healthy
  {
    if step.DropGuard? {
      ReleasePhase(c, g, step);
    } else if step.Acquire? {
      PollPhase(c.rec, g, step.now);
      VerdictHealthy(Reconcile(c.rec, g, step.now), VerdictOn(Reconcile(c.rec, g, step.now), c.attempts, g, step.now, step.configOk), g, step.now);
    } else if step.Poll? {
      PollPhase(c.rec, g, step.now);
    } else {
      OperationPhase(c, g, step);
    }
  }

  lemma {:induction false} VerdictHealthy(r: Record, v: Verdict, g: Governance, now: Time)
    ensures RecordAfter(r, v, g, now).health.phase == Healthy ==> r.health.phase == Healthy
  {
  }

  lemma {:induction false} HealthyNext(conns: seq<Conn>, steps: seq<Step>, g: Governance, k: nat)
    requires IsRun(conns, steps, g) && k < |steps| && conns[k + 1].rec.health.phase == Healthy
    ensures MakesHealthy(conns[k], g, steps[k]) || conns[k].rec.health.phase == Healthy
  {
    assert Enabled(conns[k], steps[k]) && conns[k + 1] == Do(conns[k], g, steps[k]);
    HealthyStep(conns[k], g, steps[k], conns[k + 1]);
  }

  function HealthMarks(conns: seq<Conn>): (marks: seq<bool>)
    ensures |marks| == |conns|
  {
    seq(|conns|, k requires 0 <= k < |conns| => conns[k].rec.health.phase == Healthy)
  }

  ghost function MakeMarks(conns: seq<Conn>, steps: seq<Step>, g: Governance): (marks: seq<bool>)
    requires IsRun(conns, steps, g)
    ensures |marks| == |steps|
  {
    seq(|steps|, k requires 0 <= k < |steps| => MakesHealthy(conns[k], g, steps[k]))
  }

  /** A mark that holds has held since a step that made it hold. */
  lemma {:induction false} HeldSince(holds: seq<bool>, makes: seq<bool>, k: nat) returns (i: nat)
    requires k < |holds| == |makes| + 1 && !holds[0] && holds[k]
    requires forall l :: 0 <= l < |makes| && holds[l + 1] ==> makes[l] || holds[l]
    ensures i < k && makes[i] && forall l :: i < l <= k ==> holds[l]
  {
    var n := k - 1;
    assert holds[n + 1];
    if makes[n] {
      i := n;
    } else {
      i := HeldSince(holds, makes, n);
    }
  }

  /**
   A healthy connection in a reachable state has been healthy since a success release inside the timeout, a connect
   success, or a heartbeat during a lease.
   */
  lemma {:induction false} HealthySince(conns: seq<Conn>, steps: seq<Step>, g: Governance, k: nat) returns (i: nat)
    requires IsRun(conns, steps, g) && k <= |steps| && conns[k].rec.health.phase == Healthy
    ensures i < k && MakesHealthy(conns[i], g, steps[i])
    ensures forall l :: i < l <= k ==> conns[l].rec.health.phase == Healthy
  {
    var holds, makes := HealthMarks(conns), MakeMarks(conns, steps, g);
    forall l | 0 <= l < |makes| && holds[l + 1] ensures makes[l] || holds[l] {
      HealthyNext(conns, steps, g, l);
    }
    i := HeldSince(holds, makes, k);
    assert makes[i];
    forall l | i < l <= k ensures conns[l].rec.health.phase == Healthy {
      assert holds[l];
    }
  }
}
