/**
 Recorded failures over whole runs of one managed connection: when a failure is counted a second time on release, and
 when a connection that reconnects has a retry time.
 */
module ManagerFailures {
  import opened Prelude
  import opened Policy
  import opened Health
  import opened Manager
  import opened ManagerSafety

  /** The phases in which a release sees that a failure was recorded. */
  predicate ShowsFailure(phase: Phase) {
    phase == Reconnecting || phase == CircuitOpen || phase == Timeout
  }

  /** A poll at this time ends a wait that has run out. */
  predicate PollEndsWait(r: Record, now: Time) {
    (r.health.phase == CircuitOpen && Passed(r.health.circuitOpenUntil, now)) || (!r.inUse && RetryDue(r.health, now))
  }

  /** The step leaves the record in a phase that shows no failure. */
  predicate Hides(c: Conn, g: Governance, step: Step)
    requires Enabled(c, step)
  {
    match step
    case Poll(now) => PollEndsWait(c.rec, now)
    case Acquire(now, configOk) =>
      var v := AcquireVerdict(c, g, now, configOk);
      if v == Granted then c.rec.health.consecutiveFailures == 0
      else v == BadConfig || (v.RateRefused? && Unexpired(c.rec.health.rateLimitedUntil, now) == None)
           || PollEndsWait(c.rec, now)
    case DropGuard(i, outcome, now) => !Overdue(g, c.guards[i], now) && !outcome.Failure?
    case RecordFailure(_, _) => false
    case Heartbeat(_) => c.rec.health.phase !in {Invalid, CircuitOpen, RateLimited}
    case _ => true   // ConnectSuccess, MarkInvalid, Disconnect, ResetBreaker, MarkIdle
  }

  /** The loan of a connection with a streak shows its failures again. */
  predicate Regains(c: Conn, g: Governance, step: Step) {
    step.Acquire? && AcquireVerdict(c, g, step.now, step.configOk) == Granted && c.rec.health.consecutiveFailures > 0
  }

  // ---- One step ----

  lemma {:induction false} PollShows(r: Record, g: Governance, now: Time)
    ensures var q := Reconcile(r, g, now);
            && q.inUse == r.inUse && q.health.consecutiveFailures == r.health.consecutiveFailures
            && q.health.lastFailureAt == r.health.lastFailureAt
            && q.health.rateLimitedUntil == Unexpired(r.health.rateLimitedUntil, now)
            && (ShowsFailure(q.health.phase) <==> ShowsFailure(r.health.phase) && !PollEndsWait(r, now))
  {
  }

  lemma {:induction false} AcquireShows(c: Conn, g: Governance, now: Time, configOk: bool)
    ensures var step := Acquire(now, configOk);
            ShowsFailure(DoAcquire(c, g, now, configOk).rec.health.phase)
            <==> Regains(c, g, step) || (ShowsFailure(c.rec.health.phase) && !Hides(c, g, step))
  {
    PollShows(c.rec, g, now);
    var r := Reconcile(c.rec, g, now);
    VerdictShows(r, VerdictOn(r, c.attempts, g, now, configOk), g, now);
  }

  lemma {:induction false} VerdictShows(r: Record, v: Verdict, g: Governance, now: Time)
    ensures ShowsFailure(RecordAfter(r, v, g, now).health.phase) <==>
              if v == Granted then r.health.consecutiveFailures > 0
              else ShowsFailure(r.health.phase) && v != BadConfig && !(v.RateRefused? && r.health.rateLimitedUntil == None)
  {
  }

  /** What a step that records no failure does to what the phase shows. */
  lemma {:induction false} StepShows(c: Conn, g: Governance, step: Step)
    requires Enabled(c, step) && !Fails(c, g, step)
    ensures ShowsFailure(Do(c, g, step).rec.health.phase)
            <==> Regains(c, g, step) || (ShowsFailure(c.rec.health.phase) && !Hides(c, g, step))
  {
    match step
    case Acquire(now, configOk) => AcquireShows(c, g, now, configOk);
    case Poll(now) => PollShows(c.rec, g, now);
    case _ =>
  }

  lemma {:induction false} FailureShows(c: Conn, g: Governance, step: Step)
    requires Enabled(c, step) && Fails(c, g, step)
    ensures var h := Do(c, g, step).rec.health; ShowsFailure(h.phase) && h.lastFailureAt == Some(step.now)
  {
  }

  /** The time of the last failure only moves forward. */
  lemma {:induction false} StepKeepsFailureTime(c: Conn, g: Governance, step: Step)
    requires Enabled(c, step)
    ensures var at := Do(c, g, step).rec.health.lastFailureAt; at == c.rec.health.lastFailureAt || at == Some(step.now)
  {
    if step.Acquire? {
      PollShows(c.rec, g, step.now);
    } else if step.Poll? {
      PollShows(c.rec, g, step.now);
    }
  }

  // ---- A failure counted twice ----

  ghost function HideMarks(conns: seq<Conn>, steps: seq<Step>, g: Governance): (marks: seq<bool>)
    requires IsRun(conns, steps, g)
    ensures |marks| == |steps|
  {
    seq(|steps|, k requires 0 <= k < |steps| => Hides(conns[k], g, steps[k]))
  }

  ghost function RegainMarks(conns: seq<Conn>, steps: seq<Step>, g: Governance): (marks: seq<bool>)
    requires IsRun(conns, steps, g)
    ensures |marks| == |steps|
  {
    seq(|steps|, k requires 0 <= k < |steps| => Regains(conns[k], g, steps[k]))
  }

  /** Between i and j a step hides, and none after it shows. */
  predicate EndsHidden(hides: seq<bool>, regains: seq<bool>, i: nat, j: nat)
    requires j <= |hides| == |regains|
  {
    exists k :: i < k < j && hides[k] && forall l :: k < l < j ==> !regains[l]
  }

  /** Some step after step i and before step j hides the failure, and no loan after it shows it again. */
  ghost predicate Hidden(conns: seq<Conn>, steps: seq<Step>, g: Governance, i: nat, j: nat)
    requires IsRun(conns, steps, g) && i < j <= |steps|
  {
    EndsHidden(HideMarks(conns, steps, g), RegainMarks(conns, steps, g), i, j)
  }

  /** What is shown step by step is, in the end, what was not hidden for good. */
  lemma {:induction false} ShownIff(shows: seq<bool>, hides: seq<bool>, regains: seq<bool>, i: nat, j: nat)
    requires i < j <= |hides| == |regains| && j < |shows| && shows[i + 1]
    requires forall k :: i < k < j ==> shows[k + 1] == (regains[k] || (shows[k] && !hides[k])) && !(regains[k] && hides[k])
    ensures shows[j] <==> !EndsHidden(hides, regains, i, j)
    decreases j
  {
    if i + 1 < j {
      var n := j - 1;
      ShownIff(shows, hides, regains, i, n);
      assert shows[n + 1] == (regains[n] || (shows[n] && !hides[n]));
      if hides[n] {
        assert EndsHidden(hides, regains, i, j);
      } else if EndsHidden(hides, regains, i, n) && !regains[n] {
        var k :| i < k < n && hides[k] && forall l :: k < l < n ==> !regains[l];
        assert hides[k] && forall l :: k < l < j ==> !regains[l];
      }
    }
  }

  /** A loan that shows failures does not hide them. */
  lemma {:induction false} RegainsOrHides(c: Conn, g: Governance, step: Step)
    requires Enabled(c, step)
    ensures !(Regains(c, g, step) && Hides(c, g, step))
  {
  }

  predicate FailedSince(h: Snapshot, since: Time) {
    FailedAt(h) && h.lastFailureAt.value >= since
  }

  lemma {:induction false} ShowsNext(c: Conn, g: Governance, step: Step, d: Conn)
    requires Enabled(c, step) && !Fails(c, g, step) && d == Do(c, g, step)
    ensures ShowsFailure(d.rec.health.phase) == (Regains(c, g, step) || (ShowsFailure(c.rec.health.phase) && !Hides(c, g, step)))
    ensures !(Regains(c, g, step) && Hides(c, g, step))
  {
    StepShows(c, g, step);
    RegainsOrHides(c, g, step);
  }

  function Shows(conns: seq<Conn>): (shows: seq<bool>)
    ensures |shows| == |conns|
  {
    seq(|conns|, k requires 0 <= k < |conns| => ShowsFailure(conns[k].rec.health.phase))
  }

  lemma {:induction false} MarksNext(conns: seq<Conn>, steps: seq<Step>, g: Governance, k: nat)
    requires IsRun(conns, steps, g) && k < |steps| && !Fails(conns[k], g, steps[k])
    ensures var shows, hides, regains := Shows(conns), HideMarks(conns, steps, g), RegainMarks(conns, steps, g);
            shows[k + 1] == (regains[k] || (shows[k] && !hides[k])) && !(regains[k] && hides[k])
  {
    RunStep(conns, steps, g, k);
    ShowsNext(conns[k], g, steps[k], conns[k + 1]);
  }

  lemma {:induction false} ShownUntilHidden(conns: seq<Conn>, steps: seq<Step>, g: Governance, i: nat, j: nat)
    requires IsRun(conns, steps, g) && i < j <= |steps| && Fails(conns[i], g, steps[i])
    requires forall k :: i < k < j ==> !Fails(conns[k], g, steps[k])
    ensures ShowsFailure(conns[j].rec.health.phase) <==> !Hidden(conns, steps, g, i, j)
  {
    var shows, hides, regains := Shows(conns), HideMarks(conns, steps, g), RegainMarks(conns, steps, g);
    RunStep(conns, steps, g, i);
    FailureShows(conns[i], g, steps[i]);
    assert shows[i + 1];
    forall k | i < k < j
      ensures shows[k + 1] == (regains[k] || (shows[k] && !hides[k])) && !(regains[k] && hides[k])
    {
      MarksNext(conns, steps, g, k);
    }
    ShownIff(shows, hides, regains, i, j);
  }

  lemma {:induction false} PutOnRecord(conns: seq<Conn>, steps: seq<Step>, g: Governance, i: nat)
    requires IsRun(conns, steps, g) && i < |steps| && Fails(conns[i], g, steps[i])
    ensures FailedSince(conns[i + 1].rec.health, steps[i].now)
    ensures conns[i + 1].rec.health.totalFailures == Bump(conns[i].rec.health.totalFailures)
  {
    RunStep(conns, steps, g, i);
    FailureShows(conns[i], g, steps[i]);
    StepCounts(conns[i], g, steps[i]);
  }

  lemma {:induction false} KeptOnRecord(conns: seq<Conn>, steps: seq<Step>, g: Governance, k: nat, since: Time)
    requires IsRun(conns, steps, g) && k < |steps| && !Fails(conns[k], g, steps[k])
    requires FailedSince(conns[k].rec.health, since) && since <= steps[k].now
    ensures FailedSince(conns[k + 1].rec.health, since)
    ensures conns[k + 1].rec.health.totalFailures == conns[k].rec.health.totalFailures
  {
    RunStep(conns, steps, g, k);
    StepKeepsFailureTime(conns[k], g, steps[k]);
    StepCounts(conns[k], g, steps[k]);
  }

  /** Until the next failure the last one stays on record, and the total with it. */
  lemma {:induction false} StaysOnRecord(conns: seq<Conn>, steps: seq<Step>, g: Governance, i: nat, j: nat)
    requires IsRun(conns, steps, g) && i < j <= |steps| && Fails(conns[i], g, steps[i])
    requires forall k :: i < k < j ==> !Fails(conns[k], g, steps[k])
    ensures FailedSince(conns[j].rec.health, steps[i].now)
    ensures conns[j].rec.health.totalFailures == Bump(conns[i].rec.health.totalFailures)
    decreases j
  {
    if j == i + 1 {
      PutOnRecord(conns, steps, g, i);
    } else {
      var k := j - 1;
      StaysOnRecord(conns, steps, g, i, k);
      RunStep(conns, steps, g, k);
      KeptOnRecord(conns, steps, g, k, steps[i].now);
    }
  }

  lemma {:induction false} ReleaseNext(c: Conn, g: Governance, step: Step, d: Conn, since: Time, hidden: bool)
    requires Enabled(c, step) && step.DropGuard? && step.outcome.Failure? && d == Do(c, g, step)
    requires c.guards[step.guard] <= since && !Overdue(g, c.guards[step.guard], step.now)
    requires (ShowsFailure(c.rec.health.phase) <==> !hidden) && FailedSince(c.rec.health, since)
    ensures Fails(c, g, step) <==> hidden
    ensures d.rec.health.totalFailures == if hidden then Bump(c.rec.health.totalFailures) else c.rec.health.totalFailures
  {
    StepCounts(c, g, step);
  }

  /**
   Step i records a failure at or after the borrow time of a guard; nothing else records one until step j drops the
   guard with mark_failure, inside the operation timeout. Whatever other steps come in between, the failure is counted
   a second time iff one of them hides it and no later loan shows it again.
   */
  lemma {:induction false} CountedTwiceIff(conns: seq<Conn>, steps: seq<Step>, g: Governance, i: nat, j: nat)
    requires IsRun(conns, steps, g) && i < j < |steps| && Fails(conns[i], g, steps[i])
    requires forall k :: i < k < j ==> !Fails(conns[k], g, steps[k])
    requires steps[j].DropGuard? && steps[j].outcome.Failure?
    requires var borrowedAt := conns[j].guards[steps[j].guard];
             borrowedAt <= steps[i].now && !Overdue(g, borrowedAt, steps[j].now)
    ensures Fails(conns[j], g, steps[j]) <==> Hidden(conns, steps, g, i, j)
    ensures var once := Bump(conns[i].rec.health.totalFailures);
            conns[j + 1].rec.health.totalFailures == if Hidden(conns, steps, g, i, j) then Bump(once) else once
  {
    ShownUntilHidden(conns, steps, g, i, j);
    StaysOnRecord(conns, steps, g, i, j);
    RunStep(conns, steps, g, j);
    ReleaseNext(conns[j], g, steps[j], conns[j + 1], steps[i].now, Hidden(conns, steps, g, i, j));
  }

  /** The steps that put the time of a failure on record. */
  predicate Dates(c: Conn, g: Governance, step: Step)
    requires Enabled(c, step)
  {
    Fails(c, g, step) || step.MarkInvalid? || (step.Acquire? && !c.rec.inUse && !step.configOk)
  }

  lemma {:induction false} DatesNext(c: Conn, g: Governance, step: Step, d: Conn)
    requires Enabled(c, step) && d == Do(c, g, step) && !Dates(c, g, step)
    ensures d.rec.health.lastFailureAt == c.rec.health.lastFailureAt
  {
    if step.Acquire? {
      PollShows(c.rec, g, step.now);
    } else if step.Poll? {
      PollShows(c.rec, g, step.now);
    }
  }

  lemma {:induction false} NotDatedNext(conns: seq<Conn>, steps: seq<Step>, g: Governance, k: nat, since: Time)
    requires IsRun(conns, steps, g) && k < |steps| && !FailedSince(conns[k].rec.health, since)
    requires steps[k].now >= since ==> !Dates(conns[k], g, steps[k])
    ensures !FailedSince(conns[k + 1].rec.health, since)
  {
    RunStep(conns, steps, g, k);
    if Dates(conns[k], g, steps[k]) {
      StepKeepsFailureTime(conns[k], g, steps[k]);
    } else {
      DatesNext(conns[k], g, steps[k], conns[k + 1]);
    }
  }

  lemma {:induction false} NotDated(conns: seq<Conn>, steps: seq<Step>, g: Governance, j: nat, since: Time)
    requires IsRun(conns, steps, g) && j <= |steps|
    requires forall k :: 0 <= k < j && steps[k].now >= since ==> !Dates(conns[k], g, steps[k])
    ensures !FailedSince(conns[j].rec.health, since)
  {
    if j > 0 {
      NotDated(conns, steps, g, j - 1, since);
      NotDatedNext(conns, steps, g, j - 1, since);
    }
  }

  /**
   What failed before a lease does not excuse it: a release with mark_failure inside the timeout counts whenever no step
   since the borrow time recorded a failure or declared the connection invalid.
   */
  lemma {:induction false} FreshFailureCounts(conns: seq<Conn>, steps: seq<Step>, g: Governance, j: nat)
    requires IsRun(conns, steps, g) && j < |steps| && steps[j].DropGuard? && steps[j].outcome.Failure?
    requires var borrowedAt := conns[j].guards[steps[j].guard];
             forall k :: 0 <= k < j && steps[k].now >= borrowedAt ==> !Dates(conns[k], g, steps[k])
    ensures Fails(conns[j], g, steps[j])
    ensures conns[j + 1].rec.health.totalFailures == Bump(conns[j].rec.health.totalFailures)
  {
    NotDated(conns, steps, g, j, conns[j].guards[steps[j].guard]);
    RunStep(conns, steps, g, j);
    StepCounts(conns[j], g, steps[j]);
  }

  const LENT := Conn(Record(true, Some(0), FRESH.(phase := Connecting, lastStateChangedAt := Some(0))), [0], [0])

  lemma {:induction false} FreshLoan()
    ensures Do(Conn(Record(false, None, FRESH), [], []), DEFAULTS, Acquire(0, true)) == LENT
  {
    var c := Conn(Record(false, None, FRESH), [], []);
    assert VerdictOn(Reconcile(c.rec, DEFAULTS, 0), [], DEFAULTS, 0, true) == Granted;
  }

  const BEATEN := Conn(
    Record(true, Some(0), Snapshot(Healthy, Some(2), Some(2), Some(1), Some("connect failure"), Some(1 + Duration(800)), None, None,
                                   1, 1, 0, 0, 1)),
    [0], [0])

  lemma {:induction false} FailAndBeat()
    ensures var failed := Do(LENT, DEFAULTS, RecordFailure(1, false));
            Hides(failed, DEFAULTS, Heartbeat(2)) && Do(failed, DEFAULTS, Heartbeat(2)) == BEATEN
  {
    assert ReconnectDelayMs(DEFAULTS, 1) == 800 by {
      assert Pow2(0) == 1;
    }
  }

  lemma {:induction false} BeatenCountsAgain()
    ensures var released := Do(BEATEN, DEFAULTS, DropGuard(0, Failure("x"), 3));
            released.rec.health.totalFailures == released.rec.health.consecutiveFailures == 2
  {
  }

  /** A heartbeat is enough: borrow, fail, heartbeat, release with mark_failure counts the one failure twice. */
  lemma {:induction false} HeartbeatCountsTwice()
    ensures var c := Conn(Record(false, None, FRESH), [], []);
            var lent := Do(c, DEFAULTS, Acquire(0, true));
            var failed := Do(lent, DEFAULTS, RecordFailure(1, false));
            var beat := Do(failed, DEFAULTS, Heartbeat(2));
            && beat.guards == [0] && Hides(failed, DEFAULTS, Heartbeat(2))
            && var released := Do(beat, DEFAULTS, DropGuard(0, Failure("x"), 3));
               released.rec.health.totalFailures == released.rec.health.consecutiveFailures == 2
  {
    FreshLoan();
    FailAndBeat();
    BeatenCountsAgain();
  }

  // ---- Reconnecting with a retry time ----

  /** The retry time of the last failure is set and its wait is not over, and the streak is short. */
  predicate RetryPending(h: Snapshot, g: Governance, now: Time) {
    && FailedAt(h) && h.consecutiveFailures < g.circuitFailureThreshold && !RetryDue(h, now)
    && h.nextRetryAt == Some(h.lastFailureAt.value + Duration(ReconnectDelayMs(g, h.reconnectAttempts)))
  }

  /** A loan after failures is Reconnecting; it has a retry time iff one was pending. */
  lemma {:induction false} LoanBacksOffIff(c: Conn, g: Governance, step: Step)
    requires Regains(c, g, step)
    ensures var h := Do(c, g, step).rec.health;
            h.phase == Reconnecting && (BackingOff(h, g) <==> RetryPending(c.rec.health, g, step.now))
  {
    var now := step.now;
    var r := Reconcile(c.rec, g, now);
    ReconcileIsPolled(c.rec, g, now);
    var p := Polled(c.rec.health, g, c.rec.inUse, now);
    assert r.inUse == c.rec.inUse == false;
    assert r.health.(lastStateChangedAt := None) == p;
    assert r.health.circuitOpenUntil == None;
  }

  /** Borrowed while it backs off, a connection goes on backing off iff the wait is not over. */
  lemma {:induction false} LoanWhileBackingOff(c: Conn, g: Governance, step: Step)
    requires Regains(c, g, step) && BackingOff(c.rec.health, g)
    requires c.rec.health.phase == Reconnecting || c.rec.health.phase == Timeout
    ensures BackingOff(Do(c, g, step).rec.health, g) <==> step.now < c.rec.health.nextRetryAt.value
  {
    LoanBacksOffIff(c, g, step);
  }

  /** The steps that enter Reconnecting: a recorded failure and a loan after failures. */
  ghost predicate Enters(c: Conn, g: Governance, step: Step)
    requires Enabled(c, step)
  {
    Fails(c, g, step) || Regains(c, g, step)
  }

  lemma {:induction false} EnteredBacksOffIff(c: Conn, g: Governance, step: Step, d: Conn)
    requires Enabled(c, step) && Enters(c, g, step) && d == Do(c, g, step) && d.rec.health.phase == Reconnecting
    ensures BackingOff(d.rec.health, g) <==> EntrySetsRetry(c, g, step)
  {
    if Regains(c, g, step) {
      LoanBacksOffIff(c, g, step);
    }
  }

  lemma {:induction false} PollStaysReconnecting(r: Record, g: Governance, now: Time)
    requires Reconcile(r, g, now).health.phase == Reconnecting
    requires r.health.phase == Reconnecting ==> r.health.circuitOpenUntil == None
    ensures r.health.phase == Reconnecting
    ensures BackingOff(Reconcile(r, g, now).health, g) <==> BackingOff(r.health, g)
  {
  }

  lemma {:induction false} AcquireStaysReconnecting(c: Conn, g: Governance, now: Time, configOk: bool)
    requires !Regains(c, g, Acquire(now, configOk)) && DoAcquire(c, g, now, configOk).rec.health.phase == Reconnecting
    requires c.rec.health.phase == Reconnecting ==> c.rec.health.circuitOpenUntil == None
    ensures c.rec.health.phase == Reconnecting
    ensures BackingOff(DoAcquire(c, g, now, configOk).rec.health, g) <==> BackingOff(c.rec.health, g)
  {
    PollShows(c.rec, g, now);
    var r := Reconcile(c.rec, g, now);
    assert DoAcquire(c, g, now, configOk).rec.health == r.health;
    PollStaysReconnecting(c.rec, g, now);
  }

  /** Any other step leaves a connection that stays Reconnecting as it was. */
  lemma {:induction false} StaysReconnecting(c: Conn, g: Governance, step: Step, d: Conn)
    requires Enabled(c, step) && !Enters(c, g, step) && d == Do(c, g, step) && d.rec.health.phase == Reconnecting
    requires PhaseFits(c.rec, g)
    ensures c.rec.health.phase == Reconnecting
    ensures BackingOff(d.rec.health, g) <==> BackingOff(c.rec.health, g)
  {
    match step
    case Acquire(now, configOk) => AcquireStaysReconnecting(c, g, now, configOk);
    case Poll(now) => PollStaysReconnecting(c.rec, g, now);
    case _ =>
  }

  /** The step records a failure, or lends the connection while a retry is pending. */
  predicate EntrySetsRetry(c: Conn, g: Governance, step: Step)
    requires Enabled(c, step)
  {
    Fails(c, g, step) || RetryPending(c.rec.health, g, step.now)
  }

  /** The last of the first k steps that enters Reconnecting, or -1. */
  ghost function LastEntry(conns: seq<Conn>, steps: seq<Step>, g: Governance, k: nat): int
    requires IsRun(conns, steps, g) && k <= |steps|
  {
    if k == 0 then -1
    else if Enters(conns[k - 1], g, steps[k - 1]) then k - 1
    else LastEntry(conns, steps, g, k - 1)
  }

  lemma {:induction false} EntryNext(conns: seq<Conn>, steps: seq<Step>, g: Governance, k: nat)
    requires IsRun(conns, steps, g) && k < |steps| && conns[k + 1].rec.health.phase == Reconnecting
    requires Enters(conns[k], g, steps[k])
    ensures BackingOff(conns[k + 1].rec.health, g) <==> EntrySetsRetry(conns[k], g, steps[k])
  {
    RunStep(conns, steps, g, k);
    EnteredBacksOffIff(conns[k], g, steps[k], conns[k + 1]);
  }

  lemma {:induction false} StayNext(conns: seq<Conn>, steps: seq<Step>, g: Governance, k: nat)
    requires IsRun(conns, steps, g) && k < |steps| && conns[k + 1].rec.health.phase == Reconnecting
    requires !Enters(conns[k], g, steps[k])
    ensures conns[k].rec.health.phase == Reconnecting
    ensures BackingOff(conns[k + 1].rec.health, g) <==> BackingOff(conns[k].rec.health, g)
  {
    RunStep(conns, steps, g, k);
    RunsAreWellShaped(conns, steps, g, k);
    StaysReconnecting(conns[k], g, steps[k], conns[k + 1]);
  }

  /**
   In any reachable state that is Reconnecting, the retry time of the last failure is set and no deadline is open iff the
   last step that entered the phase recorded a failure, or lent the connection while a retry was pending.
   */
  lemma {:induction false} ReconnectingBacksOffIff(conns: seq<Conn>, steps: seq<Step>, g: Governance, k: nat)
    requires IsRun(conns, steps, g) && k <= |steps| && conns[k].rec.health.phase == Reconnecting
    ensures var i := LastEntry(conns, steps, g, k);
            && 0 <= i < k
            && (BackingOff(conns[k].rec.health, g) <==> EntrySetsRetry(conns[i], g, steps[i]))
  {
    if k > 0 {
      if Enters(conns[k - 1], g, steps[k - 1]) {
        EntryNext(conns, steps, g, k - 1);
      } else {
        StayNext(conns, steps, g, k - 1);
        ReconnectingBacksOffIff(conns, steps, g, k - 1);
      }
    }
  }
}
