/** When a connection is lent: the verdict of every acquire, over whole runs. */
module ManagerLoans {
  import opened Prelude
  import opened Policy
  import opened Health
  import opened Manager
  import opened ManagerSafety

  predicate Pending(deadline: Option<Time>, now: Time) {
    deadline.Some? && deadline.value > now
  }

  /** The attempts of the window, counted from its start. */
  function Recent(times: seq<Time>, from: Time): nat {
    if times == [] then 0 else Recent(times[..|times| - 1], from) + if times[|times| - 1] >= from then 1 else 0
  }

  predicate Sorted(times: seq<Time>) {
    forall i, j :: 0 <= i < j < |times| ==> times[i] <= times[j]
  }

  /**
   What an acquire answers, from the record as it was before: busy first, then a bad configuration, then a pending
   circuit deadline, then a pending cooldown, then the limiter.
   */
  lemma {:induction false} VerdictIff(c: Conn, g: Governance, now: Time, configOk: bool)
    ensures var h, v := c.rec.health, AcquireVerdict(c, g, now, configOk);
            if c.rec.inUse then v == Busy
            else if !configOk then v == BadConfig
            else if Pending(h.circuitOpenUntil, now) then v == CircuitRefused((h.circuitOpenUntil.value - now) / 1_000_000)
            else if Pending(h.rateLimitedUntil, now) then v == RateRefused((h.rateLimitedUntil.value - now) / 1_000_000)
            else if |Prune(c.attempts, now - Duration(g.rateLimitWindowMs))| < g.rateLimitMaxAttempts then v == Granted
            else v == RateRefused(g.rateLimitCooldownMs)
  {
    ReconcileIsPolled(c.rec, g, now);
    var r := Reconcile(c.rec, g, now);
    assert r.inUse == c.rec.inUse;
    assert r.health.(lastStateChangedAt := None) == Polled(c.rec.health, g, c.rec.inUse, now);
    assert r.health.circuitOpenUntil == Unexpired(c.rec.health.circuitOpenUntil, now);
    assert r.health.rateLimitedUntil == Unexpired(c.rec.health.rateLimitedUntil, now);
  }

  /** What an acquire does to the lease: only a grant hands out a guard, marked with the time of the loan. */
  lemma {:induction false} AcquireEffect(c: Conn, g: Governance, now: Time, configOk: bool)
    ensures var d, v := DoAcquire(c, g, now, configOk), AcquireVerdict(c, g, now, configOk);
            && d.guards == (if v == Granted then c.guards + [now] else c.guards)
            && d.rec.inUse == (v == Granted || v == Busy)
            && (v == Granted ==> d.rec.lastBorrowedAt == Some(now)
                                 && d.rec.health.phase == if c.rec.health.consecutiveFailures > 0 then Reconnecting else Connecting)
            && (v == BadConfig ==> d.rec.health.phase == Invalid)
  {
    VerdictIff(c, g, now, configOk);
    ReconcileIsPolled(c.rec, g, now);
    var r := Reconcile(c.rec, g, now);
    assert r.inUse == c.rec.inUse;
    assert r.health.(lastStateChangedAt := None) == Polled(c.rec.health, g, c.rec.inUse, now);
  }

  /** A refusal by the limiter starts the cooldown. */
  lemma {:induction false} LimitStartsCooldown(c: Conn, g: Governance, now: Time, configOk: bool)
    requires AcquireVerdict(c, g, now, configOk).RateRefused? && !Pending(c.rec.health.rateLimitedUntil, now)
    ensures var h := DoAcquire(c, g, now, configOk).rec.health;
            && h.phase == RateLimited && h.rateLimitedUntil == Some(now + Duration(g.rateLimitCooldownMs))
            && h.rateLimitHits == Bump(c.rec.health.rateLimitHits)
  {
    VerdictIff(c, g, now, configOk);
    ReconcileIsPolled(c.rec, g, now);
    var r := Reconcile(c.rec, g, now);
    assert r.health.(lastStateChangedAt := None) == Polled(c.rec.health, g, c.rec.inUse, now);
    assert r.health.rateLimitedUntil == None;
  }

  // ---- The limiter counts loans ----

  lemma {:induction false} RecentNone(times: seq<Time>, from: Time)
    requires forall i :: 0 <= i < |times| ==> times[i] < from
    ensures Recent(times, from) == 0
  {
    if times != [] {
      RecentNone(times[..|times| - 1], from);
    }
  }

  lemma {:induction false} RecentAll(times: seq<Time>, from: Time)
    requires forall i :: 0 <= i < |times| ==> times[i] >= from
    ensures Recent(times, from) == |times|
  {
    if times != [] {
      RecentAll(times[..|times| - 1], from);
    }
  }

  lemma {:induction false} RecentParts(a: seq<Time>, b: seq<Time>, from: Time)
    ensures Recent(a + b, from) == Recent(a, from) + Recent(b, from)
  {
    if b == [] {
      assert a + b == a;
    } else {
      assert (a + b)[..|a + b| - 1] == a + b[..|b| - 1];
      RecentParts(a, b[..|b| - 1], from);
    }
  }

  /** Pruning sorted attempts keeps exactly those not older than the cutoff. */
  lemma {:induction false} PruneKeepsRecent(attempts: seq<Time>, cutoff: Time)
    requires Sorted(attempts)
    ensures |Prune(attempts, cutoff)| == Recent(attempts, cutoff)
  {
    if attempts != [] && attempts[0] < cutoff {
      assert attempts == [attempts[0]] + attempts[1..];
      RecentParts([attempts[0]], attempts[1..], cutoff);
      assert [attempts[0]][..0] == [];
      PruneKeepsRecent(attempts[1..], cutoff);
    } else {
      forall i | 0 <= i < |attempts| ensures attempts[i] >= cutoff {
        assert i == 0 || attempts[0] <= attempts[i];
      }
      RecentAll(attempts, cutoff);
    }
  }

  lemma {:induction false} LoansAreSorted(conns: seq<Conn>, steps: seq<Step>, g: Governance, k: nat)
    requires IsRun(conns, steps, g) && steps != [] && k <= |steps|
    ensures Sorted(Loans(conns, steps, g, k))
    ensures forall i :: 0 <= i < |Loans(conns, steps, g, k)| ==> Loans(conns, steps, g, k)[i] <= Clock(steps, k)
  {
    if k > 0 {
      LoansAreSorted(conns, steps, g, k - 1);
      assert Clock(steps, k - 1) <= steps[k - 1].now == Clock(steps, k);
    }
  }

  /** The window of attempts counts the loans of the run. */
  lemma {:induction false} WindowCountsLoans(attempts: seq<Time>, loans: seq<Time>, width: Time, clock: Time, now: Time)
    requires Window(attempts, loans, width, clock) && Sorted(loans) && clock <= now
    ensures |Prune(attempts, now - width)| == Recent(loans, now - width)
  {
    var gone := loans[..|loans| - |attempts|];
    assert loans == gone + attempts;
    RecentParts(gone, attempts, now - width);
    forall i | 0 <= i < |gone| ensures gone[i] < now - width {
      assert gone[i] == loans[i];
    }
    RecentNone(gone, now - width);
    forall i, j | 0 <= i < j < |attempts| ensures attempts[i] <= attempts[j] {
      assert attempts[i] == loans[|gone| + i] && attempts[j] == loans[|gone| + j];
    }
    PruneKeepsRecent(attempts, now - width);
  }

  lemma {:induction false} LoanFacts(conns: seq<Conn>, steps: seq<Step>, g: Governance, j: nat)
    requires IsRun(conns, steps, g) && j < |steps|
    ensures var loans := Loans(conns, steps, g, j);
            && Window(conns[j].attempts, loans, Duration(g.rateLimitWindowMs), Clock(steps, j)) && Sorted(loans)
            && Clock(steps, j) <= steps[j].now
  {
    LoansAreSpaced(conns, steps, g, j);
    LoansAreSorted(conns, steps, g, j);
  }

  lemma {:induction false} LimiterCountsLoans(conns: seq<Conn>, steps: seq<Step>, g: Governance, j: nat)
    requires IsRun(conns, steps, g) && j < |steps|
    ensures var from := steps[j].now - Duration(g.rateLimitWindowMs);
            |Prune(conns[j].attempts, from)| == Recent(Loans(conns, steps, g, j), from)
  {
    LoanFacts(conns, steps, g, j);
    WindowCountsLoans(conns[j].attempts, Loans(conns, steps, g, j), Duration(g.rateLimitWindowMs), Clock(steps, j), steps[j].now);
  }

  /** The connection is free and in order, nothing is pending, and the limiter has room after `recent` loans. */
  predicate MayBorrow(c: Conn, g: Governance, now: Time, configOk: bool, recent: nat) {
    && !c.rec.inUse && configOk
    && !Pending(c.rec.health.circuitOpenUntil, now) && !Pending(c.rec.health.rateLimitedUntil, now)
    && recent < g.rateLimitMaxAttempts
  }

  lemma {:induction false} GrantedAtIff(c: Conn, g: Governance, now: Time, configOk: bool, recent: nat)
    requires recent == |Prune(c.attempts, now - Duration(g.rateLimitWindowMs))|
    ensures AcquireVerdict(c, g, now, configOk) == Granted <==> MayBorrow(c, g, now, configOk, recent)
  {
    VerdictIff(c, g, now, configOk);
  }

  /**
   In any run an acquire is granted iff the connection is free, its configuration is good, no circuit deadline and no
   cooldown is pending, and fewer than the allowed number of loans were made within the window.
   */
  lemma {:induction false} GrantedIff(conns: seq<Conn>, steps: seq<Step>, g: Governance, j: nat)
    requires IsRun(conns, steps, g) && j < |steps| && steps[j].Acquire?
    ensures AcquireVerdict(conns[j], g, steps[j].now, steps[j].configOk) == Granted <==>
            MayBorrow(conns[j], g, steps[j].now, steps[j].configOk,
                      Recent(Loans(conns, steps, g, j), steps[j].now - Duration(g.rateLimitWindowMs)))
  {
    var recent := Recent(Loans(conns, steps, g, j), steps[j].now - Duration(g.rateLimitWindowMs));
    LimiterCountsLoans(conns, steps, g, j);
    GrantedAtIff(conns[j], g, steps[j].now, steps[j].configOk, recent);
  }

  // ---- Cooldown ----

  /** Before its end a cooldown can only be lifted by a success or a manual reset. */
  lemma {:induction false} CooldownHolds(c: Conn, g: Governance, step: Step, d: Conn, deadline: Time)
    requires Enabled(c, step) && d == Do(c, g, step) && step.now < deadline && !Clears(c, g, step)
    requires c.rec.health.rateLimitedUntil == Some(deadline)
    ensures d.rec.health.rateLimitedUntil == Some(deadline)
  {
    if step.Acquire? {
      CooldownAtAcquire(c, g, step.now, step.configOk, deadline);
    } else if step.Poll? {
      PollKeepsCooldown(c.rec, g, step.now, deadline);
    }
  }

  lemma {:induction false} PollKeepsCooldown(r: Record, g: Governance, now: Time, deadline: Time)
    requires r.health.rateLimitedUntil == Some(deadline) && now < deadline
    ensures Reconcile(r, g, now).health.rateLimitedUntil == Some(deadline)
  {
  }

  lemma {:induction false} CooldownAtAcquire(c: Conn, g: Governance, now: Time, configOk: bool, deadline: Time)
    requires c.rec.health.rateLimitedUntil == Some(deadline) && now < deadline
    ensures DoAcquire(c, g, now, configOk).rec.health.rateLimitedUntil == Some(deadline)
    ensures AcquireVerdict(c, g, now, configOk) != Granted
  {
    PollKeepsCooldown(c.rec, g, now, deadline);
    VerdictIff(c, g, now, configOk);
  }

  lemma {:induction false} CooldownNext(conns: seq<Conn>, steps: seq<Step>, g: Governance, k: nat, deadline: Time)
    requires IsRun(conns, steps, g) && k < |steps| && steps[k].now < deadline && !Clears(conns[k], g, steps[k])
    requires conns[k].rec.health.rateLimitedUntil == Some(deadline)
    ensures conns[k + 1].rec.health.rateLimitedUntil == Some(deadline)
  {
    RunStep(conns, steps, g, k);
    CooldownHolds(conns[k], g, steps[k], conns[k + 1], deadline);
  }

  lemma {:induction false} CooldownStays(conns: seq<Conn>, steps: seq<Step>, g: Governance, i: nat, j: nat, deadline: Time)
    requires IsRun(conns, steps, g) && i <= j <= |steps|
    requires conns[i].rec.health.rateLimitedUntil == Some(deadline)
    requires forall k :: i <= k < j ==> steps[k].now < deadline && !Clears(conns[k], g, steps[k])
    ensures conns[j].rec.health.rateLimitedUntil == Some(deadline)
    decreases j
  {
    if i < j {
      var k := j - 1;
      CooldownStays(conns, steps, g, i, k, deadline);
      CooldownNext(conns, steps, g, k, deadline);
    }
  }

  /** Over whole runs nobody borrows during a cooldown unless a success or a reset lifted it. */
  lemma {:induction false} NoLeaseDuringCooldown(conns: seq<Conn>, steps: seq<Step>, g: Governance, i: nat, j: nat, deadline: Time)
    requires IsRun(conns, steps, g) && i <= j < |steps| && steps[j].Acquire? && steps[j].now < deadline
    requires conns[i].rec.health.rateLimitedUntil == Some(deadline)
    requires forall k :: i <= k < j ==> !Clears(conns[k], g, steps[k])
    ensures AcquireVerdict(conns[j], g, steps[j].now, steps[j].configOk) != Granted
    ensures conns[j + 1].guards == conns[j].guards
  {
    forall k | i <= k < j ensures steps[k].now < deadline {
      assert steps[k].now <= steps[j].now;
    }
    CooldownStays(conns, steps, g, i, j, deadline);
    assert conns[j + 1] == Do(conns[j], g, steps[j]);
    CooldownAtAcquire(conns[j], g, steps[j].now, steps[j].configOk, deadline);
  }
}
