/**
 Connection governance: validation of the declared values, clamping at run time and the reconnect delay
 (crates/dsl-core/src/connection.rs, crates/connections/src/policy.rs).
 */
module Policy {
  import opened Prelude

  /** Declared values and effective values have the same fields; milliseconds are u64, counts u32. */
  datatype Governance = Governance(
    connectTimeoutMs: nat,
    operationTimeoutMs: nat,
    heartbeatIntervalMs: nat,
    heartbeatTimeoutMs: nat,
    rateLimitMaxAttempts: nat,
    rateLimitWindowMs: nat,
    rateLimitCooldownMs: nat,
    circuitFailureThreshold: nat,
    circuitOpenMs: nat,
    reconnectBaseMs: nat,
    reconnectMaxMs: nat)

  const DEFAULTS := Governance(3_000, 5_000, 3_000, 12_000, 8, 10_000, 4_000, 3, 15_000, 800, 8_000)

  /** The machine widths of the fields. */
  predicate Fits(g: Governance) {
    && g.connectTimeoutMs <= U64_MAX && g.operationTimeoutMs <= U64_MAX
    && g.heartbeatIntervalMs <= U64_MAX && g.heartbeatTimeoutMs <= U64_MAX
    && g.rateLimitMaxAttempts <= U32_MAX && g.rateLimitWindowMs <= U64_MAX && g.rateLimitCooldownMs <= U64_MAX
    && g.circuitFailureThreshold <= U32_MAX && g.circuitOpenMs <= U64_MAX
    && g.reconnectBaseMs <= U64_MAX && g.reconnectMaxMs <= U64_MAX
  }

  predicate Validates(g: Governance) {
    && g.connectTimeoutMs > 0 && g.operationTimeoutMs > 0
    && g.heartbeatIntervalMs > 0 && g.heartbeatTimeoutMs > 0
    && g.rateLimitMaxAttempts > 0 && g.rateLimitWindowMs > 0 && g.rateLimitCooldownMs > 0
    && g.circuitFailureThreshold > 0 && g.circuitOpenMs > 0
    && g.reconnectBaseMs > 0 && g.reconnectMaxMs > 0
    && g.heartbeatTimeoutMs > g.heartbeatIntervalMs
    && g.reconnectMaxMs >= g.reconnectBaseMs
  }

  // ---- Reading the metadata ----

  function Field(v: Value, key: string): Option<Value> {
    if v.Object? && key in v.fields then Some(v.fields[key]) else None
  }

  function GovernanceValue(metadata: Value, key: string): Option<Value> {
    var g := Field(metadata, "governance");
    if g.None? then None else Field(g.value, key)
  }

  /** `as_u64`, then the width, then the fallback. */
  function Unsigned(v: Option<Value>, width: nat, fallback: nat): nat {
    if v.Some? && v.value.Number? && 0 <= v.value.n <= width then v.value.n else fallback
  }

  function U64At(metadata: Value, key: string, fallback: nat): nat {
    Unsigned(GovernanceValue(metadata, key), U64_MAX, fallback)
  }

  function U32At(metadata: Value, key: string, fallback: nat): nat {
    Unsigned(GovernanceValue(metadata, key), U32_MAX, fallback)
  }

  function FromMetadata(metadata: Value): Governance {
    Governance(
      Max(U64At(metadata, "connect_timeout_ms", DEFAULTS.connectTimeoutMs), 200),
      Max(U64At(metadata, "operation_timeout_ms", DEFAULTS.operationTimeoutMs), 200),
      Max(U64At(metadata, "heartbeat_interval_ms", DEFAULTS.heartbeatIntervalMs), 250),
      Max(U64At(metadata, "heartbeat_timeout_ms", DEFAULTS.heartbeatTimeoutMs), 500),
      Max(U32At(metadata, "rate_limit_max_attempts", DEFAULTS.rateLimitMaxAttempts), 1),
      Max(U64At(metadata, "rate_limit_window_ms", DEFAULTS.rateLimitWindowMs), 500),
      Max(U64At(metadata, "rate_limit_cooldown_ms", DEFAULTS.rateLimitCooldownMs), 500),
      Max(U32At(metadata, "circuit_failure_threshold", DEFAULTS.circuitFailureThreshold), 1),
      Max(U64At(metadata, "circuit_open_ms", DEFAULTS.circuitOpenMs), 1_000),
      Max(U64At(metadata, "reconnect_base_ms", DEFAULTS.reconnectBaseMs), 200),
      Max(U64At(metadata, "reconnect_max_ms", DEFAULTS.reconnectMaxMs), 500))
  }

  /** The declared values as they are stored in the connection's metadata. */
  function ToMetadata(g: Governance): Value {
    Object(map["governance" := Object(map[
      "connect_timeout_ms" := Number(g.connectTimeoutMs),
      "operation_timeout_ms" := Number(g.operationTimeoutMs),
      "heartbeat_interval_ms" := Number(g.heartbeatIntervalMs),
      "heartbeat_timeout_ms" := Number(g.heartbeatTimeoutMs),
      "rate_limit_max_attempts" := Number(g.rateLimitMaxAttempts),
      "rate_limit_window_ms" := Number(g.rateLimitWindowMs),
      "rate_limit_cooldown_ms" := Number(g.rateLimitCooldownMs),
      "circuit_failure_threshold" := Number(g.circuitFailureThreshold),
      "circuit_open_ms" := Number(g.circuitOpenMs),
      "reconnect_base_ms" := Number(g.reconnectBaseMs),
      "reconnect_max_ms" := Number(g.reconnectMaxMs)])])
  }

  // ---- Delay ----

  function Pow2(n: nat): (r: nat)
    ensures r >= 1
  {
    if n == 0 then 1 else 2 * Pow2(n - 1)
  }

  function SaturatingMul(a: nat, b: nat): nat {
    Min(a * b, U64_MAX)
  }

  function ReconnectDelayMs(g: Governance, attempt: nat): nat {
    var exponent := Min(Max(attempt - 1, 0), 6);
    Min(SaturatingMul(g.reconnectBaseMs, Pow2(exponent)), g.reconnectMaxMs)
  }

  lemma {:induction false} Pow2Monotone(a: nat, b: nat)
    requires a <= b
    ensures Pow2(a) <= Pow2(b)
  {
    if a < b {
      Pow2Monotone(a, b - 1);
    }
  }

  lemma {:induction false} MulMonotone(x: nat, a: nat, b: nat)
    requires a <= b
    ensures x * a <= x * b
  {
  }

  /** Saturation never shows: the delay is base * 2^k capped by the maximum, k counting earlier attempts up to six. */
  lemma {:induction false} DelayIsUnbounded(g: Governance, attempt: nat)
    requires Fits(g)
    ensures ReconnectDelayMs(g, attempt) == Min(g.reconnectBaseMs * Pow2(Min(Max(attempt - 1, 0), 6)), g.reconnectMaxMs)
  {
  }

  lemma {:induction false} DelayIsMonotone(g: Governance, a: nat, b: nat)
    requires Fits(g) && a <= b
    ensures ReconnectDelayMs(g, a) <= ReconnectDelayMs(g, b)
  {
    var x, y := Min(Max(a - 1, 0), 6), Min(Max(b - 1, 0), 6);
    Pow2Monotone(x, y);
    MulMonotone(g.reconnectBaseMs, Pow2(x), Pow2(y));
  }

  /** Every delay lies in [base, max] exactly when base does not exceed max. */
  lemma {:induction false} DelayIsBounded(g: Governance, attempt: nat)
    requires Fits(g)
    ensures g.reconnectBaseMs <= ReconnectDelayMs(g, attempt) <= g.reconnectMaxMs <==> g.reconnectBaseMs <= g.reconnectMaxMs
  {
    MulMonotone(g.reconnectBaseMs, 1, Pow2(Min(Max(attempt - 1, 0), 6)));
  }

  /** Whatever the metadata says, the effective policy has positive limits and fits its widths. */
  lemma {:induction false} PolicyIsUsable(metadata: Value)
    ensures var g := FromMetadata(metadata);
            && Fits(g) && g.circuitFailureThreshold >= 1 && g.rateLimitMaxAttempts >= 1
            && g.operationTimeoutMs >= 200 && g.circuitOpenMs >= 1_000 && g.rateLimitWindowMs >= 500
            && ReconnectDelayMs(g, 1) >= 200
  {
    var g := FromMetadata(metadata);
    DelayIsUnbounded(g, 1);
    assert Pow2(0) == 1;
  }

  /** Clamping a validated declaration keeps base <= max and the heartbeat timeout above the interval. */
  lemma {:induction false} ValidatedStaysOrdered(g: Governance, attempt: nat)
    requires Fits(g) && Validates(g)
    ensures var e := FromMetadata(ToMetadata(g));
            && e.heartbeatTimeoutMs > e.heartbeatIntervalMs
            && e.reconnectBaseMs <= ReconnectDelayMs(e, attempt) <= e.reconnectMaxMs
            && e.reconnectBaseMs == Max(g.reconnectBaseMs, 200) && e.reconnectMaxMs == Max(g.reconnectMaxMs, 500)
            && e.circuitFailureThreshold == g.circuitFailureThreshold
  {
    var e := FromMetadata(ToMetadata(g));
    PolicyIsUsable(ToMetadata(g));
    DelayIsBounded(e, attempt);
  }

  /** The effective policy is the declaration with each value raised to its floor. */
  lemma {:induction false} EffectiveIsDeclared(g: Governance)
    requires Fits(g)
    ensures FromMetadata(ToMetadata(g)) == Governance(
              Max(g.connectTimeoutMs, 200), Max(g.operationTimeoutMs, 200),
              Max(g.heartbeatIntervalMs, 250), Max(g.heartbeatTimeoutMs, 500),
              Max(g.rateLimitMaxAttempts, 1), Max(g.rateLimitWindowMs, 500), Max(g.rateLimitCooldownMs, 500),
              Max(g.circuitFailureThreshold, 1), Max(g.circuitOpenMs, 1_000),
              Max(g.reconnectBaseMs, 200), Max(g.reconnectMaxMs, 500))
  {
  }

  predicate Declares(metadata: Value, key: string, width: nat, n: nat) {
    && metadata.Object? && "governance" in metadata.fields && metadata.fields["governance"].Object?
    && key in metadata.fields["governance"].fields && metadata.fields["governance"].fields[key] == Number(n) && n <= width
  }

  /** A value that is missing, of another type, negative or too wide is not declared. */
  ghost predicate Undeclared(metadata: Value, key: string, width: nat) {
    forall n :: !Declares(metadata, key, width, n)
  }

  lemma {:induction false} ReadsDeclared(metadata: Value, key: string, width: nat, fallback: nat)
    ensures Undeclared(metadata, key, width) ==> Unsigned(GovernanceValue(metadata, key), width, fallback) == fallback
    ensures forall n :: Declares(metadata, key, width, n) ==> Unsigned(GovernanceValue(metadata, key), width, fallback) == n
  {
    var v := GovernanceValue(metadata, key);
    if v.Some? && v.value.Number? && 0 <= v.value.n <= width {
      assert Declares(metadata, key, width, v.value.n);
    }
  }

  /** A value that is not declared takes its default, whatever else the metadata says. */
  lemma {:induction false} UndeclaredTakesDefault(metadata: Value)
    ensures var e := FromMetadata(metadata);
            && (Undeclared(metadata, "connect_timeout_ms", U64_MAX) ==> e.connectTimeoutMs == 3_000)
            && (Undeclared(metadata, "operation_timeout_ms", U64_MAX) ==> e.operationTimeoutMs == 5_000)
            && (Undeclared(metadata, "heartbeat_interval_ms", U64_MAX) ==> e.heartbeatIntervalMs == 3_000)
            && (Undeclared(metadata, "heartbeat_timeout_ms", U64_MAX) ==> e.heartbeatTimeoutMs == 12_000)
            && (Undeclared(metadata, "rate_limit_max_attempts", U32_MAX) ==> e.rateLimitMaxAttempts == 8)
            && (Undeclared(metadata, "rate_limit_window_ms", U64_MAX) ==> e.rateLimitWindowMs == 10_000)
            && (Undeclared(metadata, "rate_limit_cooldown_ms", U64_MAX) ==> e.rateLimitCooldownMs == 4_000)
            && (Undeclared(metadata, "circuit_failure_threshold", U32_MAX) ==> e.circuitFailureThreshold == 3)
            && (Undeclared(metadata, "circuit_open_ms", U64_MAX) ==> e.circuitOpenMs == 15_000)
            && (Undeclared(metadata, "reconnect_base_ms", U64_MAX) ==> e.reconnectBaseMs == 800)
            && (Undeclared(metadata, "reconnect_max_ms", U64_MAX) ==> e.reconnectMaxMs == 8_000)
  {
    ReadsDeclared(metadata, "connect_timeout_ms", U64_MAX, DEFAULTS.connectTimeoutMs);
    ReadsDeclared(metadata, "operation_timeout_ms", U64_MAX, DEFAULTS.operationTimeoutMs);
    ReadsDeclared(metadata, "heartbeat_interval_ms", U64_MAX, DEFAULTS.heartbeatIntervalMs);
    ReadsDeclared(metadata, "heartbeat_timeout_ms", U64_MAX, DEFAULTS.heartbeatTimeoutMs);
    ReadsDeclared(metadata, "rate_limit_max_attempts", U32_MAX, DEFAULTS.rateLimitMaxAttempts);
    ReadsDeclared(metadata, "rate_limit_window_ms", U64_MAX, DEFAULTS.rateLimitWindowMs);
    ReadsDeclared(metadata, "rate_limit_cooldown_ms", U64_MAX, DEFAULTS.rateLimitCooldownMs);
    ReadsDeclared(metadata, "circuit_failure_threshold", U32_MAX, DEFAULTS.circuitFailureThreshold);
    ReadsDeclared(metadata, "circuit_open_ms", U64_MAX, DEFAULTS.circuitOpenMs);
    ReadsDeclared(metadata, "reconnect_base_ms", U64_MAX, DEFAULTS.reconnectBaseMs);
    ReadsDeclared(metadata, "reconnect_max_ms", U64_MAX, DEFAULTS.reconnectMaxMs);
  }

  /** The chain of checks reports the first field at fault, and nothing exactly for a declaration in order. */
  method Validate(g: Governance) returns (fault: Option<string>)
    ensures fault == None <==>
              && g.connectTimeoutMs > 0 && g.operationTimeoutMs > 0 && g.heartbeatIntervalMs > 0 && g.heartbeatTimeoutMs > 0
              && g.rateLimitMaxAttempts > 0 && g.rateLimitWindowMs > 0 && g.rateLimitCooldownMs > 0
              && g.circuitFailureThreshold > 0 && g.circuitOpenMs > 0 && g.reconnectBaseMs > 0 && g.reconnectMaxMs > 0
              && g.heartbeatIntervalMs < g.heartbeatTimeoutMs && g.reconnectBaseMs <= g.reconnectMaxMs
    ensures fault == None <==> Validates(g)
  {
    if g.connectTimeoutMs == 0 {
      return Some("connect_timeout_ms");
    } else if g.operationTimeoutMs == 0 {
      return Some("operation_timeout_ms");
    } else if g.heartbeatIntervalMs == 0 {
      return Some("heartbeat_interval_ms");
    } else if g.heartbeatTimeoutMs == 0 {
      return Some("heartbeat_timeout_ms");
    } else if g.rateLimitMaxAttempts == 0 {
      return Some("rate_limit_max_attempts");
    } else if g.rateLimitWindowMs == 0 {
      return Some("rate_limit_window_ms");
    } else if g.rateLimitCooldownMs == 0 {
      return Some("rate_limit_cooldown_ms");
    } else if g.circuitFailureThreshold == 0 {
      return Some("circuit_failure_threshold");
    } else if g.circuitOpenMs == 0 {
      return Some("circuit_open_ms");
    } else if g.reconnectBaseMs == 0 {
      return Some("reconnect_base_ms");
    } else if g.reconnectMaxMs == 0 {
      return Some("reconnect_max_ms");
    }
    if g.heartbeatTimeoutMs <= g.heartbeatIntervalMs {
      return Some("heartbeat_timeout_ms");
    }
    if g.reconnectMaxMs < g.reconnectBaseMs {
      return Some("reconnect_max_ms");
    }
    return None;
  }

  /** Undeclared metadata has no such order: a base above the default maximum makes every delay shorter than the base. */
  lemma UnvalidatedBaseAboveMax(attempt: nat)
    ensures var e := FromMetadata(Object(map["governance" := Object(map["reconnect_base_ms" := Number(10_000)])]));
            ReconnectDelayMs(e, attempt) == 8_000 < e.reconnectBaseMs
  {
    MulMonotone(10_000, 1, Pow2(Min(Max(attempt - 1, 0), 6)));
  }
}
