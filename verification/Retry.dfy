/** Retry policies and the capped exponential backoff around a connector call. */
module Retry {
  import opened Common

  /** Result of converting a configuration value with `Number`. Infinities count as `NaN` here. */
  datatype JsNumber = NaN | Value(v: real)

  datatype RawPolicy = RawPolicy(
    maxRetries: JsNumber,
    baseDelayMs: JsNumber,
    maxDelayMs: JsNumber,
    jitter: Option<bool>,
    dlqLeaseSeconds: JsNumber)

  datatype Policy = Policy(maxRetries: int, baseDelayMs: int, maxDelayMs: int, jitter: bool, dlqLeaseSeconds: int)
  {
    predicate Bounded() {
      maxRetries >= 1 && baseDelayMs >= 1 && maxDelayMs >= 1
    }
  }

  const DEFAULT_POLICY := Policy(3, 1000, 30000, true, 300)

  function PositiveInteger(n: JsNumber): Option<int> {
    if n.Value? && n.v == n.v.Floor as real && n.v > 0.0 then Some(n.v.Floor) else None
  }

  function OrElse(n: JsNumber, fallback: int): int {
    match PositiveInteger(n)
    case Some(v) => v
    case None => fallback
  }

  /** `raw` is the policy object of the target's configuration, when there is one. */
  function ForTarget(raw: Option<RawPolicy>, configuredLease: Option<int>): (p: Policy)
    ensures p.Bounded()
    ensures raw.Some? && PositiveInteger(raw.value.dlqLeaseSeconds).Some? ==> p.dlqLeaseSeconds >= 1
  {
    var lease := if configuredLease.Some? then configuredLease.value else DEFAULT_POLICY.dlqLeaseSeconds;
    match raw
    case None => DEFAULT_POLICY.(dlqLeaseSeconds := lease)
    case Some(r) =>
      Policy(
        OrElse(r.maxRetries, DEFAULT_POLICY.maxRetries),
        OrElse(r.baseDelayMs, DEFAULT_POLICY.baseDelayMs),
        OrElse(r.maxDelayMs, DEFAULT_POLICY.maxDelayMs),
        if r.jitter.Some? then r.jitter.value else DEFAULT_POLICY.jitter,
        OrElse(r.dlqLeaseSeconds, lease))
  }

  /** The numbers that count as positive whole numbers. */
  lemma PositiveIntegerIff(n: JsNumber, v: int)
    ensures PositiveInteger(n) == Some(v) <==> v >= 1 && n == Value(v as real)
  {
    assert (v as real).Floor == v;
  }

  /** Without a policy of its own a target gets the defaults, save the configured lease. */
  lemma DefaultsApply(lease: Option<int>)
    ensures ForTarget(None, lease) == Policy(3, 1000, 30000, true, if lease.Some? then lease.value else 300)
    ensures ForTarget(Some(RawPolicy(NaN, NaN, NaN, None, NaN)), lease) == ForTarget(None, lease)
  {
  }

  /** Jitter is taken from the policy when it is a boolean there. */
  lemma JitterIsUsed(raw: RawPolicy, lease: Option<int>, jitter: bool)
    ensures ForTarget(Some(raw.(jitter := Some(jitter))), lease) == ForTarget(Some(raw), lease).(jitter := jitter)
    ensures ForTarget(Some(raw.(jitter := None)), lease) == ForTarget(Some(raw), lease).(jitter := true)
  {
  }

  /** Configuring one field with a positive whole number sets that field and no other. */
  lemma ConfiguredFieldIsUsed(raw: RawPolicy, lease: Option<int>, n: int)
    requires n >= 1
    ensures var p := ForTarget(Some(raw), lease);
            && ForTarget(Some(raw.(maxRetries := Value(n as real))), lease) == p.(maxRetries := n)
            && ForTarget(Some(raw.(baseDelayMs := Value(n as real))), lease) == p.(baseDelayMs := n)
            && ForTarget(Some(raw.(maxDelayMs := Value(n as real))), lease) == p.(maxDelayMs := n)
            && ForTarget(Some(raw.(dlqLeaseSeconds := Value(n as real))), lease) == p.(dlqLeaseSeconds := n)
  {
    assert (n as real).Floor == n;
  }

  /** Anything else leaves the default of that field. */
  lemma OtherValuesFallBack(raw: RawPolicy, lease: Option<int>, bad: JsNumber)
    requires PositiveInteger(bad).None?
    ensures var p := ForTarget(Some(raw), lease);
            && ForTarget(Some(raw.(maxRetries := bad)), lease) == p.(maxRetries := DEFAULT_POLICY.maxRetries)
            && ForTarget(Some(raw.(baseDelayMs := bad)), lease) == p.(baseDelayMs := DEFAULT_POLICY.baseDelayMs)
            && ForTarget(Some(raw.(maxDelayMs := bad)), lease) == p.(maxDelayMs := DEFAULT_POLICY.maxDelayMs)
            && ForTarget(Some(raw.(dlqLeaseSeconds := bad)), lease)
               == p.(dlqLeaseSeconds := if lease.Some? then lease.value else DEFAULT_POLICY.dlqLeaseSeconds)
  {
  }

  // ----- Delays --------------------------------------------------------------

  function Min(a: int, b: int): int {
    if a <= b then a else b
  }

  function Cap(p: Policy, attempt: nat): int {
    Min(p.baseDelayMs * Pow2(attempt), p.maxDelayMs)
  }

  /** `draw` is the random number of the attempt, in [0, 1). */
  function Delay(p: Policy, attempt: nat, draw: real): int {
    if !p.jitter then Cap(p, attempt)
    else (Cap(p, attempt) as real * (0.5 + draw * 0.5)).Floor
  }

  lemma CapGrows(p: Policy, attempt: nat)
    requires p.Bounded()
    ensures 1 <= Cap(p, attempt) <= Cap(p, attempt + 1) <= p.maxDelayMs
  {
    assert p.baseDelayMs * Pow2(attempt + 1) == 2 * (p.baseDelayMs * Pow2(attempt));
    assert p.baseDelayMs * Pow2(attempt) >= 1 by {
      Grows(p.baseDelayMs, Pow2(attempt));
    }
  }

  /** The cap doubles from attempt to attempt, from the base delay up to the maximum. */
  lemma CapDoubles(p: Policy, attempt: nat)
    requires p.Bounded()
    ensures Cap(p, 0) == if p.baseDelayMs <= p.maxDelayMs then p.baseDelayMs else p.maxDelayMs
    ensures Cap(p, attempt + 1) ==
            if 2 * Cap(p, attempt) <= p.maxDelayMs then 2 * Cap(p, attempt) else p.maxDelayMs
  {
    CapGrows(p, attempt);
    assert Pow2(0) == 1;
    assert p.baseDelayMs * Pow2(attempt + 1) == 2 * (p.baseDelayMs * Pow2(attempt));
  }

  lemma Grows(a: int, b: int)
    requires a >= 1 && b >= 1
    ensures a * b >= 1
  {
    assert a * b == (a - 1) * b + b;
  }

  /** A jittered delay lies between half the cap and one less than the cap. */
  lemma DelayBounds(p: Policy, attempt: nat, draw: real)
    requires p.Bounded() && 0.0 <= draw < 1.0
    ensures p.jitter ==> Cap(p, attempt) / 2 <= Delay(p, attempt, draw) <= Cap(p, attempt) - 1
    ensures !p.jitter ==> Delay(p, attempt, draw) == Cap(p, attempt)
    ensures 0 <= Delay(p, attempt, draw) <= Cap(p, attempt)
  {
    CapGrows(p, attempt);
    if p.jitter {
      JitterBounds(Cap(p, attempt), draw);
    }
  }

  /** Jitter spreads the delay evenly: it is the whole part of that share between half the cap and the cap. */
  lemma DelayFollowsDraw(p: Policy, attempt: nat, draw: real)
    requires p.Bounded() && p.jitter && 0.0 <= draw < 1.0
    ensures var d := Delay(p, attempt, draw);
            d as real <= Cap(p, attempt) as real * (1.0 + draw) / 2.0 < (d + 1) as real
  {
    var cap := Cap(p, attempt) as real;
    assert cap * (0.5 + draw * 0.5) == cap * (1.0 + draw) / 2.0;
  }

  lemma JitterBounds(c: int, draw: real)
    requires c >= 1 && 0.0 <= draw < 1.0
    ensures c / 2 <= (c as real * (0.5 + draw * 0.5)).Floor <= c - 1
  {
    var share := 0.5 + draw * 0.5;
    var d := c as real * share;
    Scale(c as real, share, d);
    FloorBetween(c, d);
  }

  lemma FloorBetween(c: int, d: real)
    requires c >= 1 && c as real * 0.5 <= d < c as real
    ensures c / 2 <= d.Floor <= c - 1
  {
    var h := c / 2;
    assert (2 * h) as real <= c as real;
    assert h as real <= d;
  }

  lemma Scale(c: real, share: real, d: real)
    requires c > 0.0 && 0.5 <= share < 1.0 && d == c * share
    ensures c * 0.5 <= d < c
  {
    assert c * (share - 0.5) >= 0.0;
    assert c * (1.0 - share) > 0.0;
  }

  // ----- The retry loop ------------------------------------------------------

  /** One call of the connector: it throws, or returns with its success flag. */
  datatype Attempt = Threw(error: string) | Returned(success: bool)

  function Sum(xs: seq<int>): int {
    if xs == [] then 0 else Sum(xs[..|xs| - 1]) + xs[|xs| - 1]
  }

  lemma {:induction false} SumSplits(xs: seq<int>, ys: seq<int>)
    ensures Sum([]) == 0 && Sum(xs + ys) == Sum(xs) + Sum(ys)
    ensures |ys| == 1 ==> Sum(ys) == ys[0]
  {
    if ys == [] {
      assert xs + ys == xs;
    } else {
      SumSplits(xs, ys[..|ys| - 1]);
      assert (xs + ys)[..|xs + ys| - 1] == xs + ys[..|ys| - 1];
    }
  }

  /**
   * Runs the connector until it returns or the retries are used up. Only a throw
   * is retried; a returned refusal ends the loop like a returned success.
   */
  method Execute(p: Policy, outcome: nat -> Attempt, draw: nat -> real)
    returns (calls: nat, result: Attempt, sleeps: seq<int>)
    requires p.maxRetries >= 0
    ensures 1 <= calls <= p.maxRetries + 1
    ensures forall i :: 0 <= i < calls - 1 ==> outcome(i).Threw?
    ensures result == outcome(calls - 1)
    ensures result.Threw? ==> calls == p.maxRetries + 1
    ensures |sleeps| == calls - 1
    ensures forall i :: 0 <= i < |sleeps| ==> sleeps[i] == Delay(p, i, draw(i))
  {
    calls, sleeps := 0, [];
    result := Threw("Retry exhausted");
    var attempt := 0;
    while attempt <= p.maxRetries
      invariant 0 <= attempt <= p.maxRetries
      invariant calls == attempt == |sleeps|
      invariant forall i :: 0 <= i < attempt ==> outcome(i).Threw?
      invariant forall i :: 0 <= i < attempt ==> sleeps[i] == Delay(p, i, draw(i))
    {
      result := outcome(attempt);
      calls := calls + 1;
      if result.Returned? || attempt == p.maxRetries {
        return;
      }
      sleeps := sleeps + [Delay(p, attempt, draw(attempt))];
      attempt := attempt + 1;
    }
  }

  lemma OneMoreSleep(base: int, pow: int, maxDelay: int, n: int, total: int, d: int)
    requires total <= base * (pow - 1) && total <= n * maxDelay
    requires d <= base * pow && d <= maxDelay
    ensures total + d <= base * (2 * pow - 1)
    ensures total + d <= (n + 1) * maxDelay
  {
    assert base * (2 * pow - 1) == base * (pow - 1) + base * pow;
    assert (n + 1) * maxDelay == n * maxDelay + maxDelay;
  }

  lemma NoSleep(p: Policy)
    ensures p.baseDelayMs * (Pow2(0) - 1) == 0
  {
    assert Pow2(0) - 1 == 0;
  }

  /** Whatever the draws, the sleeps of one run stay under both global bounds. */
  lemma {:induction false} TotalSleepBound(p: Policy, draws: seq<real>, sleeps: seq<int>)
    requires p.Bounded() && |draws| == |sleeps|
    requires forall i :: 0 <= i < |draws| ==> 0.0 <= draws[i] < 1.0
    requires forall i :: 0 <= i < |sleeps| ==> sleeps[i] == Delay(p, i, draws[i])
    ensures 0 <= Sum(sleeps)
    ensures Sum(sleeps) <= p.baseDelayMs * (Pow2(|sleeps|) - 1)
    ensures Sum(sleeps) <= |sleeps| * p.maxDelayMs
  {
    if sleeps == [] {
      NoSleep(p);
    } else {
      var n := |sleeps| - 1;
      TotalSleepBound(p, draws[..n], sleeps[..n]);
      DelayBounds(p, n, draws[n]);
      OneMoreSleep(p.baseDelayMs, Pow2(n), p.maxDelayMs, n, Sum(sleeps[..n]), sleeps[n]);
    }
  }

  /** The bounds in terms of the policy alone, for the sleeps of any run of `Execute`. */
  lemma PolicySleepBound(raw: Option<RawPolicy>, lease: Option<int>, draws: seq<real>, sleeps: seq<int>)
    requires |draws| == |sleeps| <= ForTarget(raw, lease).maxRetries
    requires forall i :: 0 <= i < |draws| ==> 0.0 <= draws[i] < 1.0
    requires forall i :: 0 <= i < |sleeps| ==> sleeps[i] == Delay(ForTarget(raw, lease), i, draws[i])
    ensures var p := ForTarget(raw, lease);
            Sum(sleeps) <= Min(p.baseDelayMs * (Pow2(p.maxRetries) - 1), p.maxRetries * p.maxDelayMs)
  {
    var p := ForTarget(raw, lease);
    TotalSleepBound(p, draws, sleeps);
    Pow2Grows(|sleeps|, p.maxRetries);
    MulMonotone(p.baseDelayMs, Pow2(|sleeps|) - 1, Pow2(p.maxRetries) - 1);
    MulMonotone(p.maxDelayMs, |sleeps|, p.maxRetries);
  }

  lemma MulMonotone(a: int, b: int, c: int)
    requires a >= 0 && b <= c
    ensures a * b <= a * c
  {
    assert a * (c - b) >= 0;
  }
}
