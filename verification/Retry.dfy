/**
 * The generic retry helper with jittered exponential backoff, and its dead-letter
 * landing.  The operation, the random source and the transient classifier are the
 * environment: call number k of the operation ends in `replies(k)`, and the k-th
 * random draw is `random(k)`.
 */
module Retry {
  import opened Wrappers

  /** How one call of the operation ends; a failure carries its message and whether it is classified transient. */
  datatype Reply<+T> = Success(value: T) | Failure(message: string, transient: bool)

  /** `RetryExhaustedError`: the number of attempts and the last error, absent when nothing was attempted. */
  datatype Exhausted = Exhausted(attempts: int, lastError: Option<string>)

  // ---------------------------------------------------------------- delays

  datatype BackoffParams = BackoffParams(baseDelayMs: real, multiplier: real, jitterRatio: real)

  function Pow(m: real, n: nat): real { if n == 0 then 1.0 else m * Pow(m, n - 1) }

  /** Rounding to the nearest integer, halves upwards. */
  function Round(x: real): int { (x + 0.5).Floor }

  function RoundUpToZero(x: real): int { if Round(x) >= 0 then Round(x) else 0 }

  function Jitter(draw: real, ratio: real): real { 1.0 + (draw * 2.0 - 1.0) * ratio }

  function Mul(a: real, b: real): real { a * b }

  /** The delay before the try after the given 1-based attempt. */
  function ComputeBackoffMs(attempt: nat, p: BackoffParams, draw: real): int
    requires attempt >= 1
  {
    RoundUpToZero(Mul(RawDelay(p, attempt), Jitter(draw, p.jitterRatio)))
  }

  function Delays(n: nat, p: BackoffParams, random: nat -> real): seq<int> {
    if n == 0 then [] else Delays(n - 1, p, random) + [ComputeBackoffMs(n, p, random(n))]
  }

  function Sum(s: seq<int>): int { if s == [] then 0 else Sum(s[..|s| - 1]) + s[|s| - 1] }

  // ---------------------------------------------------------------- the loop

  /** A reply after which the loop stops when it answers the given attempt. */
  predicate Final<T>(reply: Reply<T>, attempt: int, maxAttempts: int) {
    reply.Success? || !reply.transient || attempt >= maxAttempts
  }

  /**
   * How many calls a run makes: it stops at the first success, the first
   * non-transient failure, or the last permitted attempt, whichever comes first.
   */
  ghost predicate StopsAt<T(!new)>(replies: nat -> Reply<T>, maxAttempts: int, calls: nat) {
    if maxAttempts < 1 then calls == 0
    else
      && 1 <= calls <= maxAttempts
      && Final(replies(calls), calls, maxAttempts)
      && forall k | 1 <= k < calls :: replies(k).Failure? && replies(k).transient
  }

  /** Runs with the same environment make the same number of calls. */
  lemma StopsOnce<T(!new)>(replies: nat -> Reply<T>, maxAttempts: int, a: nat, b: nat)
    requires StopsAt(replies, maxAttempts, a) && StopsAt(replies, maxAttempts, b)
    ensures a == b
  {
    var first, second := replies(a), replies(b);
  }

  /** Why a run stops where it does: a success, a failure that is not transient, or no attempt left; until then there were only transient failures. */
  lemma StopReason<T(!new)>(replies: nat -> Reply<T>, maxAttempts: int, calls: nat)
    ensures maxAttempts >= 1 ==>
      (StopsAt(replies, maxAttempts, calls) <==>
        && 1 <= calls <= maxAttempts
        && (replies(calls).Success? || (replies(calls).Failure? && !replies(calls).transient) || calls == maxAttempts)
        && forall k | 1 <= k < calls :: replies(k).Failure? && replies(k).transient)
    ensures maxAttempts < 1 ==> (StopsAt(replies, maxAttempts, calls) <==> calls == 0)
  {
  }

  method Run<T(!new)>(replies: nat -> Reply<T>, maxAttempts: int, p: BackoffParams, random: nat -> real)
    returns (result: Result<T, Exhausted>, calls: nat, slept: seq<int>)
    ensures StopsAt(replies, maxAttempts, calls)
    ensures slept == Delays(if calls == 0 then 0 else calls - 1, p, random)
    ensures result == if calls == 0 then Err(Exhausted(maxAttempts, None))
                      else match replies(calls)
                        case Success(v) => Ok(v)
                        case Failure(message, _) => Err(Exhausted(calls, Some(message)))
  {
    var attempt := 1;
    slept := [];
    calls := 0;
    while attempt <= maxAttempts
      invariant attempt >= 1 && calls == attempt - 1
      invariant calls <= maxAttempts || calls == 0
      invariant maxAttempts >= 1 ==> attempt <= maxAttempts
      invariant slept == Delays(calls, p, random)
      invariant forall k | 1 <= k <= calls :: replies(k).Failure? && replies(k).transient
    {
      calls := calls + 1;
      match replies(attempt) {
        case Success(v) =>
          return Ok(v), calls, slept;
        case Failure(message, transient) =>
          var isLast := attempt >= maxAttempts;
          if isLast || !transient {
            return Err(Exhausted(attempt, Some(message))), calls, slept;
          }
      }
      var delayMs := ComputeBackoffMs(attempt, p, random(attempt));
      slept := slept + [delayMs];
      attempt := attempt + 1;
    }
    return Err(Exhausted(maxAttempts, None)), calls, slept;
  }

  // ---------------------------------------------------------------- dead letters

  datatype DlqEntry = DlqEntry(id: nat, platform: string, opKind: string, payloadJson: string, lastError: string, attempts: nat, createdAt: int)

  /** The `outbox_dlq` table: rows in insertion order, numbered from 1. */
  class DlqRepository {
    var entries: seq<DlqEntry>

    method Land(platform: string, opKind: string, payloadJson: string, lastError: string, attempts: nat, now: int) returns (entry: DlqEntry)
      modifies this
      ensures entry == DlqEntry(|old(entries)| + 1, platform, opKind, payloadJson, lastError, attempts, now)
      ensures entries == old(entries) + [entry]
    {
      entry := DlqEntry(|entries| + 1, platform, opKind, payloadJson, lastError, attempts, now);
      entries := entries + [entry];
    }
  }

  datatype Outcome<+T> = Delivered(value: T, attempts: nat) | DeadLettered(attempts: nat, message: string, dlqId: nat)

  /**
   * Retries the operation and lands it in the dead-letter table exactly when the run
   * does not end in a success.
   */
  method DispatchWithDlq<T(!new)>(platform: string, opKind: string, payloadJson: string, replies: nat -> Reply<T>, dlq: DlqRepository,
                                  maxAttempts: int, p: BackoffParams, random: nat -> real, now: int)
    returns (outcome: Outcome<T>, slept: seq<int>)
    modifies dlq
    ensures StopsAt(replies, maxAttempts, outcome.attempts)
    ensures outcome.Delivered? <==> outcome.attempts >= 1 && replies(outcome.attempts).Success?
    ensures outcome.Delivered? ==> outcome.value == replies(outcome.attempts).value && dlq.entries == old(dlq.entries)
    ensures outcome.DeadLettered? ==>
      dlq.entries == old(dlq.entries)
                     + [DlqEntry(|old(dlq.entries)| + 1, platform, opKind, payloadJson, outcome.message, outcome.attempts, now)]
    ensures outcome.DeadLettered? ==> outcome.dlqId == |dlq.entries|
    ensures outcome.DeadLettered? && outcome.attempts >= 1 ==> outcome.message == replies(outcome.attempts).message
    ensures slept == Delays(if outcome.attempts == 0 then 0 else outcome.attempts - 1, p, random)
  {
    var result, attempts, waits := Run(replies, maxAttempts, p, random);
    slept := waits;
    match result {
      case Ok(value) =>
        outcome := Delivered(value, attempts);
      case Err(e) =>
        var message := if e.lastError.Some? then e.lastError.value else "undefined";
        var entry := dlq.Land(platform, opKind, payloadJson, message, attempts, now);
        outcome := DeadLettered(attempts, message, entry.id);
    }
  }

  // ---------------------------------------------------------------- total wait

  /** The delay after an attempt before jitter and rounding. */
  function RawDelay(p: BackoffParams, attempt: nat): real
    requires attempt >= 1
  {
    p.baseDelayMs * Pow(p.multiplier, attempt - 1)
  }

  /** The total of the first n delays before jitter and rounding. */
  function RawTotal(p: BackoffParams, n: nat): real {
    if n == 0 then 0.0 else RawTotal(p, n - 1) + RawDelay(p, n)
  }

  lemma {:induction false} PowPositive(m: real, n: nat)
    requires m > 0.0
    ensures Pow(m, n) > 0.0
  {
    if n > 0 {
      PowPositive(m, n - 1);
    }
  }

  /** g is base * (m^n - 1) / (m - 1), written without the division. */
  predicate IsGeometric(g: real, p: BackoffParams, n: nat) {
    Mul(g, p.multiplier - 1.0) == Mul(p.baseDelayMs, Pow(p.multiplier, n) - 1.0)
  }

  lemma {:induction false} RawTotalIsGeometric(p: BackoffParams, n: nat)
    ensures IsGeometric(RawTotal(p, n), p, n)
  {
    if n > 0 {
      RawTotalIsGeometric(p, n - 1);
      RawTotalStep(p, n);
      hide *;
      GeometricStep(p, n, Pow(p.multiplier, n - 1), RawTotal(p, n - 1));
    }
  }

  lemma RawTotalStep(p: BackoffParams, n: nat)
    requires n > 0
    ensures RawTotal(p, n) == RawTotal(p, n - 1) + Mul(p.baseDelayMs, Pow(p.multiplier, n - 1))
    ensures Pow(p.multiplier, n) == Mul(p.multiplier, Pow(p.multiplier, n - 1))
  {
  }

  lemma GeometricStep(p: BackoffParams, n: nat, x: real, rest: real)
    requires n > 0 && x == Pow(p.multiplier, n - 1) && IsGeometric(rest, p, n - 1) && Pow(p.multiplier, n) == Mul(p.multiplier, x)
    ensures IsGeometric(rest + Mul(p.baseDelayMs, x), p, n)
  {
    hide Pow;
    GeometricAlgebra(p.multiplier, p.baseDelayMs, x, rest);
    hide Mul;
  }

  lemma GeometricAlgebra(m: real, b: real, x: real, rest: real)
    requires Mul(rest, m - 1.0) == Mul(b, x - 1.0)
    ensures Mul(rest + Mul(b, x), m - 1.0) == Mul(b, Mul(m, x) - 1.0)
  {
    assert (rest + b * x) * (m - 1.0) == rest * (m - 1.0) + b * x * (m - 1.0);
  }

  lemma MulCancels(a: real, b: real, d: real)
    requires d != 0.0 && Mul(a, d) == Mul(b, d)
    ensures a == b
  {
    assert (a - b) * d == 0.0;
  }

  lemma MulMonotone(r: real, a: real, b: real)
    requires r >= 0.0 && a <= b
    ensures Mul(r, a) <= Mul(r, b)
  {
    assert r * (b - a) >= 0.0;
  }

  lemma MulDistributes(a: real, b: real, x: real)
    ensures Mul(a + b, x) == Mul(a, x) + Mul(b, x)
  {
  }

  /** n waits total to within (1 +- ratio) of `raw`, give or take half a millisecond each. */
  predicate Near(total: int, raw: real, n: nat, ratio: real) {
    Mul(raw, 1.0 - ratio) - n as real * 0.5 <= total as real <= Mul(raw, 1.0 + ratio) + n as real * 0.5
  }

  lemma JitterRange(draw: real, ratio: real)
    requires ratio >= 0.0 && 0.0 <= draw < 1.0
    ensures 1.0 - ratio <= Jitter(draw, ratio) <= 1.0 + ratio
  {
    MulMonotone(ratio, draw * 2.0 - 1.0, 1.0);
    MulMonotone(ratio, -1.0, draw * 2.0 - 1.0);
  }

  /** The factor grows with the draw from 1 - ratio at 0, through 1 at one half. */
  lemma JitterShape(ratio: real, a: real, b: real)
    requires ratio > 0.0
    ensures Jitter(0.0, ratio) == 1.0 - ratio && Jitter(0.5, ratio) == 1.0
    ensures a < b <==> Jitter(a, ratio) < Jitter(b, ratio)
  {
    var gap := (b - a) * 2.0;
    assert Jitter(b, ratio) - Jitter(a, ratio) == gap * ratio;
    SignOfProduct(gap, ratio);
  }

  lemma SignOfProduct(x: real, r: real)
    requires r > 0.0
    ensures x > 0.0 <==> x * r > 0.0
  {
  }

  lemma RoundGrows(a: real, b: real)
    requires a <= b
    ensures RoundUpToZero(a) <= RoundUpToZero(b)
  {
  }

  /** A larger draw never waits less, and the draw one half waits the exponential delay itself, rounded. */
  lemma DelayGrowsWithDraw(attempt: nat, p: BackoffParams, a: real, b: real)
    requires attempt >= 1 && p.baseDelayMs >= 0.0 && p.multiplier > 0.0 && p.jitterRatio > 0.0 && a <= b
    ensures ComputeBackoffMs(attempt, p, a) <= ComputeBackoffMs(attempt, p, b)
    ensures var d := ComputeBackoffMs(attempt, p, 0.5) as real - RawDelay(p, attempt); -0.5 < d <= 0.5
  {
    RawDelayIsPositive(p, attempt);
    JitterShape(p.jitterRatio, a, b);
    var raw, x, y := RawDelay(p, attempt), Jitter(a, p.jitterRatio), Jitter(b, p.jitterRatio);
    assert x <= y;
    hide RawDelay, Jitter, Pow;
    MulMonotone(raw, x, y);
    assert Mul(raw, 1.0) == raw;
    hide Mul;
    RoundGrows(Mul(raw, x), Mul(raw, y));
  }

  lemma JitteredIsNear(raw: real, j: real, ratio: real)
    requires raw >= 0.0 && ratio >= 0.0 && 1.0 - ratio <= j <= 1.0 + ratio
    ensures Near(RoundUpToZero(Mul(raw, j)), raw, 1, ratio)
  {
    MulMonotone(raw, 1.0 - ratio, j);
    MulMonotone(raw, j, 1.0 + ratio);
    MulMonotone(raw, 0.0, 1.0 + ratio);
    assert Mul(raw, 0.0) == 0.0;
    hide Mul;
  }

  lemma DelayIsNear(attempt: nat, p: BackoffParams, draw: real)
    requires attempt >= 1 && p.baseDelayMs >= 0.0 && p.multiplier > 0.0 && p.jitterRatio >= 0.0 && 0.0 <= draw < 1.0
    ensures Near(ComputeBackoffMs(attempt, p, draw), RawDelay(p, attempt), 1, p.jitterRatio)
  {
    RawDelayIsPositive(p, attempt);
    hide RawDelay, Jitter, RoundUpToZero, Mul, Near;
    JitterRange(draw, p.jitterRatio);
    JitteredIsNear(RawDelay(p, attempt), Jitter(draw, p.jitterRatio), p.jitterRatio);
  }

  lemma RawDelayIsPositive(p: BackoffParams, attempt: nat)
    requires attempt >= 1 && p.baseDelayMs >= 0.0 && p.multiplier > 0.0
    ensures RawDelay(p, attempt) >= 0.0
  {
    PowPositive(p.multiplier, attempt - 1);
    hide Pow;
    MulMonotone(p.baseDelayMs, 0.0, Pow(p.multiplier, attempt - 1));
  }

  lemma NearAdds(t1: int, r1: real, n: nat, t2: int, r2: real, ratio: real)
    requires Near(t1, r1, n, ratio) && Near(t2, r2, 1, ratio)
    ensures Near(t1 + t2, r1 + r2, n + 1, ratio)
  {
    hide Mul;
    MulDistributes(r1, r2, 1.0 - ratio);
    MulDistributes(r1, r2, 1.0 + ratio);
  }

  lemma {:induction false} TotalIsNear(n: nat, p: BackoffParams, random: nat -> real)
    requires p.baseDelayMs >= 0.0 && p.multiplier > 0.0 && p.jitterRatio >= 0.0
    requires forall k :: 0.0 <= random(k) < 1.0
    ensures Near(Sum(Delays(n, p, random)), RawTotal(p, n), n, p.jitterRatio)
  {
    hide RawDelay, Near, ComputeBackoffMs;
    if n == 0 {
      assert Near(0, 0.0, 0, p.jitterRatio) by {
        NothingIsNear(p.jitterRatio);
      }
    } else {
      TotalIsNear(n - 1, p, random);
      DelayIsNear(n, p, random(n));
      var waits := Delays(n, p, random);
      assert waits[..|waits| - 1] == Delays(n - 1, p, random);
      NearAdds(Sum(Delays(n - 1, p, random)), RawTotal(p, n - 1), n - 1, ComputeBackoffMs(n, p, random(n)), RawDelay(p, n), p.jitterRatio);
    }
  }

  lemma NothingIsNear(ratio: real)
    ensures Near(0, 0.0, 0, ratio)
  {
  }

  /**
   * The n waits of a run total to within (1 +- jitter) * base * (m^n - 1) / (m - 1),
   * give or take half a millisecond per wait.
   */
  lemma TotalWait(n: nat, p: BackoffParams, random: nat -> real, g: real)
    requires p.baseDelayMs >= 0.0 && p.multiplier > 1.0 && p.jitterRatio >= 0.0
    requires forall k :: 0.0 <= random(k) < 1.0
    requires IsGeometric(g, p, n)
    ensures Near(Sum(Delays(n, p, random)), g, n, p.jitterRatio)
  {
    TotalIsNear(n, p, random);
    RawTotalIsGeometric(p, n);
    hide Near, RawTotal, Pow, Mul;
    MulCancels(g, RawTotal(p, n), p.multiplier - 1.0);
  }

  lemma {:induction false} DelayCount(n: nat, p: BackoffParams, random: nat -> real)
    ensures |Delays(n, p, random)| == n
  {
    if n > 0 {
      DelayCount(n - 1, p, random);
    }
  }
}
