/**
 * The per-platform rate-limit broker: a token bucket plus an optional hard quota.
 *
 * `acquire` suspends at `await sleep(...)`, so it is modelled by the two stretches
 * of code that run without interruption: `Begin` (from the call to the first await
 * or the result) and `Resume` (one turn of the loop after an await).  Every clock
 * reading a stretch makes is a separate parameter, since the clock may tick between
 * two of them.
 */
module Broker {
  import opened Wrappers
  import opened TokenBuckets

  datatype Refusal = Timeout | Quota | UnknownPlatform

  datatype Warning = Warning(platform: string, budget: real, used: int)

  /** The result of one uninterrupted stretch of `acquire`. */
  datatype Progress = Granted | Refused(reason: Refusal) | Sleeping(ms: int)

  /** Clock readings of one turn of the loop: at `tryConsume`, then at the warning or wait, then at the deadline test. */
  datatype Readings = Readings(consume: int, after: int, deadline: int)

  /** A platform's state as a value. */
  datatype Platform = Platform(bucket: Bucket, quotaRemaining: Option<real>, quotaInitial: Option<real>, warned: bool)
  {
    ghost predicate WellFormed() { bucket.WellFormed() }
  }

  function Configured(capacity: real, refillPerSec: real, quota: Option<real>, now: int): Platform {
    Platform(Full(capacity, refillPerSec, now), quota, quota, false)
  }

  /** The warning flag after a utilisation sample. */
  function Sampled(p: Platform, ts: int, threshold: real): Platform
    requires p.bucket.capacity > 0.0
  {
    var b := Refill(p.bucket, ts);
    p.(bucket := b, warned := Used(b) >= threshold)
  }

  predicate QuotaCovers(p: Platform, cost: real) {
    p.quotaRemaining.None? || p.quotaRemaining.value >= cost
  }

  function Pay(p: Platform, cost: real): Platform {
    match p.quotaRemaining
    case None => p
    case Some(q) => p.(quotaRemaining := Some(q - cost))
  }

  function ResetQuota(p: Platform): Platform { p.(quotaRemaining := p.quotaInitial) }

  /** Whether a wait is given up because of the deadline. */
  predicate DeadlineCuts(deadline: Option<int>, now: int, wait: int) {
    deadline.Some? && (deadline.value - now <= 0 || wait > deadline.value - now)
  }

  /** What a granted acquisition leaves behind: the tokens and the quota are paid, the warning resampled. */
  function Taken(p: Platform, cost: real, r: Readings, threshold: real): Platform
    requires p.bucket.capacity > 0.0
  {
    Sampled(Pay(p.(bucket := Consume(p.bucket, r.consume, cost)), cost), r.after, threshold)
  }

  /** One turn of the loop. */
  function Turn(p: Platform, cost: real, deadline: Option<int>, r: Readings, threshold: real): (Platform, Progress)
    requires p.bucket.capacity > 0.0
  {
    if CanAfford(p.bucket, r.consume, cost) then
      (Taken(p, cost, r, threshold), Granted)
    else
      var b := Refill(Refill(p.bucket, r.consume), r.after);
      var q := p.(bucket := b);
      match MsUntil(b, cost)
      case Never => (q, Refused(Timeout))
      case After(ms) =>
        if DeadlineCuts(deadline, r.deadline, ms) then (q, Refused(Timeout)) else (q, Sleeping(ms))
  }

  /** The stretch from the call up to the first await or the result. */
  function Begin(p: Platform, cost: real, deadline: Option<int>, warnAt: int, r: Readings, threshold: real)
    : (Platform, Progress)
    requires p.bucket.capacity > 0.0
  {
    if !QuotaCovers(p, cost) then (p, Refused(Quota))
    else Turn(Sampled(p, warnAt, threshold), cost, deadline, r, threshold)
  }

  /** `tryAcquire`: the same checks, with every shortage reported as a timeout. */
  function TryNow(p: Platform, cost: real, warnAt: int, r: Readings, threshold: real): (Platform, Progress)
    requires p.bucket.capacity > 0.0
  {
    if !QuotaCovers(p, cost) then (p, Refused(Quota))
    else
      var q := Sampled(p, warnAt, threshold);
      if CanAfford(q.bucket, r.consume, cost) then (Taken(q, cost, r, threshold), Granted)
      else (q.(bucket := Refill(q.bucket, r.consume)), Refused(Timeout))
  }

  /** A warning names the capacity and the tokens in use, rounded to the nearest whole. */
  function WarningOf(platform: string, b: Bucket): Warning {
    Warning(platform, b.capacity, (b.capacity - b.tokens + 0.5).Floor)
  }

  /** The warning of a flag that goes up. */
  function Rise(platform: string, before: Platform, after: Platform): seq<Warning> {
    if after.warned && !before.warned then [WarningOf(platform, after.bucket)] else []
  }

  lemma UsedAmount(b: Bucket, utilization: real, used: real)
    requires b.capacity > 0.0 && utilization == Used(b) && used == b.capacity * utilization
    ensures used == b.capacity - b.tokens
  {
    assert b.tokens / b.capacity * b.capacity == b.tokens;
  }

  lemma StaysWellFormed(b: Bucket, ts: int, cost: real)
    requires b.WellFormed()
    ensures Refill(b, ts).WellFormed() && Refill(b, ts).capacity == b.capacity
    ensures Consume(b, ts, cost).WellFormed() && Consume(b, ts, cost).capacity == b.capacity
    ensures !CanAfford(b, ts, cost) ==> Consume(b, ts, cost) == Refill(b, ts)
  {
  }

  // ---------------------------------------------------------------- answers and their reasons

  /** The hard quota is set and below the cost. */
  predicate QuotaShort(p: Platform, cost: real) { p.quotaRemaining.Some? && p.quotaRemaining.value < cost }

  /** A positive cost is more than the tokens. */
  predicate TokensShort(b: Bucket, cost: real) { cost > 0.0 && b.tokens < cost }

  /** No refill will ever come, or none large enough before the deadline. */
  predicate GivesUp(b: Bucket, cost: real, deadline: Option<int>, now: int) {
    || (b.refillPerMs == 0.0 && b.tokens < cost)
    || (deadline.Some? && (deadline.value <= now || b.tokens + Inflow(b.refillPerMs, deadline.value - now) < cost))
  }

  /** Waiting n ms on a refilled bucket suffices exactly from `ms` on. */
  ghost predicate IsLeastWait(ms: int, b: Bucket, cost: real) {
    ms >= 0 && forall n: nat :: b.tokens + Inflow(b.refillPerMs, n) >= cost <==> n >= ms
  }

  /** A turn grants what the bucket holds, gives up for a timeout only, and sleeps the least time that helps. */
  lemma TurnAnswers(p: Platform, cost: real, deadline: Option<int>, r: Readings, threshold: real)
    requires p.WellFormed()
    ensures var answer := Turn(p, cost, deadline, r, threshold).1;
            var first := Refill(p.bucket, r.consume);
            var second := Refill(first, r.after);
            && (answer == Granted <==> !TokensShort(first, cost))
            && (answer == Refused(Timeout) <==> TokensShort(first, cost) && GivesUp(second, cost, deadline, r.deadline))
            && (answer.Sleeping? <==> TokensShort(first, cost) && !GivesUp(second, cost, deadline, r.deadline))
            && (answer.Sleeping? ==> IsLeastWait(answer.ms, second, cost))
  {
    var b := Refill(Refill(p.bucket, r.consume), r.after);
    StaysWellFormed(p.bucket, r.consume, cost);
    StaysWellFormed(Refill(p.bucket, r.consume), r.after, cost);
    WaitCovers(b, cost);
    if deadline.Some? && deadline.value > r.deadline {
      WaitReaches(b, cost, deadline.value - r.deadline);
    }
    hide Refill, Inflow, IsLeastWait;
  }

  lemma WaitReaches(b: Bucket, cost: real, n: nat)
    requires b.WellFormed()
    ensures var w := MsUntil(b, cost);
            w.After? ==> w.ms >= 0 && (b.tokens + Inflow(b.refillPerMs, n) >= cost <==> n >= w.ms)
  {
    InflowMonotone(b.refillPerMs, 0, n);
    assert Inflow(b.refillPerMs, 0) == 0.0;
    if b.tokens < cost && b.refillPerMs > 0.0 {
      CeilIsLeastCover(b.refillPerMs, cost - b.tokens, n);
      CeilIsLeastCover(b.refillPerMs, cost - b.tokens, 0);
    }
  }

  lemma WaitCovers(b: Bucket, cost: real)
    requires b.WellFormed()
    ensures var w := MsUntil(b, cost);
            && (w.Never? <==> b.tokens < cost && b.refillPerMs == 0.0)
            && (w.After? ==> IsLeastWait(w.ms, b, cost))
  {
    WaitReaches(b, cost, 0);
    forall n: nat
      ensures MsUntil(b, cost).After? ==> (b.tokens + Inflow(b.refillPerMs, n) >= cost <==> n >= MsUntil(b, cost).ms)
    {
      WaitReaches(b, cost, n);
    }
  }

  /** The first stretch is refused for the quota exactly when that is short, before the bucket is looked at. */
  lemma BeginAnswers(p: Platform, cost: real, deadline: Option<int>, warnAt: int, r: Readings, threshold: real)
    requires p.WellFormed()
    ensures var answer := Begin(p, cost, deadline, warnAt, r, threshold).1;
            var first := Refill(Refill(p.bucket, warnAt), r.consume);
            var second := Refill(first, r.after);
            && (answer == Refused(Quota) <==> QuotaShort(p, cost))
            && (answer == Granted <==> !QuotaShort(p, cost) && !TokensShort(first, cost))
            && (answer == Refused(Timeout) <==>
                  !QuotaShort(p, cost) && TokensShort(first, cost) && GivesUp(second, cost, deadline, r.deadline))
            && (answer.Sleeping? <==>
                  !QuotaShort(p, cost) && TokensShort(first, cost) && !GivesUp(second, cost, deadline, r.deadline))
  {
    StaysWellFormed(p.bucket, warnAt, cost);
    TurnAnswers(Sampled(p, warnAt, threshold), cost, deadline, r, threshold);
    hide Refill, Turn, GivesUp, TokensShort;
  }

  /** One attempt: refused for the quota, refused for the tokens, or granted, and which of them when. */
  lemma TryAnswers(p: Platform, cost: real, warnAt: int, r: Readings, threshold: real)
    requires p.WellFormed()
    ensures var answer := TryNow(p, cost, warnAt, r, threshold).1;
            var held := Refill(Refill(p.bucket, warnAt), r.consume);
            && (answer == Refused(Quota) <==> QuotaShort(p, cost))
            && (answer == Refused(Timeout) <==> !QuotaShort(p, cost) && TokensShort(held, cost))
            && (answer == Granted <==> !QuotaShort(p, cost) && !TokensShort(held, cost))
  {
    StaysWellFormed(p.bucket, warnAt, cost);
    hide Refill, Consume;
  }

  // ---------------------------------------------------------------- warnings

  /** The flag says whether the tokens in use are at least the threshold's share of the capacity. */
  predicate FlagFits(p: Platform, threshold: real) {
    p.warned <==> p.bucket.capacity - p.bucket.tokens >= threshold * p.bucket.capacity
  }

  /** What a call emits: the flag may go up at its first sample and again at its grant. */
  function Warnings(platform: string, before: Platform, after: Platform, cost: real, warnAt: int, threshold: real): seq<Warning>
    requires before.bucket.capacity > 0.0
  {
    if QuotaShort(before, cost) then []
    else Rise(platform, before, Sampled(before, warnAt, threshold)) + Rise(platform, Sampled(before, warnAt, threshold), after)
  }

  lemma SampledFits(p: Platform, ts: int, threshold: real)
    requires p.WellFormed()
    ensures FlagFits(Sampled(p, ts, threshold), threshold)
  {
    StaysWellFormed(p.bucket, ts, 0.0);
    var b := Refill(p.bucket, ts);
    hide Refill;
    assert Used(b) * b.capacity == b.capacity - b.tokens by { UsedAmount(b, Used(b), b.capacity * Used(b)); }
    var u, c := Used(b), b.capacity;
    hide Used;
    ScaledOrder(u, threshold, c);
  }

  lemma ScaledOrder(x: real, y: real, c: real)
    requires c > 0.0
    ensures x >= y <==> x * c >= y * c
  {
    assert (x - y) * c == x * c - y * c;
    assert x >= y <==> (x - y) * c >= 0.0;
  }

  /** Every granted call leaves the flag fitting the bucket it leaves, and a warning counts the tokens in use to the nearest whole. */
  lemma GrantLeavesFlag(p: Platform, cost: real, deadline: Option<int>, warnAt: int, r: Readings, threshold: real, platform: string)
    requires p.WellFormed()
    ensures var (q, answer) := TryNow(p, cost, warnAt, r, threshold); answer == Granted ==> FlagFits(q, threshold)
    ensures var (q, answer) := Begin(p, cost, deadline, warnAt, r, threshold); answer == Granted ==> FlagFits(q, threshold)
    ensures var (q, answer) := Turn(p, cost, deadline, r, threshold); answer == Granted ==> FlagFits(q, threshold)
    ensures var warning := WarningOf(platform, p.bucket);
            && warning.platform == platform && warning.budget == p.bucket.capacity
            && warning.used as real - 0.5 <= p.bucket.capacity - p.bucket.tokens < warning.used as real + 0.5
  {
    var s := Sampled(p, warnAt, threshold);
    StaysWellFormed(p.bucket, warnAt, cost);
    StaysWellFormed(p.bucket, r.consume, cost);
    StaysWellFormed(s.bucket, r.consume, cost);
    SampledFits(Pay(p.(bucket := Consume(p.bucket, r.consume, cost)), cost), r.after, threshold);
    SampledFits(Pay(s.(bucket := Consume(s.bucket, r.consume, cost)), cost), r.after, threshold);
    hide Refill, Consume, CanAfford, FlagFits, Used, MsUntil, DeadlineCuts;
  }

  /** A configured bucket gains its configured rate every second. */
  lemma RefillsPerSecond(capacity: real, refillPerSec: real, quota: Option<real>, now: int)
    ensures var p := Configured(capacity, refillPerSec, quota, now);
            Inflow(p.bucket.refillPerMs, 1000) == refillPerSec && p.bucket.tokens == p.bucket.capacity == capacity
            && p.quotaRemaining == p.quotaInitial == quota && !p.warned
  {
  }

  lemma TurnStaysWellFormed(p: Platform, cost: real, deadline: Option<int>, r: Readings, threshold: real)
    requires p.WellFormed()
    ensures var q := Turn(p, cost, deadline, r, threshold).0; q.WellFormed() && q.bucket.capacity == p.bucket.capacity
  {
    StaysWellFormed(p.bucket, r.consume, cost);
    StaysWellFormed(Refill(p.bucket, r.consume), r.after, cost);
    StaysWellFormed(Consume(p.bucket, r.consume, cost), r.after, cost);
    hide Refill, Consume, CanAfford, MsUntil, Used;
  }

  /** No stretch of code changes the capacity or lets tokens exceed it. */
  lemma StretchesStayWellFormed(p: Platform, cost: real, deadline: Option<int>, warnAt: int, r: Readings, threshold: real)
    requires p.WellFormed()
    ensures var q := Turn(p, cost, deadline, r, threshold).0; q.WellFormed() && q.bucket.capacity == p.bucket.capacity
    ensures var q := Begin(p, cost, deadline, warnAt, r, threshold).0; q.WellFormed() && q.bucket.capacity == p.bucket.capacity
    ensures var q := TryNow(p, cost, warnAt, r, threshold).0; q.WellFormed() && q.bucket.capacity == p.bucket.capacity
  {
    var sampled := Sampled(p, warnAt, threshold);
    StaysWellFormed(p.bucket, warnAt, cost);
    StaysWellFormed(sampled.bucket, r.consume, cost);
    StaysWellFormed(Consume(sampled.bucket, r.consume, cost), r.after, cost);
    TurnStaysWellFormed(p, cost, deadline, r, threshold);
    TurnStaysWellFormed(sampled, cost, deadline, r, threshold);
    hide Refill, Consume, CanAfford, Used, Turn;
  }

  // ---------------------------------------------------------------- the class

  class PlatformState {
    const bucket: TokenBucket
    var quotaRemaining: Option<real>
    const quotaInitial: Option<real>
    var warned: bool

    ghost function View(): Platform
      reads this, bucket
    {
      Platform(bucket.View(), quotaRemaining, quotaInitial, warned)
    }

    constructor (bucket: TokenBucket, quota: Option<real>)
      ensures this.bucket == bucket && View() == Platform(bucket.View(), quota, quota, false)
    {
      this.bucket := bucket;
      this.quotaRemaining := quota;
      this.quotaInitial := quota;
      this.warned := false;
    }
  }

  class RateLimitBroker {
    const threshold: real
    var states: map<string, PlatformState>
    var emitted: seq<Warning>

    ghost function Repr(): set<object>
      reads this, states.Values
    {
      {this} + states.Values + set p | p in states.Values :: p.bucket
    }

    /** Platforms share neither their state objects nor their buckets. */
    ghost predicate Valid()
      reads this, Repr()
    {
      && (forall a | a in states :: states[a].bucket.View().WellFormed())
      && (forall a, b | a in states && b in states && a != b ::
            states[a] != states[b] && states[a].bucket != states[b].bucket)
    }

    ghost function View(platform: string): Platform
      requires platform in states
      reads this, Repr()
    {
      states[platform].View()
    }

    /** Every other platform is as it was. */
    twostate predicate OthersUntouched(platform: string)
      reads this, Repr()
    {
      && states == old(states)
      && forall a | a in states && a != platform :: states[a].View() == old(states[a].View())
    }

    constructor (threshold: real)
      ensures Valid() && fresh(Repr()) && states == map[] && emitted == [] && this.threshold == threshold
    {
      this.threshold := threshold;
      this.states := map[];
      this.emitted := [];
    }

    method Configure(platform: string, capacity: real, refillPerSec: real, quota: Option<real>, now: int)
      returns (r: Result<(), BucketError>)
      requires Valid()
      modifies this
      ensures Valid() && fresh(Repr() - old(Repr())) && emitted == old(emitted)
      ensures r.Ok? <==> capacity > 0.0 && refillPerSec >= 0.0
      ensures r.Ok? ==> states.Keys == old(states).Keys + {platform}
                        && View(platform) == Configured(capacity, refillPerSec, quota, now)
      ensures r.Err? ==> states == old(states)
      ensures forall a | a in old(states) && a != platform :: a in states && states[a] == old(states)[a]
    {
      var b := TokenBucket.Create(capacity, refillPerSec, None, now);
      match b {
        case Err(e) => return Err(e);
        case Ok(bucket) =>
          var s := new PlatformState(bucket, quota);
          states := states[platform := s];
          return Ok(());
      }
    }

    method Reset(platform: string)
      requires Valid()
      modifies Repr()
      ensures Valid() && OthersUntouched(platform) && Repr() == old(Repr()) && emitted == old(emitted)
      ensures platform in states ==> View(platform) == ResetQuota(old(View(platform)))
    {
      if platform in states {
        var s := states[platform];
        s.quotaRemaining := s.quotaInitial;
      }
    }

    /** Emits at most one warning, and only when the flag goes up. */
    method MaybeWarn(platform: string, ts: int)
      requires Valid() && platform in states
      modifies Repr()
      ensures Valid() && OthersUntouched(platform) && Repr() == old(Repr())
      ensures View(platform) == Sampled(old(View(platform)), ts, threshold)
      ensures emitted == old(emitted) + Rise(platform, old(View(platform)), View(platform))
    {
      var s := states[platform];
      StaysWellFormed(s.bucket.View(), ts, 0.0);
      hide Refill, Used, WarningOf;
      var utilization := s.bucket.Utilization(ts);
      if utilization >= threshold {
        if !s.warned {
          s.warned := true;
          Emit(platform, s.bucket, utilization);
        }
      } else {
        s.warned := false;
      }
    }

    /** The warning names the capacity and the tokens in use. */
    method Emit(platform: string, bucket: TokenBucket, utilization: real)
      requires bucket.capacity > 0.0 && utilization == Used(bucket.View())
      modifies this`emitted
      ensures emitted == old(emitted) + [WarningOf(platform, bucket.View())]
    {
      var used := bucket.capacity * utilization;
      UsedAmount(bucket.View(), utilization, used);
      emitted := emitted + [Warning(platform, bucket.capacity, (used + 0.5).Floor)];
    }

    /** Takes the tokens if the bucket has them, and then pays the quota and resamples the warning. */
    method Take(platform: string, cost: real, r: Readings) returns (granted: bool)
      requires Valid() && platform in states
      modifies Repr()
      ensures Valid() && OthersUntouched(platform) && Repr() == old(Repr())
      ensures granted == CanAfford(old(View(platform)).bucket, r.consume, cost)
      ensures View(platform) ==
        if granted then Taken(old(View(platform)), cost, r, threshold)
        else old(View(platform)).(bucket := Refill(old(View(platform)).bucket, r.consume))
      ensures emitted == old(emitted) + Rise(platform, old(View(platform)), View(platform))
    {
      var s := states[platform];
      StaysWellFormed(s.bucket.View(), r.consume, cost);
      hide Refill, CanAfford, Consume, Sampled;
      granted := s.bucket.TryConsume(r.consume, cost);
      if granted {
        if s.quotaRemaining.Some? {
          s.quotaRemaining := Some(s.quotaRemaining.value - cost);
        }
        MaybeWarn(platform, r.after);
      }
    }

    /** One turn of the loop in `acquire`, up to its result or its await. */
    method Resume(platform: string, cost: real, deadline: Option<int>, r: Readings) returns (progress: Progress)
      requires Valid() && platform in states
      modifies Repr()
      ensures Valid() && OthersUntouched(platform) && Repr() == old(Repr())
      ensures (View(platform), progress) == Turn(old(View(platform)), cost, deadline, r, threshold)
      ensures emitted == old(emitted) + Rise(platform, old(View(platform)), View(platform))
    {
      var granted := Take(platform, cost, r);
      if granted {
        return Granted;
      }
      var s := states[platform];
      var wait := s.bucket.MsUntilAvailable(r.after, cost);
      if wait.Never? {
        return Refused(Timeout);
      }
      if deadline.Some? {
        var remaining := deadline.value - r.deadline;
        if remaining <= 0 || wait.ms > remaining {
          return Refused(Timeout);
        }
      }
      return Sleeping(wait.ms);
    }

    /** `acquire` from the call up to its result or its first await. */
    method Acquire(platform: string, cost: real, timeoutMs: Option<int>, now: int, warnAt: int, r: Readings)
      returns (progress: Progress, deadline: Option<int>)
      requires Valid()
      modifies Repr()
      ensures Valid() && OthersUntouched(platform) && Repr() == old(Repr())
      ensures platform !in states <==> progress == Refused(UnknownPlatform)
      ensures platform in states ==>
        && deadline == Deadline(timeoutMs, now)
        && (View(platform), progress) == Begin(old(View(platform)), cost, deadline, warnAt, r, threshold)
        && (progress == Refused(Quota) <==> QuotaShort(old(View(platform)), cost))
        && emitted == old(emitted) + Warnings(platform, old(View(platform)), View(platform), cost, warnAt, threshold)
    {
      deadline := Deadline(timeoutMs, now);
      if platform !in states {
        return Refused(UnknownPlatform), deadline;
      }
      var s := states[platform];
      if s.quotaRemaining.Some? && s.quotaRemaining.value < cost {
        return Refused(Quota), deadline;
      }
      MaybeWarn(platform, warnAt);
      progress := Resume(platform, cost, deadline, r);
    }

    method TryAcquire(platform: string, cost: real, warnAt: int, r: Readings) returns (progress: Progress)
      requires Valid()
      modifies Repr()
      ensures Valid() && OthersUntouched(platform) && Repr() == old(Repr())
      ensures platform !in states <==> progress == Refused(UnknownPlatform)
      ensures platform in states ==>
        && (View(platform), progress) == TryNow(old(View(platform)), cost, warnAt, r, threshold)
        && (progress == Refused(Quota) <==> QuotaShort(old(View(platform)), cost))
        && (progress == Refused(Timeout) <==>
              !QuotaShort(old(View(platform)), cost) && TokensShort(Refill(Refill(old(View(platform)).bucket, warnAt), r.consume), cost))
        && emitted == old(emitted) + Warnings(platform, old(View(platform)), View(platform), cost, warnAt, threshold)
    {
      if platform !in states {
        return Refused(UnknownPlatform);
      }
      var s := states[platform];
      if s.quotaRemaining.Some? && s.quotaRemaining.value < cost {
        return Refused(Quota);
      }
      MaybeWarn(platform, warnAt);
      var granted := Take(platform, cost, r);
      return if granted then Granted else Refused(Timeout);
    }

    /**
     * A caller alone on its platform whose sleeps are exact and whose clock stands
     * still while it runs.
     */
    method AcquireAlone(platform: string, cost: real, timeoutMs: Option<int>, now: int)
      returns (progress: Progress, sleeps: nat)
      requires Valid() && platform in states
      requires !WaitsForever(View(platform), cost, timeoutMs)
      modifies Repr()
      ensures Valid() && OthersUntouched(platform) && Repr() == old(Repr())
      ensures AloneOutcome(old(View(platform)), cost, timeoutMs, now, progress, sleeps)
    {
      hide Turn, Begin, Refill, CanAfford, MsUntil, AloneAt, AloneSoFar, AloneOutcome;
      ghost var p := View(platform);
      var clock := now;
      var deadline;
      sleeps := 0;
      progress, deadline := Acquire(platform, cost, timeoutMs, clock, clock, Readings(clock, clock, clock));
      AloneBegins(p, cost, timeoutMs, now, threshold);
      while progress.Sleeping?
        invariant Valid() && OthersUntouched(platform) && Repr() == old(Repr())
        invariant AloneSoFar(p, View(platform), cost, deadline, now, clock, progress, sleeps)
        decreases AloneBound(p.bucket, cost, deadline, now) - clock
      {
        AloneResumes(p, View(platform), cost, deadline, now, clock, progress, sleeps, threshold);
        clock := clock + progress.ms;
        sleeps := sleeps + 1;
        progress := Resume(platform, cost, deadline, Readings(clock, clock, clock));
      }
      AloneEnds(p, View(platform), cost, timeoutMs, now, clock, progress, sleeps);
    }
  }

  // ---------------------------------------------------------------- a lone caller

  /** The quota covers the cost, and the bucket can afford it at some whole millisecond within the timeout. */
  ghost predicate GrantedAlone(p: Platform, cost: real, timeoutMs: Option<int>, now: int) {
    && QuotaCovers(p, cost)
    && exists t :: now <= t && (t == now || timeoutMs.None? || t <= now + timeoutMs.value) && CanAfford(p.bucket, t, cost)
  }

  /** The calls that never return: no deadline, and a cost the refilling bucket can never hold. */
  predicate WaitsForever(p: Platform, cost: real, deadline: Option<int>) {
    deadline.None? && QuotaCovers(p, cost) && cost > p.bucket.capacity && p.bucket.refillPerMs > 0.0
  }

  /** Such a call goes back to sleep on every turn, whatever the clock does and whoever else pays in between. */
  lemma WaitsForeverSleeps(p: Platform, cost: real, r: Readings, threshold: real)
    requires p.WellFormed() && cost > p.bucket.capacity && p.bucket.refillPerMs > 0.0
    ensures Turn(p, cost, None, r, threshold).1.Sleeping?
  {
    OversizeNeverAffordable(p.bucket, r.consume, cost);
    OversizeNeverAffordable(Refill(Refill(p.bucket, r.consume), r.after), r.after, cost);
  }

  /**
   * What a lone `acquire` promises.  It is granted exactly when the quota covers the cost
   * and some wait within the timeout suffices.  Unless the clock stands behind the last
   * refill it sleeps at most once for a cost the bucket can hold.  With a deadline it never
   * sleeps more often than the timeout has milliseconds.
   */
  ghost predicate AloneOutcome(p: Platform, cost: real, timeoutMs: Option<int>, now: int, progress: Progress, sleeps: nat) {
    && (progress == Granted <==> GrantedAlone(p, cost, timeoutMs, now))
    && (now >= p.bucket.lastRefill && cost <= p.bucket.capacity ==> sleeps <= 1)
    && (progress == Refused(Quota) <==> !QuotaCovers(p, cost))
    && progress in {Granted, Refused(Quota), Refused(Timeout)}
    && (timeoutMs.Some? ==> sleeps <= MaxInt(0, timeoutMs.value))
  }

  function Deadline(timeoutMs: Option<int>, now: int): Option<int> {
    match timeoutMs case None => None case Some(t) => Some(now + t)
  }

  /** How the result of a turn that ends at `clock` relates to the bucket the caller first found. */
  ghost predicate AloneAt(b: Bucket, cost: real, deadline: Option<int>, clock: int, progress: Progress) {
    var w := MsUntil(Refill(b, clock), cost);
    match progress
    case Granted => CanAfford(b, clock, cost)
    case Sleeping(ms) => !CanAfford(b, clock, cost) && w == After(ms) && ms >= 1 && !DeadlineCuts(deadline, clock, ms)
    case Refused(reason) =>
      reason == Timeout && !CanAfford(b, clock, cost) && (w.After? ==> w.ms >= 1 && DeadlineCuts(deadline, clock, w.ms))
  }

  /** The loop invariant of a lone caller: `p` is the platform it first found, `q` the platform now. */
  ghost predicate AloneSoFar(p: Platform, q: Platform, cost: real, deadline: Option<int>,
                             now: int, clock: int, progress: Progress, sleeps: nat) {
    if !QuotaCovers(p, cost) then progress == Refused(Quota) && sleeps == 0
    else
      && AloneAt(p.bucket, cost, deadline, clock, progress)
      && (progress.Sleeping? ==> q.bucket == Refill(p.bucket, clock) && q.WellFormed())
      && sleeps <= clock - now && (sleeps == 0 ==> clock == now)
      && (deadline.Some? && sleeps > 0 ==> clock <= deadline.value)
      && (now >= p.bucket.lastRefill && cost <= p.bucket.capacity && sleeps > 0 ==> sleeps == 1 && progress == Granted)
  }

  lemma AloneTurn(b: Bucket, before: int, p: Platform, cost: real, deadline: Option<int>, clock: int, threshold: real)
    requires b.WellFormed() && before <= clock && p.bucket == Refill(b, before)
    ensures var (q, progress) := Turn(p, cost, deadline, Readings(clock, clock, clock), threshold);
            && AloneAt(b, cost, deadline, clock, progress)
            && (progress.Sleeping? ==> q.bucket == Refill(b, clock))
  {
    RefillComposes(b, before, clock);
    RefillComposes(b, clock, clock);
    var r := Refill(b, clock);
    if r.tokens < cost && r.refillPerMs > 0.0 {
      CeilIsLeastCover(r.refillPerMs, cost - r.tokens, 0);
    }
  }

  lemma AloneBegins(p: Platform, cost: real, timeoutMs: Option<int>, now: int, threshold: real)
    requires p.WellFormed()
    ensures var deadline := Deadline(timeoutMs, now);
            var (q, progress) := Begin(p, cost, deadline, now, Readings(now, now, now), threshold);
            AloneSoFar(p, q, cost, deadline, now, now, progress, 0)
  {
    if QuotaCovers(p, cost) {
      AloneTurn(p.bucket, now, Sampled(p, now, threshold), cost, Deadline(timeoutMs, now), now, threshold);
    }
  }

  /** A time by which a lone caller that can be served, or has a deadline, no longer sleeps. */
  ghost function AloneBound(b: Bucket, cost: real, deadline: Option<int>, now: int): int {
    match deadline
    case Some(d) => d
    case None =>
      match MsUntil(Refill(b, now), cost)
      case Never => now
      case After(ms) => now + ms + MaxInt(0, b.lastRefill - now)
  }

  lemma AloneResumes(p: Platform, q: Platform, cost: real, deadline: Option<int>,
                     now: int, clock: int, progress: Progress, sleeps: nat, threshold: real)
    requires p.WellFormed() && q.bucket.capacity > 0.0 && progress.Sleeping? && now <= clock
    requires AloneSoFar(p, q, cost, deadline, now, clock, progress, sleeps)
    requires !WaitsForever(p, cost, deadline)
    ensures progress.ms >= 1 && clock <= AloneBound(p.bucket, cost, deadline, now)
    ensures var later := clock + progress.ms;
            var (q', progress') := Turn(q, cost, deadline, Readings(later, later, later), threshold);
            AloneSoFar(p, q', cost, deadline, now, later, progress', sleeps + 1)
  {
    if deadline.None? {
      WaitIsLeast(p.bucket, now, cost, clock - now);
    }
    if cost <= p.bucket.capacity && now >= p.bucket.lastRefill {
      WaitIsLeast(p.bucket, now, cost, progress.ms);
    }
    AloneTurn(p.bucket, clock, q, cost, deadline, clock + progress.ms, threshold);
  }

  lemma AloneEnds(p: Platform, q: Platform, cost: real, timeoutMs: Option<int>,
                  now: int, clock: int, progress: Progress, sleeps: nat)
    requires p.WellFormed() && !progress.Sleeping? && now <= clock
    requires AloneSoFar(p, q, cost, Deadline(timeoutMs, now), now, clock, progress, sleeps)
    ensures AloneOutcome(p, cost, timeoutMs, now, progress, sleeps)
  {
    if progress == Granted {
      assert CanAfford(p.bucket, clock, cost);
    } else if QuotaCovers(p, cost) {
      forall t | now <= t && (t == now || timeoutMs.None? || t <= now + timeoutMs.value)
        ensures !CanAfford(p.bucket, t, cost)
      {
        if cost > p.bucket.capacity {
          OversizeNeverAffordable(p.bucket, t, cost);
        } else if t >= clock {
          WaitIsLeast(p.bucket, clock, cost, t - clock);
        } else {
          WaitIsLeast(p.bucket, t, cost, clock - t);
        }
      }
    }
  }
}
