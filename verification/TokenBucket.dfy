/**
 * The refilling token bucket.  Tokens and rates are reals, clock readings are
 * whole milliseconds and are passed in by the caller; nothing is assumed about
 * them, so a clock that jumps backwards is covered.
 */
module TokenBuckets {
  import opened Wrappers

  datatype BucketError = CapacityNotPositive | NegativeRefill

  /** The time until a cost can be afforded; `Never` when it never will be. */
  datatype Wait = Never | After(ms: int)

  /** The bucket's fields as a value. */
  datatype Bucket = Bucket(capacity: real, refillPerMs: real, tokens: real, lastRefill: int)
  {
    /** What the constructor establishes; the token count itself may start negative. */
    ghost predicate WellFormed() {
      capacity > 0.0 && refillPerMs >= 0.0 && tokens <= capacity
    }
  }

  function MinReal(a: real, b: real): real { if a <= b then a else b }

  function MaxInt(a: int, b: int): int { if a >= b then a else b }

  function Ceil(x: real): int { -((-x).Floor) }

  /** Tokens that flow in over `ms` milliseconds. */
  function Inflow(rate: real, ms: int): real { ms as real * rate }

  /** A bucket as configured, before any call: it starts full. */
  function Full(capacity: real, refillPerSec: real, now: int): Bucket {
    Bucket(capacity, refillPerSec / 1000.0, capacity, now)
  }

  // ---------------------------------------------------------------- operations on values

  function Refill(b: Bucket, ts: int): Bucket {
    var elapsed := ts - b.lastRefill;
    if elapsed <= 0 then b
    else b.(tokens := MinReal(b.capacity, b.tokens + Inflow(b.refillPerMs, elapsed)), lastRefill := ts)
  }

  predicate CanAfford(b: Bucket, ts: int, cost: real) {
    cost <= 0.0 || Refill(b, ts).tokens >= cost
  }

  function Consume(b: Bucket, ts: int, cost: real): Bucket {
    if cost <= 0.0 then b
    else
      var r := Refill(b, ts);
      if r.tokens >= cost then r.(tokens := r.tokens - cost) else r
  }

  /** The share of the capacity in use. */
  function Used(b: Bucket): real
    requires b.capacity > 0.0
  {
    1.0 - b.tokens / b.capacity
  }

  function MsUntil(b: Bucket, cost: real): Wait {
    if b.tokens >= cost then After(0)
    else if b.refillPerMs <= 0.0 then Never
    else After(Ceil((cost - b.tokens) / b.refillPerMs))
  }

  // ---------------------------------------------------------------- the class

  class TokenBucket {
    const capacity: real
    const refillPerMs: real
    var tokens: real
    var lastRefill: int

    ghost function View(): Bucket
      reads this
    {
      Bucket(capacity, refillPerMs, tokens, lastRefill)
    }

    constructor (capacity: real, refillPerMs: real, tokens: real, lastRefill: int)
      ensures View() == Bucket(capacity, refillPerMs, tokens, lastRefill)
    {
      this.capacity := capacity;
      this.refillPerMs := refillPerMs;
      this.tokens := tokens;
      this.lastRefill := lastRefill;
    }

    /** A bucket from its options: a capacity that is not positive and a negative rate are refused. */
    static method Create(capacity: real, refillPerSec: real, initialTokens: Option<real>, now: int)
      returns (r: Result<TokenBucket, BucketError>)
      ensures r.Ok? <==> capacity > 0.0 && refillPerSec >= 0.0
      ensures r.Err? ==> (r.error == CapacityNotPositive <==> capacity <= 0.0)
      ensures r.Ok? ==> fresh(r.value) && r.value.View().WellFormed()
      ensures r.Ok? ==> r.value.View() == Full(capacity, refillPerSec, now).(tokens :=
                          match initialTokens case None => capacity case Some(t) => MinReal(t, capacity))
    {
      if capacity <= 0.0 {
        return Err(CapacityNotPositive);
      }
      if refillPerSec < 0.0 {
        return Err(NegativeRefill);
      }
      var start := if initialTokens.Some? then initialTokens.value else capacity;
      var b := new TokenBucket(capacity, refillPerSec / 1000.0, MinReal(start, capacity), now);
      return Ok(b);
    }

    method RefillTo(ts: int)
      modifies this
      ensures View() == Refill(old(View()), ts)
    {
      var elapsed := ts - lastRefill;
      if elapsed <= 0 {
        return;
      }
      tokens := MinReal(capacity, tokens + Inflow(refillPerMs, elapsed));
      lastRefill := ts;
    }

    method Utilization(ts: int) returns (u: real)
      requires capacity > 0.0
      modifies this
      ensures View() == Refill(old(View()), ts)
      ensures u == Used(View())
    {
      RefillTo(ts);
      u := 1.0 - tokens / capacity;
    }

    method TryConsume(ts: int, cost: real) returns (granted: bool)
      modifies this
      ensures granted == CanAfford(old(View()), ts, cost)
      ensures View() == Consume(old(View()), ts, cost)
    {
      if cost <= 0.0 {
        return true;
      }
      RefillTo(ts);
      if tokens >= cost {
        tokens := tokens - cost;
        return true;
      }
      return false;
    }

    method MsUntilAvailable(ts: int, cost: real) returns (w: Wait)
      modifies this
      ensures View() == Refill(old(View()), ts)
      ensures w == MsUntil(View(), cost)
    {
      RefillTo(ts);
      if tokens >= cost {
        return After(0);
      }
      if refillPerMs <= 0.0 {
        return Never;
      }
      return After(Ceil((cost - tokens) / refillPerMs));
    }
  }

  // ---------------------------------------------------------------- arithmetic

  lemma InflowAdds(rate: real, a: int, b: int)
    ensures Inflow(rate, a) + Inflow(rate, b) == Inflow(rate, a + b)
  {
    assert (a + b) as real == a as real + b as real;
  }

  lemma InflowMonotone(rate: real, a: int, b: int)
    requires rate >= 0.0 && a <= b
    ensures Inflow(rate, a) <= Inflow(rate, b)
  {
    var d := (b - a) as real;
    assert b as real * rate == a as real * rate + d * rate;
    assert d * rate >= 0.0;
  }

  /** `Ceil(x / rate)` is the least whole number of milliseconds whose inflow covers `x`. */
  lemma CeilIsLeastCover(rate: real, x: real, n: int)
    requires rate > 0.0
    ensures Inflow(rate, n) >= x <==> n >= Ceil(x / rate)
  {
    var q := x / rate;
    assert q * rate == x;
    assert n as real >= q <==> n as real * rate >= x by {
      var gap := n as real - q;
      assert gap * rate == n as real * rate - x;
      assert gap >= 0.0 <==> gap * rate >= 0.0;
    }
    assert n as real >= q <==> -(n as real) <= -q;
    assert -(n as real) == (-n) as real;
    assert (-n) as real <= -q <==> -n <= (-q).Floor;
  }

  // ---------------------------------------------------------------- least wait

  /** Two refills at rising readings are one refill at the later reading. */
  lemma RefillComposes(b: Bucket, s: int, t: int)
    requires b.WellFormed() && s <= t
    ensures Refill(Refill(b, s), t) == Refill(b, t)
  {
    if s > b.lastRefill && t > s {
      InflowAdds(b.refillPerMs, s - b.lastRefill, t - s);
      InflowMonotone(b.refillPerMs, 0, t - s);
      assert Inflow(b.refillPerMs, 0) == 0.0;
    }
  }

  /**
   * For a cost the bucket can hold at all, waiting `n` more milliseconds after a
   * reading `ts` suffices exactly when `n` reaches the advertised wait, plus, if
   * the clock stands behind the last refill and there is something to wait for,
   * the time the clock needs to catch up.  With a clock that has not jumped back
   * the advertised wait is therefore the least one, and `Never` is never wrong.
   */
  lemma WaitIsLeast(b: Bucket, ts: int, cost: real, n: nat)
    requires b.WellFormed() && 0.0 < cost <= b.capacity
    ensures var w := MsUntil(Refill(b, ts), cost);
            CanAfford(b, ts + n, cost) <==>
            w.After? && n >= w.ms + (if w.ms == 0 then 0 else MaxInt(0, b.lastRefill - ts))
  {
    var r := Refill(b, ts);
    var w := MsUntil(r, cost);
    RefillComposes(b, ts, ts + n);
    assert Inflow(b.refillPerMs, 0) == 0.0;
    var elapsed := ts + n - r.lastRefill;
    if elapsed > 0 {
      InflowMonotone(b.refillPerMs, 0, elapsed);
      assert Refill(r, ts + n).tokens >= cost <==> r.tokens + Inflow(b.refillPerMs, elapsed) >= cost;
    }
    if r.tokens < cost && b.refillPerMs > 0.0 {
      CeilIsLeastCover(b.refillPerMs, cost - r.tokens, elapsed);
      CeilIsLeastCover(b.refillPerMs, cost - r.tokens, 0);
      assert w.ms > 0;
    } else if r.tokens < cost {
      assert Inflow(b.refillPerMs, elapsed) == 0.0;
    }
  }

  /** A cost above capacity is never affordable, though a finite wait is advertised for it. */
  lemma OversizeNeverAffordable(b: Bucket, ts: int, cost: real)
    requires b.WellFormed() && b.capacity < cost
    ensures !CanAfford(b, ts, cost)
    ensures b.refillPerMs > 0.0 ==> MsUntil(b, cost).After? && MsUntil(b, cost).ms >= 1
  {
    if b.refillPerMs > 0.0 {
      CeilIsLeastCover(b.refillPerMs, cost - b.tokens, 0);
    }
  }

  // ---------------------------------------------------------------- windows over runs

  /** One call on a bucket: a read (`available`, `utilization`, `msUntilAvailable`) or a `tryConsume`. */
  datatype Op = Observe(ts: int) | TryConsume(ts: int, cost: real)

  /** Whether the call reads the clock at all: a free `tryConsume` returns before refilling. */
  predicate ReadsClock(op: Op) { op.Observe? || op.cost > 0.0 }

  function Step(b: Bucket, op: Op): Bucket {
    match op
    case Observe(ts) => Refill(b, ts)
    case TryConsume(ts, cost) => Consume(b, ts, cost)
  }

  /** The tokens the call is granted. */
  function Charge(b: Bucket, op: Op): real {
    if op.TryConsume? && op.cost > 0.0 && CanAfford(b, op.ts, op.cost) then op.cost else 0.0
  }

  function Run(b: Bucket, ops: seq<Op>): Bucket
    decreases ops
  {
    if ops == [] then b else Run(Step(b, ops[0]), ops[1..])
  }

  function Spent(b: Bucket, ops: seq<Op>): real
    decreases ops
  {
    if ops == [] then 0.0 else Charge(b, ops[0]) + Spent(Step(b, ops[0]), ops[1..])
  }

  /** The highest clock reading seen, starting from `h`; defined without the bucket. */
  function HighWater(h: int, ops: seq<Op>): int
    decreases ops
  {
    if ops == [] then h
    else HighWater(if ReadsClock(ops[0]) then MaxInt(h, ops[0].ts) else h, ops[1..])
  }

  lemma StepFacts(b: Bucket, op: Op)
    requires b.WellFormed()
    ensures var b' := Step(b, op);
            && b'.WellFormed() && b'.capacity == b.capacity && b'.refillPerMs == b.refillPerMs
            && b'.lastRefill == HighWater(b.lastRefill, [op]) >= b.lastRefill
            && b'.tokens + Charge(b, op)
               == MinReal(b.capacity, b.tokens + Inflow(b.refillPerMs, b'.lastRefill - b.lastRefill))
            && b'.tokens >= MinReal(0.0, b.tokens)
  {
    var b' := Step(b, op);
    assert HighWater(b.lastRefill, [op]) == if ReadsClock(op) then MaxInt(b.lastRefill, op.ts) else b.lastRefill;
    InflowMonotone(b.refillPerMs, 0, b'.lastRefill - b.lastRefill);
    assert Inflow(b.refillPerMs, 0) == 0.0;
  }

  /**
   * A run keeps the bucket well formed, tracks exactly the highest reading, and
   * never drops the token count below zero unless it started there.
   */
  lemma {:induction false} RunFacts(b: Bucket, ops: seq<Op>)
    requires b.WellFormed()
    ensures Run(b, ops).WellFormed()
    ensures Run(b, ops).capacity == b.capacity && Run(b, ops).refillPerMs == b.refillPerMs
    ensures Run(b, ops).lastRefill == HighWater(b.lastRefill, ops) >= b.lastRefill
    ensures MinReal(0.0, b.tokens) <= Run(b, ops).tokens <= b.capacity
    decreases ops
  {
    if ops != [] {
      StepFacts(b, ops[0]);
      RunFacts(Step(b, ops[0]), ops[1..]);
    }
  }

  /**
   * What is left of the allowance of the window that opens with call `i`:
   * capacity, plus refill for the advance of the highest reading since that call's
   * own reading, minus everything granted from that call on.
   */
  function Headroom(b: Bucket, ops: seq<Op>, i: nat): real
    requires i < |ops|
    decreases i
  {
    if i == 0 then
      b.capacity
      + Inflow(b.refillPerMs, HighWater(b.lastRefill, ops) - HighWater(b.lastRefill, ops[..1]))
      - Spent(b, ops)
    else Headroom(Step(b, ops[0]), ops[1..], i - 1)
  }

  /** The window that opens with call `i` has used up all but the tokens still in the bucket. */
  predicate IsTight(b: Bucket, ops: seq<Op>, i: nat)
    requires i < |ops|
  {
    Run(b, ops).tokens == Headroom(b, ops, i)
  }

  ghost predicate EveryWindowFits(b: Bucket, ops: seq<Op>, cost: real) {
    forall i | 0 <= i < |ops| :: cost <= Headroom(b, ops, i)
  }

  /** What is left of the tokens the run started with. */
  function StartingAllowance(b: Bucket, ops: seq<Op>): real {
    b.tokens + Inflow(b.refillPerMs, HighWater(b.lastRefill, ops) - b.lastRefill) - Spent(b, ops)
  }

  /**
   * After any run the token count is exactly the least of: the starting allowance
   * and the headroom of every window.  (It is at most each of them, and equal to one.)
   */
  lemma {:induction false} TokensAreLeastHeadroom(b: Bucket, ops: seq<Op>)
    requires b.WellFormed()
    ensures Run(b, ops).tokens <= StartingAllowance(b, ops)
    ensures forall i | 0 <= i < |ops| :: Run(b, ops).tokens <= Headroom(b, ops, i)
    ensures Run(b, ops).tokens == StartingAllowance(b, ops)
            || exists i :: 0 <= i < |ops| && IsTight(b, ops, i)
    decreases ops
  {
    if ops == [] {
      assert Inflow(b.refillPerMs, 0) == 0.0;
    } else {
      var op, tail := ops[0], ops[1..];
      var b' := Step(b, op);
      StepFacts(b, op);
      TokensAreLeastHeadroom(b', tail);
      RunFacts(b', tail);
      var end := HighWater(b.lastRefill, ops);
      assert ops[..1] == [op];
      assert end == HighWater(b'.lastRefill, tail);
      InflowAdds(b.refillPerMs, b'.lastRefill - b.lastRefill, end - b'.lastRefill);
      assert forall i | 0 < i < |ops| :: Headroom(b, ops, i) == Headroom(b', tail, i - 1);
      if i :| 0 <= i < |tail| && IsTight(b', tail, i) {
        assert IsTight(b, ops, i + 1);
      } else {
        assert Run(b, ops).tokens == StartingAllowance(b', tail);
        if Run(b, ops).tokens != StartingAllowance(b, ops) {
          assert IsTight(b, ops, 0);
        }
      }
    }
  }

  /**
   * The window bound: between any two points of a run, the cost granted is at most
   * capacity plus refill rate times the advance of the highest clock reading.
   */
  lemma WindowBound(b: Bucket, before: seq<Op>, window: seq<Op>)
    requires b.WellFormed()
    ensures var start := Run(b, before);
            Spent(start, window) <= b.capacity
              + Inflow(b.refillPerMs,
                       HighWater(b.lastRefill, before + window) - HighWater(b.lastRefill, before))
  {
    var start := Run(b, before);
    RunFacts(b, before);
    TokensAreLeastHeadroom(start, window);
    RunFacts(start, window);
    HighWaterSplits(b.lastRefill, before, window);
    InflowMonotone(b.refillPerMs, 0, HighWater(start.lastRefill, window) - start.lastRefill);
    assert Inflow(b.refillPerMs, 0) == 0.0;
    SpentNeedsTokens(start, window);
  }

  lemma {:induction false} HighWaterSplits(h: int, a: seq<Op>, c: seq<Op>)
    ensures HighWater(h, a + c) == HighWater(HighWater(h, a), c)
    decreases a
  {
    if a == [] {
      assert a + c == c;
    } else {
      assert (a + c)[1..] == a[1..] + c;
      HighWaterSplits(if ReadsClock(a[0]) then MaxInt(h, a[0].ts) else h, a[1..], c);
    }
  }

  /** Nothing is granted from an overdrawn bucket until it is back above zero. */
  lemma {:induction false} SpentNeedsTokens(b: Bucket, ops: seq<Op>)
    requires b.WellFormed()
    ensures Spent(b, ops) >= 0.0
    ensures Spent(b, ops) > 0.0 ==> Run(b, ops).tokens >= 0.0
    decreases ops
  {
    if ops != [] {
      StepFacts(b, ops[0]);
      SpentNeedsTokens(Step(b, ops[0]), ops[1..]);
      RunFacts(Step(b, ops[0]), ops[1..]);
    }
  }

  /**
   * The bucket refuses only what it must: starting full, a positive cost is granted
   * after any run exactly when no window ending with it is overdrawn.
   */
  lemma GrantedIffEveryWindowFits(b: Bucket, ops: seq<Op>, ts: int, cost: real)
    requires b.WellFormed() && b.tokens == b.capacity && cost > 0.0
    ensures CanAfford(Run(b, ops), ts, cost) <==> EveryWindowFits(b, ops + [Observe(ts)], cost)
  {
    var seen := ops + [Observe(ts)];
    RunSplits(b, ops, [Observe(ts)]);
    assert Run(Run(b, ops), [Observe(ts)]) == Refill(Run(b, ops), ts);
    TokensAreLeastHeadroom(b, seen);
    FirstWindowIsTighter(b, seen);
    if i :| 0 <= i < |seen| && IsTight(b, seen, i) {
      assert Run(b, seen).tokens == Headroom(b, seen, i);
    } else {
      assert Run(b, seen).tokens == Headroom(b, seen, 0);
    }
  }

  /** From a full bucket the first window is at least as tight as the starting allowance. */
  lemma FirstWindowIsTighter(b: Bucket, ops: seq<Op>)
    requires b.WellFormed() && b.tokens == b.capacity && ops != []
    ensures Headroom(b, ops, 0) <= StartingAllowance(b, ops)
  {
    StepFacts(b, ops[0]);
    assert ops[..1] == [ops[0]];
    var end := HighWater(b.lastRefill, ops);
    InflowMonotone(b.refillPerMs, end - HighWater(b.lastRefill, ops[..1]), end - b.lastRefill);
  }

  lemma {:induction false} RunSplits(b: Bucket, a: seq<Op>, c: seq<Op>)
    ensures Run(b, a + c) == Run(Run(b, a), c)
    decreases a
  {
    if a == [] {
      assert a + c == c;
    } else {
      assert (a + c)[1..] == a[1..] + c;
      RunSplits(Step(b, a[0]), a[1..], c);
    }
  }
}
