/** What the broker grants in any window of a run, resets and suspended callers included. */
module BrokerWindow {
  import opened Wrappers
  import opened TokenBuckets
  import opened Broker
  import BrokerRuns

  /** The bucket calls of one turn. */
  function TurnOps(cost: real, r: Readings): seq<Op> { [TryConsume(r.consume, cost), Observe(r.after)] }

  /** The bucket calls of one step, in order. */
  function OpsOf(w: BrokerRuns.World, step: BrokerRuns.Step): seq<Op>
    requires w.platform.WellFormed()
  {
    match step
    case Start(cost, _, warnAt, r) => if QuotaCovers(w.platform, cost) then [Observe(warnAt)] + TurnOps(cost, r) else []
    case Wake(i, r) => if i < |w.waiting| then TurnOps(w.waiting[i].cost, r) else []
    case TryOnce(cost, warnAt, r) =>
      if !QuotaCovers(w.platform, cost) then []
      else if CanAfford(Refill(w.platform.bucket, warnAt), r.consume, cost) then [Observe(warnAt)] + TurnOps(cost, r)
      else [Observe(warnAt), TryConsume(r.consume, cost)]
    case Reset => []
  }

  function AllOps(w: BrokerRuns.World, steps: seq<BrokerRuns.Step>, threshold: real): seq<Op>
    requires w.platform.WellFormed()
    decreases steps
  {
    if steps == [] then [] else OpsOf(w, steps[0]) + AllOps(BrokerRuns.Next(w, steps[0], threshold), steps[1..], threshold)
  }

  /** What the log says was granted; a cost that is not positive takes no tokens. */
  function GrantedBy(log: seq<BrokerRuns.Event>): real {
    if log == [] then 0.0
    else
      GrantedBy(log[..|log| - 1]) +
      match log[|log| - 1]
      case Paid(cost) => if cost > 0.0 then cost else 0.0
      case QuotaReset => 0.0
  }

  lemma TurnOpsAre(p: Platform, cost: real, deadline: Option<int>, r: Readings, threshold: real)
    requires p.WellFormed()
    ensures var (q, progress) := Turn(p, cost, deadline, r, threshold);
            && q.bucket == Run(p.bucket, TurnOps(cost, r))
            && Spent(p.bucket, TurnOps(cost, r)) == if progress == Granted && cost > 0.0 then cost else 0.0
  {
    var ops, b := TurnOps(cost, r), Consume(p.bucket, r.consume, cost);
    assert ops[1..] == [Observe(r.after)] && ops[1..][1..] == [];
    assert Run(p.bucket, ops) == Run(b, ops[1..]) == Refill(b, r.after);
    assert Spent(b, ops[1..]) == 0.0;
    assert Spent(p.bucket, ops) == Charge(p.bucket, ops[0]);
  }

  lemma OneOp(b: Bucket, op: Op, rest: seq<Op>)
    ensures Run(b, [op] + rest) == Run(Step(b, op), rest)
    ensures Spent(b, [op] + rest) == Charge(b, op) + Spent(Step(b, op), rest)
  {
    assert ([op] + rest)[1..] == rest;
  }

  lemma StepOpsAre(w: BrokerRuns.World, step: BrokerRuns.Step, threshold: real)
    requires w.platform.WellFormed()
    ensures var w', b, ops := BrokerRuns.Next(w, step, threshold), w.platform.bucket, OpsOf(w, step);
            && w'.platform.bucket == Run(b, ops)
            && |w.log| <= |w'.log| && w'.log[..|w.log|] == w.log
            && Spent(b, ops) == GrantedBy(w'.log[|w.log|..])
  {
    var b := w.platform.bucket;
    match step
    case Start(cost, deadline, warnAt, r) =>
      if QuotaCovers(w.platform, cost) {
        OneOp(b, Observe(warnAt), TurnOps(cost, r));
        TurnOpsAre(Sampled(w.platform, warnAt, threshold), cost, deadline, r, threshold);
      }
    case Wake(i, r) =>
      if i < |w.waiting| {
        TurnOpsAre(w.platform, w.waiting[i].cost, w.waiting[i].deadline, r, threshold);
      }
    case TryOnce(cost, warnAt, r) =>
      if QuotaCovers(w.platform, cost) {
        var q := Sampled(w.platform, warnAt, threshold);
        if CanAfford(q.bucket, r.consume, cost) {
          OneOp(b, Observe(warnAt), TurnOps(cost, r));
          TurnOpsAre(q, cost, None, r, threshold);
        } else {
          OneOp(b, Observe(warnAt), [TryConsume(r.consume, cost)]);
          OneOp(q.bucket, TryConsume(r.consume, cost), []);
        }
      }
    case Reset =>
  }

  lemma {:induction false} SpentSplits(b: Bucket, a: seq<Op>, c: seq<Op>)
    ensures Spent(b, a + c) == Spent(b, a) + Spent(Run(b, a), c)
    decreases a
  {
    if a == [] {
      assert a + c == c;
    } else {
      assert (a + c)[1..] == a[1..] + c;
      SpentSplits(Step(b, a[0]), a[1..], c);
    }
  }

  lemma {:induction false} GrantedSplits(a: seq<BrokerRuns.Event>, c: seq<BrokerRuns.Event>)
    ensures GrantedBy(a + c) == GrantedBy(a) + GrantedBy(c)
    decreases c
  {
    if c == [] {
      assert a + c == a;
    } else {
      assert (a + c)[..|a + c| - 1] == a + c[..|c| - 1];
      GrantedSplits(a, c[..|c| - 1]);
    }
  }

  /** A run of the broker is a run of its bucket, and its log says what the bucket granted. */
  lemma {:induction false} BrokerRunIsBucketRun(w: BrokerRuns.World, steps: seq<BrokerRuns.Step>, threshold: real)
    requires w.platform.WellFormed()
    ensures var w', b, ops := BrokerRuns.Run(w, steps, threshold), w.platform.bucket, AllOps(w, steps, threshold);
            && w'.platform.bucket == Run(b, ops)
            && |w.log| <= |w'.log| && w'.log[..|w.log|] == w.log
            && Spent(b, ops) == GrantedBy(w'.log[|w.log|..])
    decreases steps
  {
    if steps != [] {
      var v := BrokerRuns.Next(w, steps[0], threshold);
      var w' := BrokerRuns.Run(v, steps[1..], threshold);
      var first, rest := OpsOf(w, steps[0]), AllOps(v, steps[1..], threshold);
      StepOpsAre(w, steps[0], threshold);
      BrokerRunIsBucketRun(v, steps[1..], threshold);
      RunSplits(w.platform.bucket, first, rest);
      SpentSplits(w.platform.bucket, first, rest);
      var a, c := v.log[|w.log|..], w'.log[|v.log|..];
      LogSplits(w.log, v.log, w'.log);
      GrantedSplits(a, c);
    }
  }

  lemma LogSplits(a: seq<BrokerRuns.Event>, b: seq<BrokerRuns.Event>, c: seq<BrokerRuns.Event>)
    requires |a| <= |b| <= |c| && b[..|a|] == a && c[..|b|] == b
    ensures c[..|a|] == a && c[|a|..] == b[|a|..] + c[|b|..]
  {
    assert c == b + c[|b|..];
  }

  /**
   * The window bound: between any two points of a broker run, whatever its callers, sleeps, resets
   * and clock readings, the cost granted is at most capacity plus refill rate times the advance of
   * the highest reading.
   */
  lemma GrantedInWindow(w: BrokerRuns.World, before: seq<BrokerRuns.Step>, window: seq<BrokerRuns.Step>, threshold: real)
    requires w.platform.WellFormed()
    ensures var start := BrokerRuns.Run(w, before, threshold);
            var end := BrokerRuns.Run(start, window, threshold);
            var b, early, late := w.platform.bucket, AllOps(w, before, threshold), AllOps(start, window, threshold);
            && |start.log| <= |end.log| && end.log[..|start.log|] == start.log
            && GrantedBy(end.log[|start.log|..])
               <= b.capacity + Inflow(b.refillPerMs, HighWater(b.lastRefill, early + late) - HighWater(b.lastRefill, early))
  {
    var start := BrokerRuns.Run(w, before, threshold);
    BrokerRunIsBucketRun(w, before, threshold);
    BrokerRunIsBucketRun(start, window, threshold);
    WindowBound(w.platform.bucket, AllOps(w, before, threshold), AllOps(start, window, threshold));
    hide *;
  }
}
