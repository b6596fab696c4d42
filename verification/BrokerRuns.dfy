/**
 * Interleaved callers of one platform.  Platforms share no state, so a run is a
 * sequence of steps on one of them; a caller suspended in its sleep loop sits in
 * `waiting` between the quota check it passed and the payment still to come.
 */
module BrokerRuns {
  import opened Wrappers
  import opened TokenBuckets
  import opened Broker

  datatype Caller = Caller(cost: real, deadline: Option<int>)

  datatype Event = Paid(cost: real) | QuotaReset

  datatype World = World(platform: Platform, waiting: seq<Caller>, log: seq<Event>)

  datatype Step =
    | Start(cost: real, deadline: Option<int>, warnAt: int, readings: Readings)
    | Wake(who: nat, readings: Readings)
    | TryOnce(cost: real, warnAt: int, readings: Readings)
    | Reset

  function Without(s: seq<Caller>, i: nat): seq<Caller>
    requires i < |s|
  {
    s[..i] + s[i + 1..]
  }

  /** Records the result of one stretch of code of a caller who is not in `waiting`. */
  function Record(w: World, p: Platform, c: Caller, progress: Progress): World {
    match progress
    case Granted => World(p, w.waiting, w.log + [Paid(c.cost)])
    case Refused(_) => w.(platform := p)
    case Sleeping(_) => World(p, w.waiting + [c], w.log)
  }

  function Next(w: World, step: Step, threshold: real): (w': World)
    requires w.platform.WellFormed()
    ensures w'.platform.WellFormed() && w'.platform.bucket.capacity == w.platform.bucket.capacity
  {
    hide Turn, Begin, TryNow;
    match step
    case Start(cost, deadline, warnAt, r) =>
      StretchesStayWellFormed(w.platform, cost, deadline, warnAt, r, threshold);
      var (p, progress) := Begin(w.platform, cost, deadline, warnAt, r, threshold);
      Record(w, p, Caller(cost, deadline), progress)
    case Wake(i, r) =>
      if i >= |w.waiting| then w
      else
        var c := w.waiting[i];
        StretchesStayWellFormed(w.platform, c.cost, c.deadline, 0, r, threshold);
        var (p, progress) := Turn(w.platform, c.cost, c.deadline, r, threshold);
        Record(w.(waiting := Without(w.waiting, i)), p, c, progress)
    case TryOnce(cost, warnAt, r) =>
      StretchesStayWellFormed(w.platform, cost, None, warnAt, r, threshold);
      var (p, progress) := TryNow(w.platform, cost, warnAt, r, threshold);
      Record(w, p, Caller(cost, None), progress)
    case Reset =>
      World(ResetQuota(w.platform), w.waiting, w.log + [QuotaReset])
  }

  function Run(w: World, steps: seq<Step>, threshold: real): (w': World)
    requires w.platform.WellFormed()
    ensures w'.platform.WellFormed()
    decreases steps
  {
    if steps == [] then w else Run(Next(w, steps[0], threshold), steps[1..], threshold)
  }

  function Fresh(capacity: real, refillPerSec: real, quota: Option<real>, now: int): World {
    World(Configured(capacity, refillPerSec, quota, now), [], [])
  }

  // ---------------------------------------------------------------- the quota as an account

  /** What was paid since the last reset, read off the log alone. */
  function PaidSinceReset(log: seq<Event>): real {
    if log == [] then 0.0
    else
      match log[|log| - 1]
      case QuotaReset => 0.0
      case Paid(cost) => PaidSinceReset(log[..|log| - 1]) + cost
  }

  ghost predicate Balanced(w: World) {
    && w.platform.quotaRemaining.Some? == w.platform.quotaInitial.Some?
    && (w.platform.quotaInitial.Some? ==>
          w.platform.quotaInitial.value - w.platform.quotaRemaining.value == PaidSinceReset(w.log))
  }

  /** One stretch of code moves the quota by the cost when it grants, and not at all otherwise. */
  predicate Paying(before: Platform, after: Platform, cost: real, progress: Progress) {
    && after.quotaInitial == before.quotaInitial
    && after.quotaRemaining == if progress == Granted then Pay(before, cost).quotaRemaining else before.quotaRemaining
  }

  lemma TurnPays(p: Platform, cost: real, deadline: Option<int>, r: Readings, threshold: real)
    requires p.WellFormed()
    ensures var (q, progress) := Turn(p, cost, deadline, r, threshold); Paying(p, q, cost, progress)
  {
  }

  lemma BeginPays(p: Platform, cost: real, deadline: Option<int>, warnAt: int, r: Readings, threshold: real)
    requires p.WellFormed()
    ensures var (q, progress) := Begin(p, cost, deadline, warnAt, r, threshold);
            Paying(p, q, cost, progress) && (progress.Refused? || QuotaCovers(p, cost))
  {
    if QuotaCovers(p, cost) {
      TurnPays(Sampled(p, warnAt, threshold), cost, deadline, r, threshold);
    }
  }

  lemma TryPays(p: Platform, cost: real, warnAt: int, r: Readings, threshold: real)
    requires p.WellFormed()
    ensures var (q, progress) := TryNow(p, cost, warnAt, r, threshold);
            Paying(p, q, cost, progress) && (progress.Refused? || QuotaCovers(p, cost)) && !progress.Sleeping?
  {
  }

  lemma RecordBalanced(w: World, p: Platform, caller: Caller, progress: Progress)
    requires Balanced(w) && Paying(w.platform, p, caller.cost, progress)
    ensures Balanced(Record(w, p, caller, progress))
  {
    if progress == Granted {
      var log := w.log + [Paid(caller.cost)];
      assert log[..|log| - 1] == w.log;
    }
  }

  lemma NextBalanced(w: World, step: Step, threshold: real)
    requires w.platform.WellFormed() && Balanced(w)
    ensures Balanced(Next(w, step, threshold))
    ensures Next(w, step, threshold).platform.quotaInitial == w.platform.quotaInitial
  {
    match step {
      case Start(cost, deadline, warnAt, r) =>
        var (p, progress) := Begin(w.platform, cost, deadline, warnAt, r, threshold);
        BeginPays(w.platform, cost, deadline, warnAt, r, threshold);
        RecordBalanced(w, p, Caller(cost, deadline), progress);
      case TryOnce(cost, warnAt, r) =>
        var (p, progress) := TryNow(w.platform, cost, warnAt, r, threshold);
        TryPays(w.platform, cost, warnAt, r, threshold);
        RecordBalanced(w, p, Caller(cost, None), progress);
      case Wake(i, r) =>
        if i < |w.waiting| {
          var caller := w.waiting[i];
          var (p, progress) := Turn(w.platform, caller.cost, caller.deadline, r, threshold);
          TurnPays(w.platform, caller.cost, caller.deadline, r, threshold);
          RecordBalanced(w.(waiting := Without(w.waiting, i)), p, caller, progress);
        }
      case Reset =>
        var log := w.log + [QuotaReset];
        assert log[..|log| - 1] == w.log;
    }
  }

  /** In every run, with any costs, the quota spent is exactly what was granted since the last reset. */
  lemma {:induction false} QuotaAccount(w: World, steps: seq<Step>, threshold: real)
    requires w.platform.WellFormed() && Balanced(w)
    ensures Balanced(Run(w, steps, threshold))
    ensures Run(w, steps, threshold).platform.quotaInitial == w.platform.quotaInitial
    decreases steps
  {
    if steps != [] {
      NextBalanced(w, steps[0], threshold);
      QuotaAccount(Next(w, steps[0], threshold), steps[1..], threshold);
    }
  }

  // ---------------------------------------------------------------- how far the quota can be overdrawn

  /** The step keeps costs within [0, c] and at most k callers between quota check and outcome. */
  predicate StepWithin(w: World, step: Step, k: nat, c: real) {
    match step
    case Start(cost, _, _, _) => 0.0 <= cost <= c && (QuotaCovers(w.platform, cost) ==> |w.waiting| + 1 <= k)
    case TryOnce(cost, _, _) => 0.0 <= cost <= c && (QuotaCovers(w.platform, cost) ==> |w.waiting| + 1 <= k)
    case _ => true
  }

  predicate RunWithin(w: World, steps: seq<Step>, threshold: real, k: nat, c: real)
    requires w.platform.WellFormed()
    decreases steps
  {
    steps == [] ||
    (StepWithin(w, steps[0], k, c) && RunWithin(Next(w, steps[0], threshold), steps[1..], threshold, k, c))
  }

  function Owed(callers: seq<Caller>): real {
    if callers == [] then 0.0 else callers[0].cost + Owed(callers[1..])
  }

  lemma {:induction false} OwedSplits(a: seq<Caller>, b: seq<Caller>)
    ensures Owed(a + b) == Owed(a) + Owed(b)
    decreases a
  {
    if a == [] {
      assert a + b == b;
    } else {
      assert (a + b)[1..] == a[1..] + b;
      OwedSplits(a[1..], b);
    }
  }

  lemma OwedWithout(callers: seq<Caller>, i: nat)
    requires i < |callers|
    ensures Owed(callers) == Owed(Without(callers, i)) + callers[i].cost
  {
    var tail := callers[i..];
    assert callers == callers[..i] + tail;
    assert tail[1..] == callers[i + 1..];
    OwedSplits(callers[..i], tail);
    OwedSplits(callers[..i], callers[i + 1..]);
  }

  function Times(n: nat, c: real): real { if n == 0 then 0.0 else Times(n - 1, c) + c }

  lemma {:induction false} TimesIsProduct(n: nat, c: real)
    ensures Times(n, c) == n as real * c
  {
    if n > 0 {
      TimesIsProduct(n - 1, c);
      assert n as real * c == (n - 1) as real * c + c;
    }
  }

  lemma {:induction false} OwedAtMost(callers: seq<Caller>, c: real)
    requires forall x | x in callers :: 0.0 <= x.cost <= c
    ensures 0.0 <= Owed(callers) <= Times(|callers|, c)
    decreases callers
  {
    if callers != [] {
      OwedAtMost(callers[1..], c);
    }
  }

  /** The lowest the quota can get: the initial quota, or all but one of k callers overdrawing it. */
  function Floor(initial: real, k: nat, c: real): real
    requires k >= 1
  {
    MinReal(initial, -Times(k - 1, c))
  }

  /** Even once every suspended caller is paid for, the quota is above the floor. */
  ghost predicate CoversWaiting(w: World, k: nat, c: real)
    requires k >= 1
  {
    && w.platform.quotaRemaining.Some? && w.platform.quotaInitial.Some?
    && (forall x | x in w.waiting :: 0.0 <= x.cost <= c)
    && w.platform.quotaRemaining.value <= w.platform.quotaInitial.value
    && w.platform.quotaRemaining.value - Owed(w.waiting) >= Floor(w.platform.quotaInitial.value, k, c)
  }

  /** Recording a stretch is safe if the quota covers its caller on top of everyone suspended. */
  lemma RecordCoversWaiting(w: World, p: Platform, caller: Caller, progress: Progress, k: nat, c: real)
    requires k >= 1 && CoversWaiting(w, k, c) && 0.0 <= caller.cost <= c
    requires Paying(w.platform, p, caller.cost, progress)
    requires progress.Refused? || w.platform.quotaRemaining.value - Owed(w.waiting) - caller.cost
                                  >= Floor(w.platform.quotaInitial.value, k, c)
    ensures CoversWaiting(Record(w, p, caller, progress), k, c)
  {
    OwedSplits(w.waiting, [caller]);
  }

  lemma CheckLeavesRoom(w: World, cost: real, k: nat, c: real)
    requires k >= 1 && c >= 0.0 && CoversWaiting(w, k, c) && QuotaCovers(w.platform, cost) && |w.waiting| + 1 <= k
    ensures w.platform.quotaRemaining.value - Owed(w.waiting) - cost >= Floor(w.platform.quotaInitial.value, k, c)
  {
    OwedAtMost(w.waiting, c);
    TimesMonotone(|w.waiting|, k - 1, c);
  }

  lemma NextCoversWaiting(w: World, step: Step, threshold: real, k: nat, c: real)
    requires w.platform.WellFormed() && c >= 0.0 && k >= 1
    requires CoversWaiting(w, k, c) && StepWithin(w, step, k, c)
    ensures CoversWaiting(Next(w, step, threshold), k, c)
  {
    match step {
      case Start(cost, deadline, warnAt, r) =>
        var (p, progress) := Begin(w.platform, cost, deadline, warnAt, r, threshold);
        BeginPays(w.platform, cost, deadline, warnAt, r, threshold);
        if QuotaCovers(w.platform, cost) {
          CheckLeavesRoom(w, cost, k, c);
        }
        RecordCoversWaiting(w, p, Caller(cost, deadline), progress, k, c);
      case TryOnce(cost, warnAt, r) =>
        var (p, progress) := TryNow(w.platform, cost, warnAt, r, threshold);
        TryPays(w.platform, cost, warnAt, r, threshold);
        if QuotaCovers(w.platform, cost) {
          CheckLeavesRoom(w, cost, k, c);
        }
        RecordCoversWaiting(w, p, Caller(cost, None), progress, k, c);
      case Wake(i, r) =>
        if i < |w.waiting| {
          var caller := w.waiting[i];
          var (p, progress) := Turn(w.platform, caller.cost, caller.deadline, r, threshold);
          TurnPays(w.platform, caller.cost, caller.deadline, r, threshold);
          OwedWithout(w.waiting, i);
          RecordCoversWaiting(w.(waiting := Without(w.waiting, i)), p, caller, progress, k, c);
        }
      case Reset =>
    }
  }

  lemma {:induction false} TimesMonotone(n: nat, m: nat, c: real)
    requires n <= m && c >= 0.0
    ensures Times(n, c) <= Times(m, c)
    decreases m
  {
    if n < m {
      TimesMonotone(n, m - 1, c);
    }
  }

  /**
   * If at most k callers are ever between the quota check and their outcome, each
   * asking for between 0 and c, no interleaving of calls, sleeps, timeouts and
   * resets takes a non-negative quota below -(k-1)*c.
   */
  lemma {:induction false} QuotaFloor(w: World, steps: seq<Step>, threshold: real, k: nat, c: real)
    requires w.platform.WellFormed() && c >= 0.0 && k >= 1
    requires CoversWaiting(w, k, c) && RunWithin(w, steps, threshold, k, c)
    ensures var p := Run(w, steps, threshold).platform;
            && p.quotaRemaining.Some? && p.quotaInitial == w.platform.quotaInitial
            && p.quotaRemaining.value >= Floor(w.platform.quotaInitial.value, k, c)
    decreases steps
  {
    if steps == [] {
      OwedAtMost(w.waiting, c);
    } else {
      NextCoversWaiting(w, steps[0], threshold, k, c);
      QuotaFloor(Next(w, steps[0], threshold), steps[1..], threshold, k, c);
    }
  }

  lemma FreshCovers(capacity: real, refillPerSec: real, quota: real, now: int, k: nat, c: real)
    requires capacity > 0.0 && refillPerSec >= 0.0 && quota >= 0.0 && c >= 0.0 && k >= 1
    ensures CoversWaiting(Fresh(capacity, refillPerSec, Some(quota), now), k, c)
  {
    TimesMonotone(0, k - 1, c);
  }

  /** A freshly configured platform starts such a run; with one caller at a time the quota never goes negative. */
  lemma FreshQuotaFloor(capacity: real, refillPerSec: real, quota: real, now: int,
                        steps: seq<Step>, threshold: real, k: nat, c: real)
    requires capacity > 0.0 && refillPerSec >= 0.0 && quota >= 0.0 && c >= 0.0 && k >= 1
    requires RunWithin(Fresh(capacity, refillPerSec, Some(quota), now), steps, threshold, k, c)
    ensures var left := Run(Fresh(capacity, refillPerSec, Some(quota), now), steps, threshold).platform.quotaRemaining;
            && left.Some?
            && left.value >= -((k - 1) as real * c)
            && (k == 1 ==> left.value >= 0.0)
  {
    hide Run, RunWithin, CoversWaiting;
    FreshCovers(capacity, refillPerSec, quota, now, k, c);
    TimesMonotone(0, k - 1, c);
    TimesIsProduct(k - 1, c);
    QuotaFloor(Fresh(capacity, refillPerSec, Some(quota), now), steps, threshold, k, c);
  }

  // ---------------------------------------------------------------- the floor is reached

  function Still(t: int): Readings { Readings(t, t, t) }

  /** An empty bucket of capacity c that gains c a millisecond, last refilled at t, and n callers that each want c. */
  ghost predicate Drained(w: World, n: nat, c: real, t: int, quota: real) {
    && w.platform.bucket == Bucket(c, c, 0.0, t)
    && w.platform.quotaRemaining == Some(quota)
    && |w.waiting| == n
    && forall i | 0 <= i < n :: w.waiting[i] == Caller(c, None)
  }

  /** The steps take w to w' within the limits. */
  ghost predicate Reaches(w: World, steps: seq<Step>, w': World, threshold: real, k: nat, c: real) {
    w.platform.WellFormed() && RunWithin(w, steps, threshold, k, c) && Run(w, steps, threshold) == w'
  }

  lemma {:induction false} ReachesChain(w: World, a: seq<Step>, w1: World, b: seq<Step>, w2: World, threshold: real, k: nat, c: real)
    requires Reaches(w, a, w1, threshold, k, c) && Reaches(w1, b, w2, threshold, k, c)
    ensures Reaches(w, a + b, w2, threshold, k, c)
    decreases a
  {
    if a == [] {
      assert a + b == b;
    } else {
      assert (a + b)[1..] == a[1..] + b;
      ReachesChain(Next(w, a[0], threshold), a[1..], w1, b, w2, threshold, k, c);
    }
  }

  lemma ReachesInOne(w: World, step: Step, threshold: real, k: nat, c: real)
    requires w.platform.WellFormed() && StepWithin(w, step, k, c)
    ensures Reaches(w, [step], Next(w, step, threshold), threshold, k, c)
  {
    assert [step][1..] == [];
    assert Run(w, [step], threshold) == Run(Next(w, step, threshold), [], threshold);
  }

  lemma {:induction false} StartsPileUp(w: World, n: nat, m: nat, threshold: real, k: nat, c: real)
    returns (steps: seq<Step>, w': World)
    requires c > 0.0 && Drained(w, n, c, 0, c) && n + m <= k
    ensures Reaches(w, steps, w', threshold, k, c) && Drained(w', n + m, c, 0, c)
    decreases m
  {
    if m == 0 {
      return [], w;
    }
    var step := Start(c, None, 0, Still(0));
    var next := Next(w, step, threshold);
    CeilIsLeastCover(c, c, 1);
    ReachesInOne(w, step, threshold, k, c);
    steps, w' := StartsPileUp(next, n + 1, m - 1, threshold, k, c);
    ReachesChain(w, [step], next, steps, w', threshold, k, c);
    steps := [step] + steps;
  }

  lemma WakePays(w: World, n: nat, t: int, quota: real, threshold: real, k: nat, c: real)
    requires c > 0.0 && n > 0 && Drained(w, n, c, t, quota)
    ensures var step := Wake(0, Still(t + 1));
            && Reaches(w, [step], Next(w, step, threshold), threshold, k, c)
            && Drained(Next(w, step, threshold), n - 1, c, t + 1, quota - c)
  {
    assert Inflow(c, t + 1 - t) == c;
    assert Without(w.waiting, 0) == w.waiting[1..];
    assert Refill(w.platform.bucket, t + 1) == Bucket(c, c, c, t + 1);
    ReachesInOne(w, Wake(0, Still(t + 1)), threshold, k, c);
  }

  /** The callers wake a millisecond apart, oldest first, and each is granted. */
  lemma {:induction false} WakesPay(w: World, n: nat, t: int, quota: real, threshold: real, k: nat, c: real)
    returns (steps: seq<Step>, w': World, left: real)
    requires c > 0.0 && Drained(w, n, c, t, quota)
    ensures Reaches(w, steps, w', threshold, k, c)
    ensures w'.platform.quotaRemaining == Some(left) && left == quota - Times(n, c)
    decreases n
  {
    if n == 0 {
      return [], w, quota;
    }
    var step := Wake(0, Still(t + 1));
    var next := Next(w, step, threshold);
    WakePays(w, n, t, quota, threshold, k, c);
    steps, w', left := WakesPay(next, n - 1, t + 1, quota - c, threshold, k, c);
    ReachesChain(w, [step], next, steps, w', threshold, k, c);
    steps := [step] + steps;
  }

  lemma FirstCallDrains(threshold: real, c: real)
    requires c > 0.0
    ensures Drained(Next(Fresh(c, 1000.0 * c, Some(2.0 * c), 0), TryOnce(c, 0, Still(0)), threshold), 0, c, 0, c)
  {
    assert 1000.0 * c / 1000.0 == c;
  }

  /**
   * The bound cannot be improved: for every k and c, k callers that all pass the
   * check before any of them pays leave the quota at exactly -(k-1)*c.
   */
  lemma FloorIsReached(threshold: real, k: nat, c: real) returns (steps: seq<Step>, w': World)
    requires k >= 1 && c > 0.0
    ensures Reaches(Fresh(c, 1000.0 * c, Some(2.0 * c), 0), steps, w', threshold, k, c)
    ensures w'.platform.quotaRemaining == Some(-Times(k - 1, c))
  {
    var w := Fresh(c, 1000.0 * c, Some(2.0 * c), 0);
    var drain := TryOnce(c, 0, Still(0));
    var w1 := Next(w, drain, threshold);
    FirstCallDrains(threshold, c);
    ReachesInOne(w, drain, threshold, k, c);
    var starts, w2 := StartsPileUp(w1, 0, k, threshold, k, c);
    var wakes, w3, left := WakesPay(w2, k, 0, c, threshold, k, c);
    ReachesChain(w1, starts, w2, wakes, w3, threshold, k, c);
    ReachesChain(w, [drain], w1, starts + wakes, w3, threshold, k, c);
    return [drain] + (starts + wakes), w3;
  }

  // ---------------------------------------------------------------- termination with a deadline

  /**
   * A turn asks for a sleep of 0 ms exactly when the bucket became able to pay
   * between the two readings, so only if the clock ticked in between; otherwise
   * the sleep is at least 1 ms.
   */
  lemma SleepLength(p: Platform, cost: real, deadline: Option<int>, r: Readings, threshold: real)
    requires p.WellFormed() && Turn(p, cost, deadline, r, threshold).1.Sleeping?
    ensures var ms := Turn(p, cost, deadline, r, threshold).1.ms;
            && ms >= 0
            && (ms == 0 <==> CanAfford(Refill(p.bucket, r.consume), r.after, cost))
            && (ms == 0 ==> r.consume < r.after)
  {
    var b := Refill(Refill(p.bucket, r.consume), r.after);
    if b.tokens < cost {
      CeilIsLeastCover(b.refillPerMs, cost - b.tokens, 0);
    }
  }

  /** Such a turn: an empty bucket that gains a token between the readings 0 and 1. */
  lemma ZeroSleepHappens(threshold: real)
    ensures var p := Platform(Bucket(1.0, 1.0, 0.0, 0), None, None, false);
            Turn(p, 1.0, Some(100), Readings(0, 1, 1), threshold).1 == Sleeping(0)
  {
    assert Refill(Bucket(1.0, 1.0, 0.0, 0), 1) == Bucket(1.0, 1.0, 1.0, 1);
  }

  /** The platform as a caller finds it on one of its turns; others may have acted since its last. */
  datatype Turned = Turned(platform: Platform, readings: Readings)

  /** Consecutive turns of one caller, all of which end in a sleep of at least the time asked for, on a rising clock. */
  ghost predicate AllSleep(turns: seq<Turned>, cost: real, deadline: int, start: int, threshold: real) {
    && (forall i | 0 <= i < |turns| ::
          && turns[i].platform.WellFormed()
          && Turn(turns[i].platform, cost, Some(deadline), turns[i].readings, threshold).1.Sleeping?
          && start <= turns[i].readings.consume <= turns[i].readings.after <= turns[i].readings.deadline)
    && (forall i | 0 < i < |turns| ::
          turns[i].readings.consume >= turns[i - 1].readings.deadline
            + Turn(turns[i - 1].platform, cost, Some(deadline), turns[i - 1].readings, threshold).1.ms)
  }

  /**
   * With a deadline the loop ends, whatever other callers take and however late the
   * sleeps return: it cannot sleep more often than the timeout has milliseconds.
   */
  lemma {:induction false} SleepsBoundedByTimeout(turns: seq<Turned>, cost: real, deadline: int, start: int, threshold: real)
    requires AllSleep(turns, cost, deadline, start, threshold)
    ensures |turns| <= MaxInt(0, deadline - start)
    ensures turns != [] ==> start + |turns| - 1 <= turns[|turns| - 1].readings.consume < deadline
    decreases |turns|
  {
    if turns != [] {
      var n := |turns| - 1;
      SleepsBoundedByTimeout(turns[..n], cost, deadline, start, threshold);
      if n > 0 {
        assert turns[..n][n - 1] == turns[n - 1];
        SleepLength(turns[n - 1].platform, cost, Some(deadline), turns[n - 1].readings, threshold);
        assert turns[n].readings.consume >= turns[n - 1].readings.consume + 1;
      }
      assert turns[n].readings.deadline < deadline;
    }
  }
}
