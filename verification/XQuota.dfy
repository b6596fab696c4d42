/**
 * The monthly X write quota: a deduplicating ledger, a guard that checks before a write and
 * records after it, and what many writes in flight at once can do to it.
 */
module XQuota {
  import opened Wrappers

  datatype Kind = Tweet | Reply | Dm

  /** A ledger row; months are numbered consecutively. */
  datatype Row = Row(month: int, kind: Kind, amount: int, key: string)

  datatype CreditSummary = CreditSummary(month: int, used: int, cap: int, remaining: int, ratio: real)

  datatype Level = Warning | Exceeded

  datatype Event = Event(level: Level, summary: CreditSummary)

  datatype Policy = Policy(cap: int, warnThreshold: real)

  /** The ledger, the months a notice was fired for, and the notices. */
  datatype Guard = Guard(rows: seq<Row>, warned: set<int>, blocked: set<int>, events: seq<Event>)

  const FRESH := Guard([], {}, {}, [])

  const DEFAULT_WARN_THRESHOLD := 0.8

  // ---------------------------------------------------------------- the ledger

  ghost predicate HasKey(rows: seq<Row>, key: string) { exists r :: r in rows && r.key == key }

  function IndexOfKey(rows: seq<Row>, key: string): Option<nat> {
    if rows == [] then None
    else if rows[|rows| - 1].key == key then Some(|rows| - 1)
    else IndexOfKey(rows[..|rows| - 1], key)
  }

  /** `INSERT OR IGNORE`: a row whose key is already there changes nothing. */
  function Recorded(rows: seq<Row>, row: Row): seq<Row> {
    if IndexOfKey(rows, row.key).Some? then rows else rows + [row]
  }

  function Used(rows: seq<Row>, month: int): int {
    if rows == [] then 0
    else Used(rows[..|rows| - 1], month) + (if rows[|rows| - 1].month == month then rows[|rows| - 1].amount else 0)
  }

  /** The utilisation, capped at 1. */
  function Ratio(used: int, cap: int): real {
    if cap <= 0 then 1.0 else if used >= cap then 1.0 else used as real / cap as real
  }

  function Summarize(rows: seq<Row>, cap: int, month: int): CreditSummary {
    var used := Used(rows, month);
    CreditSummary(month, used, cap, if cap > used then cap - used else 0, Ratio(used, cap))
  }

  // ---------------------------------------------------------------- the guard

  function Fired(g: Guard, level: Level, summary: CreditSummary): Guard {
    if level == Exceeded then
      if summary.month in g.blocked then g
      else g.(blocked := g.blocked + {summary.month}, events := g.events + [Event(level, summary)])
    else
      if summary.month in g.warned then g
      else g.(warned := g.warned + {summary.month}, events := g.events + [Event(level, summary)])
  }

  predicate IsAllowed(g: Guard, policy: Policy, month: int) { Used(g.rows, month) < policy.cap }

  /** Checking fires the notice when the cap is reached. */
  function Checked(g: Guard, policy: Policy, month: int): Guard {
    if IsAllowed(g, policy, month) then g else Fired(g, Exceeded, Summarize(g.rows, policy.cap, month))
  }

  /** Re-evaluating after a write; the month is read again. */
  function Evaluated(g: Guard, policy: Policy, month: int): Guard {
    var summary := Summarize(g.rows, policy.cap, month);
    if summary.ratio >= 1.0 || summary.used >= summary.cap then Fired(g, Exceeded, summary)
    else if summary.ratio >= policy.warnThreshold then Fired(g, Warning, summary)
    else g
  }

  function Written(g: Guard, policy: Policy, row: Row, month: int): Guard {
    Evaluated(g.(rows := Recorded(g.rows, row)), policy, month)
  }

  // ---------------------------------------------------------------- the classes

  class CreditTracker {
    var rows: seq<Row>

    constructor ()
      ensures rows == []
    {
      rows := [];
    }

    /** `clock` is the month the clock reads; an explicit month wins. */
    method Record(kind: Kind, key: string, amount: Option<int>, month: Option<int>, clock: int) returns (inserted: bool)
      modifies this
      ensures var row := Row(if month.Some? then month.value else clock, kind, if amount.Some? then amount.value else 1, key);
              rows == Recorded(old(rows), row)
      ensures inserted <==> !HasKey(old(rows), key)
      ensures inserted <==> rows != old(rows)
    {
      KeyIsFound(rows, key);
      inserted := IndexOfKey(rows, key).None?;
      if inserted {
        rows := rows + [Row(if month.Some? then month.value else clock, kind, if amount.Some? then amount.value else 1, key)];
      }
    }

    method UsedThisMonth(month: int) returns (used: int)
      ensures used == Used(rows, month)
    {
      used := 0;
      for n := 0 to |rows|
        invariant used == Used(rows[..n], month)
      {
        assert rows[..n + 1][..n] == rows[..n];
        if rows[n].month == month {
          used := used + rows[n].amount;
        }
      }
      assert rows[..|rows|] == rows;
    }

    method Summary(cap: int, month: int) returns (s: CreditSummary)
      ensures s == Summarize(rows, cap, month)
    {
      var used := UsedThisMonth(month);
      var remaining := if cap - used > 0 then cap - used else 0;
      var ratio := 1.0;
      if cap > 0 {
        ratio := used as real / cap as real;
        RatioCaps(used, cap);
        if ratio > 1.0 {
          ratio := 1.0;
        }
      }
      s := CreditSummary(month, used, cap, remaining, ratio);
    }
  }

  lemma RatioCaps(used: int, cap: int)
    requires cap > 0
    ensures used as real / cap as real >= 1.0 <==> used >= cap
  {
    var q, c := used as real / cap as real, cap as real;
    assert q * c == used as real;
    assert (q - 1.0) * c == used as real - c;
    SignOfProduct(q - 1.0, c);
  }

  lemma SignOfProduct(x: real, c: real)
    requires c > 0.0
    ensures x >= 0.0 <==> x * c >= 0.0
  {
  }

  lemma {:induction false} KeyIsFound(rows: seq<Row>, key: string)
    ensures IndexOfKey(rows, key).Some? <==> HasKey(rows, key)
    ensures var i := IndexOfKey(rows, key); i.Some? ==> i.value < |rows| && rows[i.value].key == key
    decreases rows
  {
    if rows != [] {
      var init, last := rows[..|rows| - 1], rows[|rows| - 1];
      assert rows == init + [last];
      KeyIsFound(init, key);
      if HasKey(init, key) {
        var r :| r in init && r.key == key;
        assert r in rows;
      }
      assert last in rows;
    }
  }

  class QuotaGuard {
    const tracker: CreditTracker
    const policy: Policy
    var warned: set<int>
    var blocked: set<int>
    var events: seq<Event>

    ghost function View(): Guard
      reads this, tracker
    {
      Guard(tracker.rows, warned, blocked, events)
    }

    constructor (tracker: CreditTracker, cap: int, warnThreshold: Option<real>)
      ensures this.tracker == tracker && View() == Guard(tracker.rows, {}, {}, [])
      ensures policy == Policy(cap, if warnThreshold.Some? then warnThreshold.value else DEFAULT_WARN_THRESHOLD)
    {
      this.tracker := tracker;
      policy := Policy(cap, if warnThreshold.Some? then warnThreshold.value else DEFAULT_WARN_THRESHOLD);
      warned, blocked, events := {}, {}, [];
    }

    method Fire(level: Level, summary: CreditSummary)
      modifies this
      ensures View() == Fired(old(View()), level, summary)
    {
      if level == Exceeded {
        if summary.month in blocked {
          return;
        }
        blocked := blocked + {summary.month};
      } else {
        if summary.month in warned {
          return;
        }
        warned := warned + {summary.month};
      }
      events := events + [Event(level, summary)];
    }

    /** Refusal is the summary the error carries. */
    method EnsureWithinQuota(month: int) returns (refusal: Option<CreditSummary>)
      modifies this
      ensures View() == Checked(old(View()), policy, month)
      ensures refusal == if IsAllowed(old(View()), policy, month) then None else Some(Summarize(old(tracker.rows), policy.cap, month))
    {
      var summary := tracker.Summary(policy.cap, month);
      if summary.used >= summary.cap {
        Fire(Exceeded, summary);
        return Some(summary);
      }
      refusal := None;
    }

    method RecordWrite(kind: Kind, key: string, recordMonth: int, statusMonth: int) returns (summary: CreditSummary)
      modifies this, tracker
      ensures View() == Written(old(View()), policy, Row(recordMonth, kind, 1, key), statusMonth)
      ensures summary == Summarize(tracker.rows, policy.cap, statusMonth)
    {
      var _ := tracker.Record(kind, key, None, None, recordMonth);
      summary := tracker.Summary(policy.cap, statusMonth);
      if summary.ratio >= 1.0 || summary.used >= summary.cap {
        Fire(Exceeded, summary);
      } else if summary.ratio >= policy.warnThreshold {
        Fire(Warning, summary);
      }
    }
  }

  // ---------------------------------------------------------------- the publisher

  /** What the dispatched request came back with. */
  datatype Reply = Failed | Created(id: Option<string>)

  datatype PublishError = QuotaExceeded(summary: CreditSummary) | RequestFailed | NoTweetId

  function KeyOf(kind: Kind, id: string): string {
    (match kind case Tweet => "tweet:" case Reply => "reply:" case Dm => "dm:") + id
  }

  predicate HasId(reply: Reply) { reply.Created? && reply.id.Some? && reply.id.value != "" }

  /** After the await: a created write is recorded, anything else leaves the ledger alone. */
  function Resumed(g: Guard, policy: Policy, kind: Kind, reply: Reply, recordMonth: int, statusMonth: int): Guard {
    if HasId(reply) then Written(g, policy, Row(recordMonth, kind, 1, KeyOf(kind, reply.id.value)), statusMonth) else g
  }

  class TwitterPublisher {
    const quota: QuotaGuard

    constructor (quota: QuotaGuard)
      ensures this.quota == quota
    {
      this.quota := quota;
    }

    /** One call with nothing else happening between its check and its record. */
    method CreateTweet(kind: Kind, reply: Reply, checkMonth: int, recordMonth: int, statusMonth: int)
      returns (tweetId: Result<string, PublishError>)
      modifies quota, quota.tracker
      ensures var g := old(quota.View());
              if !IsAllowed(g, quota.policy, checkMonth) then
                && quota.View() == Checked(g, quota.policy, checkMonth)
                && tweetId == Err(QuotaExceeded(Summarize(g.rows, quota.policy.cap, checkMonth)))
              else
                && quota.View() == Resumed(g, quota.policy, kind, reply, recordMonth, statusMonth)
                && tweetId == (if reply.Failed? then Err(RequestFailed) else if HasId(reply) then Ok(reply.id.value) else Err(NoTweetId))
    {
      var refusal := quota.EnsureWithinQuota(checkMonth);
      if refusal.Some? {
        return Err(QuotaExceeded(refusal.value));
      }
      if reply.Failed? {
        return Err(RequestFailed);
      }
      if reply.id.None? || reply.id.value == "" {
        return Err(NoTweetId);
      }
      var _ := quota.RecordWrite(kind, KeyOf(kind, reply.id.value), recordMonth, statusMonth);
      tweetId := Ok(reply.id.value);
    }
  }

  // ---------------------------------------------------------------- runs

  /** The guard, the writes between their check and their record, and the last month read. */
  datatype World = World(guard: Guard, flights: map<nat, Kind>, month: int)

  datatype Step =
    | Begin(caller: nat, kind: Kind, month: int)
    | Finish(caller: nat, reply: Reply, recordMonth: int, statusMonth: int)

  /** At most k writes are in flight, and the clock does not run backwards. */
  predicate CanStep(w: World, k: nat, step: Step) {
    match step
    case Begin(caller, _, month) => caller !in w.flights && |w.flights| < k && w.month <= month
    case Finish(caller, _, recordMonth, statusMonth) => caller in w.flights && w.month <= recordMonth <= statusMonth
  }

  function Next(w: World, policy: Policy, step: Step): World {
    match step
    case Begin(caller, kind, month) =>
      World(Checked(w.guard, policy, month),
            if IsAllowed(w.guard, policy, month) then w.flights[caller := kind] else w.flights, month)
    case Finish(caller, reply, recordMonth, statusMonth) =>
      if caller in w.flights then
        World(Resumed(w.guard, policy, w.flights[caller], reply, recordMonth, statusMonth), w.flights - {caller}, statusMonth)
      else w
  }

  function Run(start: int, policy: Policy, steps: seq<Step>): World
    decreases steps
  {
    if steps == [] then World(FRESH, map[], start)
    else Next(Run(start, policy, steps[..|steps| - 1]), policy, steps[|steps| - 1])
  }

  ghost predicate IsRun(start: int, policy: Policy, k: nat, steps: seq<Step>)
    decreases steps
  {
    steps == [] || (
      && IsRun(start, policy, k, steps[..|steps| - 1])
      && CanStep(Run(start, policy, steps[..|steps| - 1]), k, steps[|steps| - 1]))
  }

  // ---------------------------------------------------------------- the ledger over a run

  ghost predicate KeysDiffer(rows: seq<Row>) { forall i, j | 0 <= i < j < |rows| :: rows[i].key != rows[j].key }

  lemma UsedSnoc(rows: seq<Row>, row: Row, month: int)
    ensures Used(rows + [row], month) == Used(rows, month) + (if row.month == month then row.amount else 0)
  {
    assert (rows + [row])[..|rows|] == rows;
  }

  /** A unit write adds one to its month if its key is new, and nothing anywhere else. */
  lemma RecordAddsOnce(rows: seq<Row>, row: Row, month: int)
    requires KeysDiffer(rows) && row.amount == 1
    ensures KeysDiffer(Recorded(rows, row))
    ensures Used(Recorded(rows, row), month) == Used(rows, month) + (if row.month == month && !HasKey(rows, row.key) then 1 else 0)
    ensures Recorded(Recorded(rows, row), row) == Recorded(rows, row)
  {
    KeyIsFound(rows, row.key);
    KeyIsFound(Recorded(rows, row), row.key);
    UsedSnoc(rows, row, month);
    if !HasKey(rows, row.key) {
      assert row in rows + [row];
      forall i | 0 <= i < |rows|
        ensures rows[i].key != row.key
      {
        assert rows[i] in rows;
      }
    }
  }

  lemma ResumedRows(g: Guard, policy: Policy, kind: Kind, reply: Reply, recordMonth: int, statusMonth: int)
    ensures Resumed(g, policy, kind, reply, recordMonth, statusMonth).rows
         == if HasId(reply) then Recorded(g.rows, Row(recordMonth, kind, 1, KeyOf(kind, reply.id.value))) else g.rows
  {
  }

  // ---------------------------------------------------------------- the bound

  ghost predicate Inv(w: World, policy: Policy, k: nat) {
    && KeysDiffer(w.guard.rows) && |w.flights| <= k
    && (forall m :: Used(w.guard.rows, m) <= policy.cap + k - 1)
    && Used(w.guard.rows, w.month) + |w.flights| <= policy.cap + k - 1
    && forall m | m > w.month :: Used(w.guard.rows, m) == 0
  }

  lemma NextKeepsInv(w: World, policy: Policy, k: nat, step: Step)
    requires policy.cap >= 1 && k >= 1 && Inv(w, policy, k) && CanStep(w, k, step)
    ensures Inv(Next(w, policy, step), policy, k)
  {
    match step
    case Begin(caller, kind, month) =>
      assert Checked(w.guard, policy, month).rows == w.guard.rows;
      hide Checked, Used;
    case Finish(caller, reply, recordMonth, statusMonth) =>
      var kind := w.flights[caller];
      var g := Resumed(w.guard, policy, kind, reply, recordMonth, statusMonth);
      FinishAddsAtMostOne(w.guard, policy, kind, reply, recordMonth, statusMonth);
      hide Resumed, Used, KeysDiffer;
      assert |w.flights - {caller}| == |w.flights| - 1;
      assert forall m :: Used(g.rows, m) <= Used(w.guard.rows, m) + (if m == recordMonth then 1 else 0);
  }

  /** A write that comes back adds at most one to the month it is recorded in, and nothing to any other. */
  lemma FinishAddsAtMostOne(g: Guard, policy: Policy, kind: Kind, reply: Reply, recordMonth: int, statusMonth: int)
    requires KeysDiffer(g.rows)
    ensures var after := Resumed(g, policy, kind, reply, recordMonth, statusMonth).rows;
            && KeysDiffer(after)
            && forall m ::
                 && Used(after, m) <= Used(g.rows, m) + (if m == recordMonth then 1 else 0)
                 && (m != recordMonth ==> Used(after, m) == Used(g.rows, m))
  {
    ResumedRows(g, policy, kind, reply, recordMonth, statusMonth);
    hide Resumed;
    if HasId(reply) {
      var row := Row(recordMonth, kind, 1, KeyOf(kind, reply.id.value));
      RecordAddsOnce(g.rows, row, recordMonth);
      forall m
        ensures Used(Recorded(g.rows, row), m) <= Used(g.rows, m) + (if m == recordMonth then 1 else 0)
        ensures m != recordMonth ==> Used(Recorded(g.rows, row), m) == Used(g.rows, m)
      {
        RecordAddsOnce(g.rows, row, m);
      }
    }
  }

  lemma {:induction false} RunKeepsInv(start: int, policy: Policy, k: nat, steps: seq<Step>)
    requires policy.cap >= 1 && k >= 1 && IsRun(start, policy, k, steps)
    ensures Inv(Run(start, policy, steps), policy, k)
    decreases steps
  {
    if steps != [] {
      RunKeepsInv(start, policy, k, steps[..|steps| - 1]);
      NextKeepsInv(Run(start, policy, steps[..|steps| - 1]), policy, k, steps[|steps| - 1]);
    }
  }

  /**
   * With at most k unit writes in flight and a positive cap, no month's usage exceeds
   * cap + k - 1, month roll-overs included, and no key is counted twice.
   */
  lemma UsageIsBounded(start: int, policy: Policy, k: nat, steps: seq<Step>, month: int)
    requires policy.cap >= 1 && k >= 1 && IsRun(start, policy, k, steps)
    ensures Used(Run(start, policy, steps).guard.rows, month) <= policy.cap + k - 1
    ensures KeysDiffer(Run(start, policy, steps).guard.rows)
  {
    RunKeepsInv(start, policy, k, steps);
  }

  // ---------------------------------------------------------------- the bound is reached

  function Ones(n: nat): string { seq(n + 1, _ => 'x') }

  function UnitRow(n: nat): Row { Row(0, Tweet, 1, KeyOf(Tweet, Ones(n))) }

  function UnitRows(n: nat): seq<Row> { seq(n, i requires 0 <= i < n => UnitRow(i)) }

  predicate IsBetween(c: nat, low: nat, high: nat) { low <= c < high }

  function Callers(low: nat, high: nat): map<nat, Kind> { map c: nat | low <= c < high && IsBetween(c, low, high) :: Tweet }

  /** n writes are recorded and the callers from low up to high are in flight, all in month 0. */
  ghost predicate IsAt(w: World, n: nat, low: nat, high: nat) {
    w.guard.rows == UnitRows(n) && w.flights == Callers(low, high) && w.month == 0
  }

  lemma {:induction false} CallersCount(low: nat, high: nat)
    requires low <= high
    ensures |Callers(low, high)| == high - low
    decreases high - low
  {
    if low < high {
      CallersCount(low, high - 1);
      assert Callers(low, high) == Callers(low, high - 1)[high - 1 := Tweet];
    }
  }

  lemma {:induction false} UnitRowsUsed(n: nat)
    ensures Used(UnitRows(n), 0) == n
    decreases n
  {
    if n > 0 {
      UnitRowsUsed(n - 1);
      assert UnitRows(n)[..n - 1] == UnitRows(n - 1);
    }
  }

  lemma NewUnitRow(n: nat)
    ensures Recorded(UnitRows(n), UnitRow(n)) == UnitRows(n + 1)
  {
    var rows := UnitRows(n);
    KeyIsFound(rows, UnitRow(n).key);
    forall r | r in rows
      ensures r.key != UnitRow(n).key
    {
      var i :| 0 <= i < n && r == UnitRow(i);
      KeysAreLonger(i, n);
    }
    assert rows + [UnitRow(n)] == UnitRows(n + 1);
  }

  lemma KeysAreLonger(i: nat, n: nat)
    requires i < n
    ensures UnitRow(i).key != UnitRow(n).key
  {
    assert |UnitRow(i).key| < |UnitRow(n).key|;
  }

  lemma RunSnoc(start: int, policy: Policy, k: nat, steps: seq<Step>, step: Step)
    requires IsRun(start, policy, k, steps) && CanStep(Run(start, policy, steps), k, step)
    ensures IsRun(start, policy, k, steps + [step])
    ensures Run(start, policy, steps + [step]) == Next(Run(start, policy, steps), policy, step)
  {
    assert (steps + [step])[..|steps|] == steps;
  }

  lemma MoreCallers(low: nat, high: nat)
    requires low <= high
    ensures Callers(low, high)[high := Tweet] == Callers(low, high + 1)
    ensures low < high ==> Callers(low, high) - {low} == Callers(low + 1, high)
    ensures high !in Callers(low, high) && (low < high ==> low in Callers(low, high) && Callers(low, high)[low] == Tweet)
  {
  }

  lemma Launch(policy: Policy, k: nat, steps: seq<Step>, n: nat, low: nat, high: nat) returns (more: seq<Step>)
    requires IsRun(0, policy, k, steps) && IsAt(Run(0, policy, steps), n, low, high)
    requires low <= high < low + k && n < policy.cap
    ensures IsRun(0, policy, k, more) && IsAt(Run(0, policy, more), n, low, high + 1)
  {
    CallersCount(low, high);
    MoreCallers(low, high);
    UnitRowsUsed(n);
    var step := Begin(high, Tweet, 0);
    hide Callers, UnitRows, Used, Run, IsRun;
    RunSnoc(0, policy, k, steps, step);
    more := steps + [step];
  }

  lemma Land(policy: Policy, k: nat, steps: seq<Step>, n: nat, low: nat, high: nat) returns (more: seq<Step>)
    requires IsRun(0, policy, k, steps) && IsAt(Run(0, policy, steps), n, low, high) && low < high
    ensures IsRun(0, policy, k, more) && IsAt(Run(0, policy, more), n + 1, low + 1, high)
  {
    var w, reply := Run(0, policy, steps), Created(Some(Ones(n)));
    var step := Finish(low, reply, 0, 0);
    MoreCallers(low, high);
    assert HasId(reply) && UnitRow(n) == Row(0, Tweet, 1, KeyOf(Tweet, Ones(n)));
    hide Callers, UnitRow, Run, IsRun, Ones, KeyOf;
    RunSnoc(0, policy, k, steps, step);
    more := steps + [step];
    ResumedRows(w.guard, policy, Tweet, reply, 0, 0);
    hide Resumed, HasId, UnitRows;
    NewUnitRow(n);
  }

  lemma {:induction false} WriteOneByOne(policy: Policy, k: nat, n: nat) returns (steps: seq<Step>)
    requires k >= 1 && n <= policy.cap
    ensures IsRun(0, policy, k, steps) && IsAt(Run(0, policy, steps), n, n, n)
    decreases n
  {
    if n == 0 {
      steps := [];
      assert Callers(0, 0) == map[];
    } else {
      hide IsAt;
      steps := WriteOneByOne(policy, k, n - 1);
      steps := Launch(policy, k, steps, n - 1, n - 1, n - 1);
      steps := Land(policy, k, steps, n - 1, n - 1, n);
    }
  }

  lemma {:induction false} LaunchMany(policy: Policy, k: nat, n: nat, j: nat) returns (steps: seq<Step>)
    requires k >= 1 && n < policy.cap && j <= k
    ensures IsRun(0, policy, k, steps) && IsAt(Run(0, policy, steps), n, n, n + j)
    decreases j
  {
    hide IsAt;
    if j == 0 {
      steps := WriteOneByOne(policy, k, n);
    } else {
      steps := LaunchMany(policy, k, n, j - 1);
      steps := Launch(policy, k, steps, n, n, n + j - 1);
    }
  }

  lemma {:induction false} LandMany(policy: Policy, k: nat, n: nat, j: nat) returns (steps: seq<Step>)
    requires k >= 1 && n < policy.cap && j <= k
    ensures IsRun(0, policy, k, steps) && IsAt(Run(0, policy, steps), n + j, n + j, n + k)
    decreases j
  {
    hide IsAt;
    if j == 0 {
      steps := LaunchMany(policy, k, n, k);
    } else {
      steps := LandMany(policy, k, n, j - 1);
      steps := Land(policy, k, steps, n + j - 1, n + j - 1, n + k);
    }
  }

  /** No smaller bound holds: some run with k writes in flight uses exactly cap + k - 1 in one month. */
  lemma BoundIsReached(policy: Policy, k: nat) returns (steps: seq<Step>)
    requires policy.cap >= 1 && k >= 1
    ensures IsRun(0, policy, k, steps) && Used(Run(0, policy, steps).guard.rows, 0) == policy.cap + k - 1
  {
    steps := LandMany(policy, k, policy.cap - 1, k);
    UnitRowsUsed(policy.cap + k - 1);
  }

  // ---------------------------------------------------------------- notices

  ghost predicate HasEvent(g: Guard, level: Level, month: int) {
    exists i :: 0 <= i < |g.events| && g.events[i].level == level && g.events[i].summary.month == month
  }

  /** At most one notice of each level per month, and no warning after an exceeded. */
  ghost predicate NoticesFit(g: Guard) {
    && (forall m :: (m in g.warned <==> HasEvent(g, Warning, m)) && (m in g.blocked <==> HasEvent(g, Exceeded, m)))
    && forall i, j | 0 <= i < j < |g.events| && g.events[i].summary.month == g.events[j].summary.month ::
         g.events[i].level == Warning && g.events[j].level == Exceeded
  }

  ghost predicate BlockedMeansReached(g: Guard, policy: Policy) {
    forall m | m in g.blocked :: Used(g.rows, m) >= policy.cap
  }

  lemma FiredFits(g: Guard, level: Level, summary: CreditSummary)
    requires NoticesFit(g) && (level == Warning ==> summary.month !in g.blocked)
    ensures NoticesFit(Fired(g, level, summary))
  {
    var g' := Fired(g, level, summary);
    if g' != g {
      var n := |g.events|;
      forall m, l: Level
        ensures HasEvent(g', l, m) <==> HasEvent(g, l, m) || (l == level && m == summary.month)
      {
        if HasEvent(g, l, m) {
          var i :| 0 <= i < n && g.events[i].level == l && g.events[i].summary.month == m;
          assert g'.events[i] == g.events[i];
        }
        assert g'.events[n] == Event(level, summary);
      }
      forall i | 0 <= i < n && g.events[i].summary.month == summary.month
        ensures g.events[i].level == Warning && level == Exceeded
      {
        assert HasEvent(g, g.events[i].level, summary.month);
      }
    }
  }

  lemma RatioFollowsUse(used: int, cap: int)
    ensures Ratio(used, cap) >= 1.0 <==> (cap <= 0 || used >= cap)
  {
    if cap > 0 {
      RatioCaps(used, cap);
    }
  }

  lemma EvaluatedFits(g: Guard, policy: Policy, month: int)
    requires NoticesFit(g) && BlockedMeansReached(g, policy) && policy.cap >= 1
    ensures NoticesFit(Evaluated(g, policy, month)) && BlockedMeansReached(Evaluated(g, policy, month), policy)
  {
    RatioFollowsUse(Used(g.rows, month), policy.cap);
    var summary := Summarize(g.rows, policy.cap, month);
    hide NoticesFit, Ratio, Used;
    if summary.used >= summary.cap {
      FiredFits(g, Exceeded, summary);
    } else if summary.ratio >= policy.warnThreshold {
      assert month !in g.blocked;
      FiredFits(g, Warning, summary);
    }
  }

  lemma UseNeverFalls(rows: seq<Row>, row: Row, month: int)
    requires row.amount >= 0
    ensures Used(Recorded(rows, row), month) >= Used(rows, month)
  {
    UsedSnoc(rows, row, month);
  }

  lemma NextNotices(w: World, policy: Policy, step: Step)
    requires NoticesFit(w.guard) && BlockedMeansReached(w.guard, policy) && policy.cap >= 1
    ensures var g := Next(w, policy, step).guard; NoticesFit(g) && BlockedMeansReached(g, policy)
  {
    match step
    case Begin(caller, kind, month) =>
      if !IsAllowed(w.guard, policy, month) {
        FiredFits(w.guard, Exceeded, Summarize(w.guard.rows, policy.cap, month));
      }
    case Finish(caller, reply, recordMonth, statusMonth) =>
      if caller in w.flights && HasId(reply) {
        var row := Row(recordMonth, w.flights[caller], 1, KeyOf(w.flights[caller], reply.id.value));
        var g := w.guard.(rows := Recorded(w.guard.rows, row));
        forall m | m in g.blocked
          ensures Used(g.rows, m) >= policy.cap
        {
          UseNeverFalls(w.guard.rows, row, m);
        }
        assert NoticesFit(g) by { SameNotices(w.guard, g); }
        hide NoticesFit, Recorded, Used;
        EvaluatedFits(g, policy, statusMonth);
      }
  }

  lemma SameNotices(a: Guard, b: Guard)
    requires NoticesFit(a) && a.events == b.events && a.warned == b.warned && a.blocked == b.blocked
    ensures NoticesFit(b)
  {
    forall m, l: Level
      ensures HasEvent(a, l, m) <==> HasEvent(b, l, m)
    {
    }
  }

  /** On every run: per month at most one warning and one exceeded, in that order, and exceeded only at the cap. */
  lemma {:induction false} NoticesOnce(start: int, policy: Policy, steps: seq<Step>)
    requires policy.cap >= 1
    ensures NoticesFit(Run(start, policy, steps).guard) && BlockedMeansReached(Run(start, policy, steps).guard, policy)
    decreases steps
  {
    if steps != [] {
      NoticesOnce(start, policy, steps[..|steps| - 1]);
      NextNotices(Run(start, policy, steps[..|steps| - 1]), policy, steps[|steps| - 1]);
    } else {
      assert NoticesFit(FRESH);
    }
  }

  // ---------------------------------------------------------------- is the notice ever missed?

  /** The month does not turn between recording a write and re-evaluating. */
  ghost predicate SameMonth(steps: seq<Step>) {
    forall s | s in steps && s.Finish? :: s.recordMonth == s.statusMonth
  }

  ghost predicate ReachedMeansBlocked(g: Guard, policy: Policy) {
    forall m | Used(g.rows, m) >= policy.cap :: m in g.blocked
  }

  lemma WrittenBlocks(g: Guard, policy: Policy, row: Row)
    requires policy.cap >= 1 && ReachedMeansBlocked(g, policy) && row.amount == 1
    ensures ReachedMeansBlocked(Written(g, policy, row, row.month), policy)
  {
    forall m
      ensures m != row.month ==> Used(Recorded(g.rows, row), m) == Used(g.rows, m)
    {
      UsedSnoc(g.rows, row, m);
    }
    hide Recorded, Used, Evaluated;
    EvaluatedBlocks(g.(rows := Recorded(g.rows, row)), policy, row.month);
  }

  lemma EvaluatedBlocks(g: Guard, policy: Policy, month: int)
    requires policy.cap >= 1
    ensures var e := Evaluated(g, policy, month);
            && e.rows == g.rows && g.blocked <= e.blocked
            && (Used(g.rows, month) >= policy.cap ==> month in e.blocked)
  {
    hide Ratio, Used;
  }

  /** As long as the month is the same at both readings, the exceeded notice is out exactly when the cap is reached. */
  lemma {:induction false} ExceededIffReached(start: int, policy: Policy, steps: seq<Step>, month: int)
    requires policy.cap >= 1 && SameMonth(steps)
    ensures HasEvent(Run(start, policy, steps).guard, Exceeded, month) <==> Used(Run(start, policy, steps).guard.rows, month) >= policy.cap
  {
    NoticesOnce(start, policy, steps);
    SameMonthBlocks(start, policy, steps);
    hide Run, Used;
  }

  lemma {:induction false} SameMonthBlocks(start: int, policy: Policy, steps: seq<Step>)
    requires policy.cap >= 1 && SameMonth(steps)
    ensures ReachedMeansBlocked(Run(start, policy, steps).guard, policy)
    decreases steps
  {
    if steps != [] {
      var init, last := steps[..|steps| - 1], steps[|steps| - 1];
      SameMonthBlocks(start, policy, init);
      var w := Run(start, policy, init);
      if last.Finish? && last.caller in w.flights && HasId(last.reply) {
        assert last in steps;
        WrittenBlocks(w.guard, policy, Row(last.recordMonth, w.flights[last.caller], 1, KeyOf(w.flights[last.caller], last.reply.id.value)));
      }
    }
  }

  /** The month has reached the cap without its notice. */
  ghost predicate IsMissed(g: Guard, policy: Policy, month: int) {
    Used(g.rows, month) >= policy.cap && month !in g.blocked
  }

  /** The step records the unit that fills the month up, and re-evaluates another month. */
  ghost predicate FillsUnseen(w: World, policy: Policy, step: Step, month: int) {
    && step.Finish? && step.caller in w.flights && HasId(step.reply)
    && step.recordMonth == month && step.statusMonth != month
    && !HasKey(w.guard.rows, KeyOf(w.flights[step.caller], step.reply.id.value))
    && Used(w.guard.rows, month) == policy.cap - 1
  }

  ghost predicate WasFilledUnseen(start: int, policy: Policy, steps: seq<Step>, month: int) {
    exists i :: 0 <= i < |steps| && FillsUnseen(Run(start, policy, steps[..i]), policy, steps[i], month)
  }

  lemma EvaluatedFires(g: Guard, policy: Policy, month: int)
    requires policy.cap >= 1
    ensures Evaluated(g, policy, month).rows == g.rows
    ensures Evaluated(g, policy, month).blocked == g.blocked + (if Used(g.rows, month) >= policy.cap then {month} else {})
  {
    RatioFollowsUse(Used(g.rows, month), policy.cap);
    hide Ratio, Used;
  }

  /** A write leaves a month without its notice if the month was, or if it fills it up and re-evaluates another. */
  lemma WrittenMisses(g: Guard, policy: Policy, row: Row, statusMonth: int, month: int)
    requires policy.cap >= 1 && KeysDiffer(g.rows) && BlockedMeansReached(g, policy) && row.amount == 1
    requires IsMissed(g, policy, month) ==> month != statusMonth
    ensures IsMissed(Written(g, policy, row, statusMonth), policy, month)
       <==> IsMissed(g, policy, month)
            || (row.month == month != statusMonth && !HasKey(g.rows, row.key) && Used(g.rows, month) == policy.cap - 1)
    ensures KeysDiffer(Written(g, policy, row, statusMonth).rows)
  {
    RecordAddsOnce(g.rows, row, month);
    EvaluatedFires(g.(rows := Recorded(g.rows, row)), policy, statusMonth);
    hide Used, KeysDiffer, Evaluated, Recorded, HasKey;
  }

  /** One step: a month is missed afterwards exactly if it was missed before or the step fills it unseen. */
  lemma StepMisses(w: World, policy: Policy, k: nat, step: Step, month: int)
    requires policy.cap >= 1 && CanStep(w, k, step) && KeysDiffer(w.guard.rows) && BlockedMeansReached(w.guard, policy)
    requires IsMissed(w.guard, policy, month) ==> month < w.month
    ensures var w' := Next(w, policy, step);
            && (IsMissed(w'.guard, policy, month) <==> IsMissed(w.guard, policy, month) || FillsUnseen(w, policy, step, month))
            && (IsMissed(w'.guard, policy, month) ==> month < w'.month)
            && KeysDiffer(w'.guard.rows)
  {
    hide *;
    if step.Begin? {
      NextOfBegin(w, policy, k, step);
      CheckedMisses(w.guard, policy, step.month, month);
      NotFilling(w, policy, step, month);
    } else {
      NextOfFinish(w, policy, k, step);
      if HasId(step.reply) {
        Filling(w, policy, step, month);
        var kind := w.flights[step.caller];
        var row := Row(step.recordMonth, kind, 1, KeyOf(kind, step.reply.id.value));
        WrittenMisses(w.guard, policy, row, step.statusMonth, month);
      } else {
        NotFilling(w, policy, step, month);
      }
    }
  }

  lemma Filling(w: World, policy: Policy, step: Step, month: int)
    requires step.Finish? && step.caller in w.flights && HasId(step.reply)
    ensures step.reply.Created? && step.reply.id.Some?
    ensures FillsUnseen(w, policy, step, month)
       <==> step.recordMonth == month != step.statusMonth
            && !HasKey(w.guard.rows, KeyOf(w.flights[step.caller], step.reply.id.value)) && Used(w.guard.rows, month) == policy.cap - 1
  {
    hide HasKey, Used, KeyOf;
  }

  lemma NotFilling(w: World, policy: Policy, step: Step, month: int)
    requires step.Begin? || !HasId(step.reply)
    ensures !FillsUnseen(w, policy, step, month)
  {
  }

  lemma NextOfBegin(w: World, policy: Policy, k: nat, step: Step)
    requires step.Begin? && CanStep(w, k, step)
    ensures Next(w, policy, step).guard == Checked(w.guard, policy, step.month)
    ensures Next(w, policy, step).month == step.month >= w.month
  {
    hide Checked, IsAllowed;
  }

  lemma NextOfFinish(w: World, policy: Policy, k: nat, step: Step)
    requires step.Finish? && CanStep(w, k, step)
    ensures step.caller in w.flights && w.month <= step.recordMonth <= step.statusMonth
    ensures Next(w, policy, step).month == step.statusMonth
    ensures var kind := w.flights[step.caller];
            Next(w, policy, step).guard ==
            if HasId(step.reply) then Written(w.guard, policy, Row(step.recordMonth, kind, 1, KeyOf(kind, step.reply.id.value)), step.statusMonth)
            else w.guard
  {
    hide Written, KeyOf;
  }

  /** A check fires for its own month only, and records nothing. */
  lemma CheckedMisses(g: Guard, policy: Policy, checked: int, month: int)
    requires IsMissed(g, policy, month) ==> month != checked
    ensures KeysDiffer(Checked(g, policy, checked).rows) == KeysDiffer(g.rows)
    ensures IsMissed(Checked(g, policy, checked), policy, month) == IsMissed(g, policy, month)
  {
    hide Used, KeysDiffer;
  }

  lemma {:induction false} RunMisses(start: int, policy: Policy, k: nat, steps: seq<Step>, month: int)
    requires policy.cap >= 1 && IsRun(start, policy, k, steps)
    ensures var w := Run(start, policy, steps);
            && (IsMissed(w.guard, policy, month) <==> WasFilledUnseen(start, policy, steps, month))
            && (IsMissed(w.guard, policy, month) ==> month < w.month)
            && KeysDiffer(w.guard.rows)
    decreases steps
  {
    if steps != [] {
      var init, last := steps[..|steps| - 1], steps[|steps| - 1];
      RunMisses(start, policy, k, init, month);
      NoticesOnce(start, policy, init);
      StepMisses(Run(start, policy, init), policy, k, last, month);
      FilledSnoc(start, policy, steps, month);
      hide IsMissed, FillsUnseen, WasFilledUnseen, KeysDiffer, Next;
    }
  }

  lemma FilledSnoc(start: int, policy: Policy, steps: seq<Step>, month: int)
    requires steps != []
    ensures var init, last := steps[..|steps| - 1], steps[|steps| - 1];
            WasFilledUnseen(start, policy, steps, month)
            <==> WasFilledUnseen(start, policy, init, month) || FillsUnseen(Run(start, policy, init), policy, last, month)
  {
    var n := |steps| - 1;
    var init := steps[..n];
    forall i | 0 <= i < n
      ensures FillsUnseen(Run(start, policy, init[..i]), policy, init[i], month)
         <==> FillsUnseen(Run(start, policy, steps[..i]), policy, steps[i], month)
    {
      assert init[..i] == steps[..i];
    }
    hide FillsUnseen, Run;
  }

  /**
   * The exact law of the exceeded notice.  On every run it is out for a month if and only if
   * the month's usage has reached the cap and the unit that filled it up was not recorded just
   * before the month turned.
   */
  lemma ExceededUnlessFilledUnseen(start: int, policy: Policy, k: nat, steps: seq<Step>, month: int)
    requires policy.cap >= 1 && IsRun(start, policy, k, steps)
    ensures var g := Run(start, policy, steps).guard;
            HasEvent(g, Exceeded, month)
            <==> Used(g.rows, month) >= policy.cap && !WasFilledUnseen(start, policy, steps, month)
  {
    NoticesOnce(start, policy, steps);
    RunMisses(start, policy, k, steps, month);
    hide Run, Used, IsRun, WasFilledUnseen, KeysDiffer;
  }

  /** And no later step makes up for it: a notice missed once is missed for good. */
  lemma {:induction false} MissedForGood(start: int, policy: Policy, k: nat, steps: seq<Step>, more: seq<Step>, month: int)
    requires policy.cap >= 1 && IsRun(start, policy, k, steps + more) && WasFilledUnseen(start, policy, steps, month)
    ensures !HasEvent(Run(start, policy, steps + more).guard, Exceeded, month)
  {
    var i :| 0 <= i < |steps| && FillsUnseen(Run(start, policy, steps[..i]), policy, steps[i], month);
    assert (steps + more)[..i] == steps[..i] && (steps + more)[i] == steps[i];
    ExceededUnlessFilledUnseen(start, policy, k, steps + more, month);
  }

  /** A month turns in between: the month that was filled up has no notice. */
  lemma NoticeMissedAtRollover(id: string)
    requires id != ""
    ensures var policy, steps := Policy(1, DEFAULT_WARN_THRESHOLD), [Begin(0, Tweet, 0), Finish(0, Created(Some(id)), 0, 1)];
            && IsRun(0, policy, 1, steps)
            && Used(Run(0, policy, steps).guard.rows, 0) == 1
            && !HasEvent(Run(0, policy, steps).guard, Exceeded, 0)
  {
    var policy, begin, finish := Policy(1, DEFAULT_WARN_THRESHOLD), Begin(0, Tweet, 0), Finish(0, Created(Some(id)), 0, 1);
    assert [] + [begin] == [begin] && [begin] + [finish] == [begin, finish];
    RunSnoc(0, policy, 1, [], begin);
    assert Run(0, policy, []) == World(FRESH, map[], 0);
    hide KeyOf, Run, IsRun;
    RunSnoc(0, policy, 1, [begin], finish);
    OneRow(Row(0, Tweet, 1, KeyOf(Tweet, id)));
    hide Recorded, Used;
  }

  lemma OneRow(row: Row)
    ensures Recorded([], row) == [row] && Used([], row.month) == 0
    ensures forall m :: Used([row], m) == if row.month == m then row.amount else 0
  {
    assert [row][..0] == [];
  }
}
