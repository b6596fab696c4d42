/** What the notices of the monthly quota say, and when the warning goes out. */
module XQuotaNotices {
  import opened Wrappers
  import opened XQuota

  /** A summary in its own terms: what is left, and the used share of the cap. */
  ghost predicate IsSummary(s: CreditSummary) {
    && (if s.used <= s.cap then s.remaining == s.cap - s.used else s.remaining == 0)
    && (if s.cap <= 0 || s.used >= s.cap then s.ratio == 1.0 else s.ratio * s.cap as real == s.used as real && s.ratio < 1.0)
  }

  lemma SummaryMeans(rows: seq<Row>, cap: int, month: int)
    ensures var s := Summarize(rows, cap, month);
            IsSummary(s) && s.month == month && s.cap == cap && s.used == Used(rows, month)
  {
    var used := Used(rows, month);
    if cap > 0 && used < cap {
      RatioCaps(used, cap);
      assert used as real / cap as real * cap as real == used as real;
    }
  }

  /** The ledger key tells writes apart by kind and id. */
  lemma KeysTellWritesApart(a: Kind, x: string, b: Kind, y: string)
    ensures KeyOf(a, x) == KeyOf(b, y) <==> a == b && x == y
  {
    var p, q := KeyOf(a, x), KeyOf(b, y);
    assert p[0] == (match a case Tweet => 't' case Reply => 'r' case Dm => 'd');
    assert q[0] == (match b case Tweet => 't' case Reply => 'r' case Dm => 'd');
    assert p[|p| - |x|..] == x && q[|q| - |y|..] == y;
  }

  /** A write is recorded, as one unit, exactly if the reply names an id that is not empty. */
  lemma ReplyRecords(g: Guard, policy: Policy, kind: Kind, reply: Reply, recordMonth: int, statusMonth: int)
    requires KeysDiffer(g.rows)
    ensures var after := Resumed(g, policy, kind, reply, recordMonth, statusMonth);
            && (reply == Failed || reply == Created(None) || reply == Created(Some("")) ==> after == g)
            && (reply.Created? && reply.id.Some? && reply.id.value != "" ==>
                  var key := KeyOf(kind, reply.id.value);
                  HasKey(after.rows, key) && (HasKey(g.rows, key) ==> after.rows == g.rows)
                  && (!HasKey(g.rows, key) ==> after.rows == g.rows + [Row(recordMonth, kind, 1, key)]))
  {
    ResumedRows(g, policy, kind, reply, recordMonth, statusMonth);
    if HasId(reply) {
      var row := Row(recordMonth, kind, 1, KeyOf(kind, reply.id.value));
      KeyIsFound(g.rows, row.key);
      assert row in g.rows + [row];
    }
    hide KeyOf, Written, IndexOfKey;
  }

  // ---------------------------------------------------------------- warnings

  /** The usage is below the cap and has reached the threshold's share of it. */
  predicate IsInWarningRange(used: int, policy: Policy) {
    used < policy.cap && used as real >= policy.warnThreshold * policy.cap as real
  }

  lemma RangeOfRatio(used: int, policy: Policy)
    requires policy.cap >= 1
    ensures IsInWarningRange(used, policy) <==> used < policy.cap && Ratio(used, policy.cap) >= policy.warnThreshold
  {
    var c := policy.cap as real;
    var q := used as real / c;
    assert q * c == used as real;
    assert (q - policy.warnThreshold) * c == used as real - policy.warnThreshold * c;
    SignOfProduct(q - policy.warnThreshold, c);
  }

  /** The step re-evaluates the month after a write, and finds it in the warning range. */
  ghost predicate RaisesWarning(w: World, policy: Policy, step: Step, month: int) {
    && step.Finish? && step.caller in w.flights && HasId(step.reply) && step.statusMonth == month
    && IsInWarningRange(Used(Next(w, policy, step).guard.rows, month), policy)
  }

  lemma EvaluatedWarns(g: Guard, policy: Policy, month: int)
    requires policy.cap >= 1
    ensures Evaluated(g, policy, month).rows == g.rows
    ensures Evaluated(g, policy, month).warned == g.warned + (if IsInWarningRange(Used(g.rows, month), policy) then {month} else {})
  {
    RatioFollowsUse(Used(g.rows, month), policy.cap);
    RangeOfRatio(Used(g.rows, month), policy);
    hide Ratio, Used, IsInWarningRange;
  }

  /** One step: a month is warned of afterwards exactly if it was before or the step finds it in the range. */
  lemma StepWarns(w: World, policy: Policy, step: Step, month: int)
    requires policy.cap >= 1
    ensures month in Next(w, policy, step).guard.warned <==> month in w.guard.warned || RaisesWarning(w, policy, step, month)
  {
    if step.Finish? && step.caller in w.flights && HasId(step.reply) {
      var kind := w.flights[step.caller];
      var g := w.guard.(rows := Recorded(w.guard.rows, Row(step.recordMonth, kind, 1, KeyOf(kind, step.reply.id.value))));
      EvaluatedWarns(g, policy, step.statusMonth);
      hide Evaluated, Used, IsInWarningRange, Recorded, KeyOf;
    }
  }

  ghost predicate WarningRaised(start: int, policy: Policy, steps: seq<Step>, month: int) {
    exists i :: 0 <= i < |steps| && RaisesWarning(Run(start, policy, steps[..i]), policy, steps[i], month)
  }

  lemma RaisedSnoc(start: int, policy: Policy, steps: seq<Step>, month: int)
    requires steps != []
    ensures var init, last := steps[..|steps| - 1], steps[|steps| - 1];
            WarningRaised(start, policy, steps, month)
            <==> WarningRaised(start, policy, init, month) || RaisesWarning(Run(start, policy, init), policy, last, month)
  {
    var n := |steps| - 1;
    var init := steps[..n];
    forall i | 0 <= i < n
      ensures RaisesWarning(Run(start, policy, init[..i]), policy, init[i], month)
         <==> RaisesWarning(Run(start, policy, steps[..i]), policy, steps[i], month)
    {
      assert init[..i] == steps[..i];
    }
    hide RaisesWarning, Run;
  }

  lemma {:induction false} RunWarns(start: int, policy: Policy, steps: seq<Step>, month: int)
    requires policy.cap >= 1
    ensures month in Run(start, policy, steps).guard.warned <==> WarningRaised(start, policy, steps, month)
    decreases steps
  {
    if steps != [] {
      var init := steps[..|steps| - 1];
      RunWarns(start, policy, init, month);
      RaisedSnoc(start, policy, steps, month);
      StepWarns(Run(start, policy, init), policy, steps[|steps| - 1], month);
      hide RaisesWarning, Next;
    }
  }

  /** On every run the warning of a month is out exactly if some write found the month in the warning range. */
  lemma WarnedIffInRange(start: int, policy: Policy, steps: seq<Step>, month: int)
    requires policy.cap >= 1
    ensures HasEvent(Run(start, policy, steps).guard, Warning, month) <==> WarningRaised(start, policy, steps, month)
  {
    NoticesOnce(start, policy, steps);
    RunWarns(start, policy, steps, month);
    hide Run, HasEvent;
  }

  /**
   * A check at the cap sends the exceeded notice unless this guard has sent it before, so also a guard
   * newly made over an old ledger; a check below the cap changes nothing.
   */
  lemma CheckNotifies(g: Guard, policy: Policy, month: int)
    requires NoticesFit(g)
    ensures var after, used := Checked(g, policy, month), Used(g.rows, month);
            && after.rows == g.rows && after.warned == g.warned
            && (used < policy.cap || HasEvent(g, Exceeded, month) ==> after == g)
            && (used >= policy.cap && !HasEvent(g, Exceeded, month) ==>
                  && |after.events| == |g.events| + 1 && after.events[..|g.events|] == g.events
                  && after.events[|g.events|].level == Exceeded && after.events[|g.events|].summary.month == month
                  && after.events[|g.events|].summary.used == used && IsSummary(after.events[|g.events|].summary))
  {
    SummaryMeans(g.rows, policy.cap, month);
    hide Used, IsSummary;
  }

  // ---------------------------------------------------------------- what notices say

  /** The notice's own numbers bear it out. */
  ghost predicate IsTruthful(e: Event, policy: Policy) {
    && IsSummary(e.summary) && e.summary.cap == policy.cap
    && (e.level == Exceeded ==> e.summary.used >= policy.cap)
    && (e.level == Warning ==> IsInWarningRange(e.summary.used, policy))
  }

  ghost predicate AllTruthful(g: Guard, policy: Policy) { forall e | e in g.events :: IsTruthful(e, policy) }

  lemma EvaluatedTruthful(g: Guard, policy: Policy, month: int)
    requires policy.cap >= 1 && AllTruthful(g, policy)
    ensures AllTruthful(Evaluated(g, policy, month), policy)
  {
    SummaryMeans(g.rows, policy.cap, month);
    RatioFollowsUse(Used(g.rows, month), policy.cap);
    RangeOfRatio(Used(g.rows, month), policy);
    hide Used, Ratio, IsSummary, IsInWarningRange;
  }

  /** On every run each notice carries the usage it was sent for. */
  lemma {:induction false} NoticesTruthful(start: int, policy: Policy, steps: seq<Step>)
    requires policy.cap >= 1
    ensures AllTruthful(Run(start, policy, steps).guard, policy)
    decreases steps
  {
    if steps != [] {
      var init := steps[..|steps| - 1];
      NoticesTruthful(start, policy, init);
      StepTruthful(Run(start, policy, init), policy, steps[|steps| - 1]);
      hide Next, AllTruthful;
    } else {
      assert FRESH.events == [];
    }
  }

  lemma StepTruthful(w: World, policy: Policy, step: Step)
    requires policy.cap >= 1 && AllTruthful(w.guard, policy)
    ensures AllTruthful(Next(w, policy, step).guard, policy)
  {
    match step
    case Begin(caller, kind, month) =>
      SummaryMeans(w.guard.rows, policy.cap, month);
      hide Used, Ratio, IsSummary, IsInWarningRange;
    case Finish(caller, reply, recordMonth, statusMonth) =>
      if caller in w.flights && HasId(reply) {
        var kind := w.flights[caller];
        EvaluatedTruthful(w.guard.(rows := Recorded(w.guard.rows, Row(recordMonth, kind, 1, KeyOf(kind, reply.id.value)))), policy, statusMonth);
        hide Evaluated, IsTruthful, Recorded;
      }
  }
}
