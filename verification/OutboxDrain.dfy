/** How a backlog of due rows is worked off by the ticks of a run, whatever happens in between. */
module OutboxDrain {
  import opened Wrappers
  import opened Outbox
  import opened OutboxProtocol

  /**
   * The step leaves the rows of `some` to the poller and schedules nothing at `last` or before;
   * a tick has the poller's limit and a clock that has reached `last`.
   */
  predicate Spares(step: Step, some: set<nat>, last: int, limit: nat) {
    match step
    case Create(_, publishAt, _) => publishAt.Some? ==> publishAt.value > last
    case PutOnSchedule(id, at, _) => id !in some && at > last
    case Drag(id, at, _) => id !in some && at > last
    case RetryFailed(id, at, _) => id !in some && at > last
    case TakeOffSchedule(id, _) => id !in some
    case Remove(id) => id !in some
    case Tick(_, l, now) => l == limit && now >= last
    case _ => true
  }

  predicate IsWaiting(rows: Table, id: nat) { id in rows && rows[id].status == Scheduled }

  /** The rows of `some` that are still scheduled. */
  function Left(rows: Table, some: set<nat>): set<nat> { set id | id in some && IsWaiting(rows, id) }

  function Ticks(steps: seq<Step>): nat
    decreases steps
  {
    if steps == [] then 0 else (if steps[0].Tick? then 1 else 0) + Ticks(steps[1..])
  }

  /** What is left of `some` is due at `last`, ahead of every other row due then. */
  ghost predicate Ready(s: System, some: set<nat>, last: int) {
    (forall id | id in some :: id < s.nextId) && DueFirst(s.rows, last, Left(s.rows, some))
  }

  /** Nothing new is due at `last`, and the rows of `some` wait as before. */
  ghost predicate LeavesAlone(before: Table, after: Table, some: set<nat>, last: int) {
    && (forall id | id in after && IsDue(after[id], last) :: id in before && IsDue(before[id], last) && after[id].publishAt == before[id].publishAt)
    && (forall id | id in some && IsWaiting(before, id) :: IsWaiting(after, id) && after[id].publishAt == before[id].publishAt)
    && (forall id | id in some && IsWaiting(after, id) :: IsWaiting(before, id))
  }

  lemma AloneStaysReady(before: Table, after: Table, some: set<nat>, last: int)
    requires LeavesAlone(before, after, some, last) && DueFirst(before, last, Left(before, some))
    ensures Left(after, some) == Left(before, some) && DueFirst(after, last, Left(after, some))
  {
    var left := Left(before, some);
    assert Left(after, some) == left;
    forall a | a in left
      ensures a in DueIds(after, last)
    {
      assert a in DueIds(before, last);
    }
    forall a, b | a in left && b in DueIds(after, last) - left
      ensures after[a].publishAt.value < after[b].publishAt.value
    {
      assert b in DueIds(before, last) - left;
    }
  }

  /** A change of one row that makes it neither due nor, if it is of `some`, waiting or no longer waiting. */
  ghost predicate SparesRow(before: Table, id: nat, row: Post, some: set<nat>, last: int) {
    && (IsDue(row, last) ==> id in before && IsDue(before[id], last) && row.publishAt == before[id].publishAt)
    && (id in some ==> (row.status == Scheduled <==> IsWaiting(before, id)))
    && (id in some && IsWaiting(before, id) ==> row.publishAt == before[id].publishAt)
  }

  lemma RowLeavesAlone(before: Table, id: nat, row: Post, some: set<nat>, last: int)
    requires SparesRow(before, id, row, some, last)
    ensures LeavesAlone(before, before[id := row], some, last)
  {
  }

  lemma KeepLeavesAlone(before: Table, id: nat, r: Result<Table, OutboxError>, some: set<nat>, last: int)
    requires r.Ok? ==> id in r.value && r.value == before[id := r.value[id]] && SparesRow(before, id, r.value[id], some, last)
    ensures LeavesAlone(before, Keep(before, r), some, last)
  {
    if r.Ok? {
      RowLeavesAlone(before, id, r.value[id], some, last);
    }
  }

  lemma MarkLeavesAlone(before: Table, w: Worker, now: int, some: set<nat>, last: int)
    requires w.replies != []
    ensures LeavesAlone(before, Mark(before, w, now).0, some, last)
  {
    var id, reply := w.post.id, LastReply(w);
    KeepLeavesAlone(before, id, if reply.Success? then MarkPublished(before, id, reply.value, now)
                                else MarkFailed(before, id, reply.message, Some(|w.replies|), now), some, last);
  }

  lemma StepLeavesAlone(schedule: seq<int>, s: System, step: Step, some: set<nat>, last: int, limit: nat)
    requires Spares(step, some, last, limit) && !step.Tick? && forall id | id in some :: id < s.nextId
    ensures var s' := Next(schedule, s, step); LeavesAlone(s.rows, s'.rows, some, last) && s'.nextId >= s.nextId
  {
    hide LeavesAlone, Mark;
    var s' := Next(schedule, s, step);
    if step.Settle? {
      SameLeavesAlone(s.rows, some, last);
      if s'.rows != s.rows {
        MarkLeavesAlone(s.rows, s.workers[step.worker], step.now, some, last);
      }
    } else {
      ApiLeavesAlone(schedule, s, step, some, last, limit);
    }
  }

  lemma SameLeavesAlone(rows: Table, some: set<nat>, last: int)
    ensures LeavesAlone(rows, rows, some, last)
  {
  }

  lemma RemoveLeavesAlone(rows: Table, id: nat, some: set<nat>, last: int)
    requires id !in some
    ensures LeavesAlone(rows, rows - {id}, some, last)
  {
  }

  lemma ApiLeavesAlone(schedule: seq<int>, s: System, step: Step, some: set<nat>, last: int, limit: nat)
    requires Spares(step, some, last, limit) && !step.Tick? && !step.Settle? && forall id | id in some :: id < s.nextId
    ensures LeavesAlone(s.rows, Next(schedule, s, step).rows, some, last)
  {
    hide LeavesAlone;
    match step
    case Create(content, publishAt, now) =>
      RowLeavesAlone(s.rows, s.nextId, NewPost(s.nextId, content, publishAt, now), some, last);
    case Edit(id, patch, now) => KeepLeavesAlone(s.rows, id, Update(s.rows, id, patch, now), some, last);
    case PutOnSchedule(id, at, now) => KeepLeavesAlone(s.rows, id, Schedule(s.rows, id, at, now), some, last);
    case TakeOffSchedule(id, now) => KeepLeavesAlone(s.rows, id, Unschedule(s.rows, id, now), some, last);
    case Drag(id, at, now) => KeepLeavesAlone(s.rows, id, Reschedule(s.rows, id, at, now), some, last);
    case RetryFailed(id, at, now) => KeepLeavesAlone(s.rows, id, Requeue(s.rows, id, at, now), some, last);
    case Remove(id) => RemoveLeavesAlone(s.rows, id, some, last);
    case _ => SameLeavesAlone(s.rows, some, last);
  }

  /** Rows that become due after `last` are later than those due at `last`. */
  lemma StaysFirst(rows: Table, last: int, now: int, some: set<nat>)
    requires DueFirst(rows, last, some) && now >= last
    ensures DueFirst(rows, now, some)
  {
    forall a, b | a in some && b in DueIds(rows, now) - some
      ensures rows[a].publishAt.value < rows[b].publishAt.value
    {
      assert a in DueIds(rows, last);
      assert IsDue(rows[b], last) ==> b in DueIds(rows, last) - some;
    }
  }

  lemma TickTakes(schedule: seq<int>, s: System, ids: seq<nat>, limit: nat, now: int, some: set<nat>, last: int)
    requires Ready(s, some, last) && IsClaim(s.rows, now, limit, ids)
    ensures var s' := Next(schedule, s, Tick(ids, limit, now));
            Left(s'.rows, some) == Left(s.rows, some) - AsSet(ids) && Ready(s', some, last)
  {
    TickShape(schedule, s, ids, limit, now);
    var rows := Claimed(s.rows, ids, now);
    ClaimedStatus(s.rows, ids, now, limit);
    assert Left(rows, some) == Left(s.rows, some) - AsSet(ids);
    forall a | a in Left(rows, some)
      ensures a in DueIds(rows, last)
    {
      assert a in DueIds(s.rows, last);
    }
    forall a, b | a in Left(rows, some) && b in DueIds(rows, last) - Left(rows, some)
      ensures rows[a].publishAt.value < rows[b].publishAt.value
    {
      assert b in DueIds(s.rows, last) - Left(s.rows, some);
    }
  }

  lemma ClaimedStatus(rows: Table, ids: seq<nat>, now: int, limit: int)
    requires IsClaim(rows, now, limit, ids)
    ensures var after := Claimed(rows, ids, now);
            && after.Keys == rows.Keys
            && forall id | id in rows ::
                 if id in AsSet(ids) then after[id].status == Publishing else after[id] == rows[id]
  {
  }

  /** The claims of a run, in order. */
  ghost function ClaimsOf(schedule: seq<int>, s: System, steps: seq<Step>, s': System): (claims: seq<ClaimRun>)
    requires IsRun(schedule, s, steps, s')
    ensures |claims| == Ticks(steps)
    decreases steps
  {
    if steps == [] then []
    else
      var rest := ClaimsOf(schedule, Next(schedule, s, steps[0]), steps[1..], s');
      if steps[0].Tick? then [ClaimRun(s.rows, steps[0].now, steps[0].ids)] + rest else rest
  }

  /** The claims of a run of sparing steps leave what is left of `some` alone in between. */
  lemma {:induction false} RunIsUndisturbed(schedule: seq<int>, s: System, steps: seq<Step>, s': System, some: set<nat>, last: int, limit: nat)
    requires IsRun(schedule, s, steps, s') && Ready(s, some, last)
    requires forall step | step in steps :: Spares(step, some, last, limit)
    ensures var claims := ClaimsOf(schedule, s, steps, s');
            && Undisturbed(Left(s.rows, some), limit, claims)
            && StillDue(Left(s.rows, some), claims) == Left(s'.rows, some)
    decreases steps
  {
    if steps != [] {
      var step, rest := steps[0], steps[1..];
      var t := Next(schedule, s, step);
      assert Spares(step, some, last, limit);
      if step.Tick? {
        TickTakes(schedule, s, step.ids, limit, step.now, some, last);
        StaysFirst(s.rows, last, step.now, Left(s.rows, some));
      } else {
        StepLeavesAlone(schedule, s, step, some, last, limit);
        AloneStaysReady(s.rows, t.rows, some, last);
      }
      RunIsUndisturbed(schedule, t, rest, s', some, last, limit);
    }
  }

  /**
   * From any reachable state, of the rows due first at some time exactly `limit` a tick are taken
   * off the schedule until none is left, over every run that spares them.
   */
  lemma BacklogDrains(schedule: seq<int>, s: System, steps: seq<Step>, s': System, some: set<nat>, last: int, limit: nat)
    requires Reachable(schedule, s) && IsRun(schedule, s, steps, s') && DueFirst(s.rows, last, some)
    requires forall step | step in steps :: Spares(step, some, last, limit)
    ensures |Left(s'.rows, some)| == if |some| <= Ticks(steps) * limit then 0 else |some| - Ticks(steps) * limit
    ensures Left(s'.rows, some) == {} <==> Ticks(steps) * limit >= |some|
  {
    ReachableInv(schedule, s);
    assert Left(s.rows, some) == some;
    RunIsUndisturbed(schedule, s, steps, s', some, last, limit);
    ClaimsDrain(some, limit, ClaimsOf(schedule, s, steps, s'));
  }

  // ---------------------------------------------------------------- what became of the backlog

  ghost predicate SamePosts(s: System, s': System) {
    |s'.workers| >= |s.workers| && forall i | 0 <= i < |s.workers| :: s'.workers[i].post == s.workers[i].post
  }

  ghost predicate ClaimedSince(s: System, n: nat, id: nat) { exists i :: n <= i < |s.workers| && s.workers[i].post.id == id }

  lemma StepKeepsPosts(schedule: seq<int>, s: System, step: Step)
    requires Enabled(s, step)
    ensures SamePosts(s, Next(schedule, s, step))
  {
    if step.Tick? {
      TickShape(schedule, s, step.ids, step.limit, step.now);
    }
  }

  lemma {:induction false} RunKeepsPosts(schedule: seq<int>, s: System, steps: seq<Step>, s': System)
    requires IsRun(schedule, s, steps, s')
    ensures SamePosts(s, s')
    decreases steps
  {
    if steps != [] {
      StepKeepsPosts(schedule, s, steps[0]);
      RunKeepsPosts(schedule, Next(schedule, s, steps[0]), steps[1..], s');
    }
  }

  lemma TickClaims(schedule: seq<int>, s: System, ids: seq<nat>, limit: int, now: int, id: nat)
    requires RowsOk(s) && IsClaim(s.rows, now, limit, ids) && id in AsSet(ids)
    ensures ClaimedSince(Next(schedule, s, Tick(ids, limit, now)), |s.workers|, id)
  {
    var t, n := Next(schedule, s, Tick(ids, limit, now)), |s.workers|;
    TickShape(schedule, s, ids, limit, now);
    var k :| 0 <= k < |ids| && ids[k] == id;
    assert IsFresh(s.rows, now, ids[n + k - n], t.workers[n + k]);
  }

  /** A spared row leaves the schedule only by being claimed. */
  lemma {:induction false} LeavesByClaim(schedule: seq<int>, s: System, steps: seq<Step>, s': System, some: set<nat>, last: int, limit: nat, id: nat)
    requires Inv(schedule, s) && IsRun(schedule, s, steps, s') && Ready(s, some, last)
    requires forall step | step in steps :: Spares(step, some, last, limit)
    requires id in Left(s.rows, some) - Left(s'.rows, some)
    ensures ClaimedSince(s', |s.workers|, id)
    decreases steps
  {
    if steps != [] {
      var step, rest := steps[0], steps[1..];
      var t := Next(schedule, s, step);
      assert Spares(step, some, last, limit);
      if step.Tick? {
        TickTakes(schedule, s, step.ids, limit, step.now, some, last);
      } else {
        StepLeavesAlone(schedule, s, step, some, last, limit);
        AloneStaysReady(s.rows, t.rows, some, last);
      }
      StepKeepsPosts(schedule, s, step);
      RunKeepsPosts(schedule, t, rest, s');
      NextKeepsInv(schedule, s, step);
      hide IsRun, Next, Inv, RowsOk, IsClaim, Ready, Left, Spares;
      if id in Left(t.rows, some) {
        LeavesByClaim(schedule, t, rest, s', some, last, limit, id);
      } else {
        TickClaims(schedule, s, step.ids, limit, step.now, id);
      }
    }
  }

  /** Every row of the backlog that is no longer scheduled has a claim of its own, made during the run. */
  lemma BacklogIsClaimed(schedule: seq<int>, s: System, steps: seq<Step>, s': System, some: set<nat>, last: int, limit: nat, id: nat)
    requires Reachable(schedule, s) && IsRun(schedule, s, steps, s') && DueFirst(s.rows, last, some)
    requires forall step | step in steps :: Spares(step, some, last, limit)
    requires id in some - Left(s'.rows, some)
    ensures ClaimedSince(s', |s.workers|, id)
  {
    ReachableInv(schedule, s);
    assert Left(s.rows, some) == some;
    LeavesByClaim(schedule, s, steps, s', some, last, limit, id);
  }
}
