/**
 * The publishing protocol: overlapping poller ticks, publishes in flight, and API
 * calls, interleaved at every await.  A worker is one call of `publishOne`; its
 * snapshot of the post is fixed when the row is claimed, and `delete` is legal at any
 * time, so a worker may outlive its row.  Workers are never removed from the list, so
 * the list is also the history of all claims.
 */
module OutboxProtocol {
  import opened Wrappers
  import opened Outbox
  import Retry

  type Reply = Retry.Reply<Option<string>>

  /** How a claim ended.  `Rejected` is an IllegalTransitionError from the final mark. */
  datatype End = MarkedPublished | PublishedGone | MarkedFailed | FailedGone | Rejected

  datatype Phase =
    | Calling                       // a publish call is in flight
    | Sleeping                      // waiting for the next attempt
    | Succeeded                     // the publish went through, the row is not marked yet
    | GaveUp                        // out of attempts, not dead-lettered yet
    | Landed                        // dead-lettered, the row is not marked yet
    | Done(end: End)

  /** `replies` are the ends of all publish calls so far, `slept` the waits between them. */
  datatype Worker = Worker(post: Post, replies: seq<Reply>, slept: seq<int>, phase: Phase)

  datatype DeadLetter = DeadLetter(worker: nat, outboxId: nat, attempts: nat)

  datatype System = System(rows: Table, nextId: nat, workers: seq<Worker>, dlq: seq<DeadLetter>)

  datatype Step =
    | Create(content: Content, publishAt: Option<int>, now: int)
    | Edit(id: nat, patch: Patch, now: int)
    | PutOnSchedule(id: nat, at: int, now: int)
    | TakeOffSchedule(id: nat, now: int)
    | Drag(id: nat, at: int, now: int)
    | RetryFailed(id: nat, at: int, now: int)
    | Remove(id: nat)
    | Tick(ids: seq<nat>, limit: int, now: int)
    | CallEnds(worker: nat, reply: Reply)
    | Wake(worker: nat)
    | Land(worker: nat)
    | Settle(worker: nat, now: int)

  const InitialSystem := System(map[], 1, [], [])

  // ---------------------------------------------------------------- one worker

  /** The injected sleep's walk along the schedule, with its two fallbacks. */
  function Delay(schedule: seq<int>, retryIndex: nat): int {
    if retryIndex < |schedule| then schedule[retryIndex]
    else if schedule != [] then schedule[|schedule| - 1]
    else 0
  }

  function AfterReply(schedule: seq<int>, w: Worker, reply: Reply): Worker {
    var replies := w.replies + [reply];
    if reply.Success? then w.(replies := replies, phase := Succeeded)
    else if Retry.Final(reply, |replies|, |schedule| + 1) then w.(replies := replies, phase := GaveUp)
    else w.(replies := replies, slept := w.slept + [Delay(schedule, |w.slept|)], phase := Sleeping)
  }

  function LastReply(w: Worker): Reply
    requires w.replies != []
  {
    w.replies[|w.replies| - 1]
  }

  /** The final mark: the table it leaves and the end it gives the claim. */
  function Mark(rows: Table, w: Worker, now: int): (Table, End)
    requires w.replies != []
  {
    var reply := LastReply(w);
    var marked := if reply.Success? then MarkPublished(rows, w.post.id, reply.value, now)
                  else MarkFailed(rows, w.post.id, reply.message, Some(|w.replies|), now);
    match marked
    case Ok(t) => (t, if reply.Success? then MarkedPublished else MarkedFailed)
    case Err(NotFound(_)) => (rows, if reply.Success? then PublishedGone else FailedGone)
    case Err(_) => (rows, Rejected)
  }

  predicate InFlight(w: Worker) { !w.phase.Done? }

  // ---------------------------------------------------------------- steps

  function Keep(rows: Table, r: Result<Table, OutboxError>): Table { if r.Ok? then r.value else rows }

  function Launch(rows: Table, ids: seq<nat>): seq<Worker>
    requires forall id | id in ids :: id in rows
  {
    seq(|ids|, i requires 0 <= i < |ids| => Worker(rows[ids[i]], [], [], Calling))
  }

  /** A tick must claim what the SQL statement may claim; every other step is always possible. */
  ghost predicate Enabled(s: System, step: Step) {
    step.Tick? ==> IsClaim(s.rows, step.now, step.limit, step.ids)
  }

  ghost function Next(schedule: seq<int>, s: System, step: Step): System
    requires Enabled(s, step)
  {
    match step
    case Create(content, publishAt, now) =>
      s.(rows := s.rows[s.nextId := NewPost(s.nextId, content, publishAt, now)], nextId := s.nextId + 1)
    case Edit(id, patch, now) => s.(rows := Keep(s.rows, Update(s.rows, id, patch, now)))
    case PutOnSchedule(id, at, now) => s.(rows := Keep(s.rows, Schedule(s.rows, id, at, now)))
    case TakeOffSchedule(id, now) => s.(rows := Keep(s.rows, Unschedule(s.rows, id, now)))
    case Drag(id, at, now) => s.(rows := Keep(s.rows, Reschedule(s.rows, id, at, now)))
    case RetryFailed(id, at, now) => s.(rows := Keep(s.rows, Requeue(s.rows, id, at, now)))
    case Remove(id) => s.(rows := s.rows - {id})
    case Tick(ids, limit, now) =>
      var rows := Claimed(s.rows, ids, now);
      ClaimedIdsStored(s.rows, ids, now, limit);
      s.(rows := rows, workers := s.workers + Launch(rows, ids))
    case CallEnds(i, reply) =>
      if i < |s.workers| && s.workers[i].phase.Calling?
      then s.(workers := s.workers[i := AfterReply(schedule, s.workers[i], reply)]) else s
    case Wake(i) =>
      if i < |s.workers| && s.workers[i].phase.Sleeping?
      then s.(workers := s.workers[i := s.workers[i].(phase := Calling)]) else s
    case Land(i) =>
      if i < |s.workers| && s.workers[i].phase.GaveUp?
      then
        var w := s.workers[i];
        s.(workers := s.workers[i := w.(phase := Landed)],
           dlq := s.dlq + [DeadLetter(i, w.post.id, |w.replies|)])
      else s
    case Settle(i, now) =>
      if i < |s.workers| && s.workers[i].phase in {Succeeded, Landed} && s.workers[i].replies != []
      then
        var (rows, end) := Mark(s.rows, s.workers[i], now);
        s.(rows := rows, workers := s.workers[i := s.workers[i].(phase := Done(end))])
      else s
  }

  lemma ClaimedIdsStored(rows: Table, ids: seq<nat>, now: int, limit: int)
    requires IsClaim(rows, now, limit, ids)
    ensures forall id | id in ids :: id in Claimed(rows, ids, now)
  {
    assert forall id | id in ids :: id in AsSet(ids);
  }

  ghost predicate IsRun(schedule: seq<int>, s: System, steps: seq<Step>, s': System)
    decreases steps
  {
    if steps == [] then s' == s
    else Enabled(s, steps[0]) && IsRun(schedule, Next(schedule, s, steps[0]), steps[1..], s')
  }

  // ---------------------------------------------------------------- the invariant

  predicate Transient(r: Reply) { r.Failure? && r.transient }

  /** The worker has followed `retry` along the schedule so far. */
  ghost predicate FollowsRetry(schedule: seq<int>, w: Worker) {
    var n := |w.replies|;
    if w.phase in {Calling, Sleeping} then
      && n <= |schedule| && w.slept == schedule[..n]
      && (w.phase.Sleeping? ==> n >= 1)
      && forall k | 0 <= k < n :: Transient(w.replies[k])
    else
      && 1 <= n <= |schedule| + 1 && w.slept == schedule[..n - 1]
      && (forall k | 0 <= k < n - 1 :: Transient(w.replies[k]))
      && Retry.Final(LastReply(w), n, |schedule| + 1)
      && (w.phase in {Succeeded, Done(MarkedPublished), Done(PublishedGone)} <==> LastReply(w).Success?)
      && w.phase != Done(Rejected)
  }

  /** What a claim says about the row it was made on, if that is still stored. */
  ghost predicate MatchesRow(rows: Table, w: Worker) {
    w.post.id in rows ==>
      var row := rows[w.post.id];
      && (InFlight(w) ==> row.status == Publishing && row.content == w.post.content)
      && (w.phase == Done(MarkedPublished) ==> row.status == Published)
      && w.phase !in {Done(PublishedGone), Done(FailedGone)}
  }

  /** Scheduled rows carry a time, drafts never do. */
  predicate TimeMatchesStatus(p: Post) { p.publishAt.None? <==> p.status == Draft }

  ghost predicate RowsOk(s: System) {
    forall id | id in s.rows :: id < s.nextId && s.rows[id].id == id && TimeMatchesStatus(s.rows[id])
  }

  ghost predicate WorkersOk(schedule: seq<int>, s: System) {
    forall i | 0 <= i < |s.workers| ::
      s.workers[i].post.id < s.nextId && FollowsRetry(schedule, s.workers[i]) && MatchesRow(s.rows, s.workers[i])
  }

  /** A row is claimed again only after its earlier claims were marked failed. */
  ghost predicate ClaimsInTurn(s: System) {
    forall i, j | 0 <= i < j < |s.workers| && s.workers[i].post.id == s.workers[j].post.id ::
      s.workers[i].phase == Done(MarkedFailed)
  }

  ghost predicate Holds(s: System, i: nat, id: nat) {
    i < |s.workers| && s.workers[i].post.id == id && InFlight(s.workers[i])
  }

  ghost predicate PublishingIsHeld(s: System) {
    forall id | id in s.rows && s.rows[id].status == Publishing :: exists i: nat :: Holds(s, i, id)
  }

  predicate WasLanded(w: Worker) { w.phase in {Landed, Done(MarkedFailed), Done(FailedGone)} }

  function CountLanded(workers: seq<Worker>): nat {
    if workers == [] then 0
    else CountLanded(workers[..|workers| - 1]) + (if WasLanded(workers[|workers| - 1]) then 1 else 0)
  }

  ghost predicate Inv(schedule: seq<int>, s: System) {
    RowsOk(s) && WorkersOk(schedule, s) && ClaimsInTurn(s) && PublishingIsHeld(s) && |s.dlq| == CountLanded(s.workers)
  }

  lemma {:induction false} CountUpdate(workers: seq<Worker>, i: nat, w: Worker)
    requires i < |workers|
    ensures CountLanded(workers[i := w]) ==
            CountLanded(workers) - (if WasLanded(workers[i]) then 1 else 0) + (if WasLanded(w) then 1 else 0)
    decreases workers
  {
    var n := |workers| - 1;
    if i == n {
      assert workers[i := w][..n] == workers[..n];
    } else {
      assert workers[i := w][..n] == workers[..n][i := w];
      CountUpdate(workers[..n], i, w);
    }
  }

  lemma {:induction false} CountAppendFresh(a: seq<Worker>, b: seq<Worker>)
    requires forall w | w in b :: !WasLanded(w)
    ensures CountLanded(a + b) == CountLanded(a)
    decreases b
  {
    if b == [] {
      assert a + b == a;
    } else {
      assert (a + b)[..|a + b| - 1] == a + b[..|b| - 1];
      CountAppendFresh(a, b[..|b| - 1]);
    }
  }

  /** What an API call may do to a row: never one that is publishing or published, and never into those states. */
  ghost predicate ApiEdit(before: Post, after: Post) {
    && after.id == before.id
    && (TimeMatchesStatus(before) ==> TimeMatchesStatus(after))
    && before.status !in {Publishing, Published} && after.status !in {Publishing, Published}
  }

  ghost predicate ApiChange(before: Table, after: Table) {
    && after.Keys == before.Keys
    && forall id | id in before :: after[id] == before[id] || ApiEdit(before[id], after[id])
  }

  lemma ApiCallChanges(rows: Table, id: nat, r: Result<Table, OutboxError>)
    requires r.Ok? ==> id in rows && id in r.value && r.value == rows[id := r.value[id]] && ApiEdit(rows[id], r.value[id])
    ensures ApiChange(rows, Keep(rows, r))
  {
  }

  lemma ApiKeepsInv(schedule: seq<int>, s: System, rows: Table)
    requires Inv(schedule, s) && ApiChange(s.rows, rows)
    ensures Inv(schedule, s.(rows := rows))
  {
    var s' := s.(rows := rows);
    forall id | id in s'.rows && s'.rows[id].status == Publishing
      ensures exists i: nat :: Holds(s', i, id)
    {
      var i :| Holds(s, i, id);
      assert Holds(s', i, id);
    }
  }

  lemma CreateKeepsInv(schedule: seq<int>, s: System, p: Post)
    requires Inv(schedule, s) && p.id == s.nextId && TimeMatchesStatus(p) && p.status in {Draft, Scheduled}
    ensures Inv(schedule, s.(rows := s.rows[p.id := p], nextId := s.nextId + 1))
  {
    var s' := s.(rows := s.rows[p.id := p], nextId := s.nextId + 1);
    forall id | id in s'.rows && s'.rows[id].status == Publishing
      ensures exists i: nat :: Holds(s', i, id)
    {
      var i :| Holds(s, i, id);
      assert Holds(s', i, id);
    }
  }

  lemma RemoveKeepsInv(schedule: seq<int>, s: System, id: nat)
    requires Inv(schedule, s)
    ensures Inv(schedule, s.(rows := s.rows - {id}))
  {
    var s' := s.(rows := s.rows - {id});
    forall x | x in s'.rows && s'.rows[x].status == Publishing
      ensures exists i: nat :: Holds(s', i, x)
    {
      var i :| Holds(s, i, x);
      assert Holds(s', i, x);
    }
  }

  /** A worker that was just started on a claimed row. */
  ghost predicate IsFresh(rows: Table, now: int, id: nat, w: Worker) {
    id in rows && rows[id].status == Scheduled && w == Worker(ClaimRow(rows[id], now), [], [], Calling)
  }

  /** A tick adds one fresh worker per claimed row and leaves the earlier ones alone. */
  lemma TickShape(schedule: seq<int>, s: System, ids: seq<nat>, limit: int, now: int)
    requires IsClaim(s.rows, now, limit, ids)
    ensures var s', n := Next(schedule, s, Tick(ids, limit, now)), |s.workers|;
            && |s'.workers| == n + |ids| && s'.nextId == s.nextId && s'.dlq == s.dlq && s'.rows == Claimed(s.rows, ids, now)
            && (forall i | 0 <= i < n :: s'.workers[i] == s.workers[i])
            && (forall i | n <= i < n + |ids| :: IsFresh(s.rows, now, ids[i - n], s'.workers[i]))
            && (forall id | id in s.rows && id !in ids :: s'.rows[id] == s.rows[id])
  {
    ClaimedIdsStored(s.rows, ids, now, limit);
    forall k | 0 <= k < |ids|
      ensures ids[k] in s.rows && s.rows[ids[k]].status == Scheduled
    {
      assert ids[k] in AsSet(ids);
    }
  }

  lemma FreshWorkersDiffer(rows: Table, now: int, limit: int, workers: seq<Worker>, n: nat, ids: seq<nat>)
    requires forall id | id in rows :: rows[id].id == id
    requires IsClaim(rows, now, limit, ids) && |workers| == n + |ids|
    requires forall i | n <= i < n + |ids| :: IsFresh(rows, now, ids[i - n], workers[i])
    ensures forall i, j | n <= i < j < |workers| :: workers[i].post.id != workers[j].post.id
  {
    forall i, j | n <= i < j < |workers|
      ensures workers[i].post.id != workers[j].post.id
    {
      assert ids[i - n] != ids[j - n];
      assert IsFresh(rows, now, ids[i - n], workers[i]) && IsFresh(rows, now, ids[j - n], workers[j]);
    }
  }

  lemma TickCounts(schedule: seq<int>, s: System, ids: seq<nat>, limit: int, now: int)
    requires IsClaim(s.rows, now, limit, ids) && |s.dlq| == CountLanded(s.workers)
    ensures var s' := Next(schedule, s, Tick(ids, limit, now)); |s'.dlq| == CountLanded(s'.workers)
  {
    ClaimedIdsStored(s.rows, ids, now, limit);
    CountAppendFresh(s.workers, Launch(Claimed(s.rows, ids, now), ids));
    hide IsClaim, Claimed, CountLanded;
  }

  lemma OldWorkerMatches(rows: Table, now: int, limit: int, ids: seq<nat>, w: Worker)
    requires MatchesRow(rows, w) && IsClaim(rows, now, limit, ids)
    ensures MatchesRow(Claimed(rows, ids, now), w)
  {
    assert w.post.id in ids ==> w.post.id in AsSet(ids);
  }

  lemma FreshWorkerMatches(schedule: seq<int>, s: System, now: int, ids: seq<nat>, id: nat, w: Worker)
    requires RowsOk(s) && id in ids && IsFresh(s.rows, now, id, w)
    ensures w.post.id < s.nextId && FollowsRetry(schedule, w) && MatchesRow(Claimed(s.rows, ids, now), w)
  {
  }

  lemma TickRows(s: System, now: int, limit: int, ids: seq<nat>)
    requires RowsOk(s) && IsClaim(s.rows, now, limit, ids)
    ensures RowsOk(s.(rows := Claimed(s.rows, ids, now)))
  {
    forall id | id in ids
      ensures id in s.rows && s.rows[id].status == Scheduled
    {
      assert id in AsSet(ids);
    }
  }

  lemma TickWorkers(schedule: seq<int>, s: System, ids: seq<nat>, limit: int, now: int)
    requires RowsOk(s) && WorkersOk(schedule, s) && IsClaim(s.rows, now, limit, ids)
    ensures var s' := Next(schedule, s, Tick(ids, limit, now)); RowsOk(s') && WorkersOk(schedule, s')
  {
    var s' := Next(schedule, s, Tick(ids, limit, now));
    var n := |s.workers|;
    TickShape(schedule, s, ids, limit, now);
    TickRows(s, now, limit, ids);
    hide Next, IsClaim, Claimed;
    assert RowsOk(s');
    hide FollowsRetry, MatchesRow, RowsOk;
    forall i | 0 <= i < |s'.workers|
      ensures s'.workers[i].post.id < s'.nextId && FollowsRetry(schedule, s'.workers[i]) && MatchesRow(s'.rows, s'.workers[i])
    {
      if i >= n {
        FreshWorkerMatches(schedule, s, now, ids, ids[i - n], s'.workers[i]);
      } else {
        OldWorkerMatches(s.rows, now, limit, ids, s.workers[i]);
        assert s'.workers[i] == s.workers[i];
      }
    }
  }

  /** If the row of an earlier claim is scheduled again, that claim was marked failed. */
  lemma ClaimableMeansFailed(schedule: seq<int>, rows: Table, w: Worker)
    requires FollowsRetry(schedule, w) && MatchesRow(rows, w)
    requires w.post.id in rows && rows[w.post.id].status == Scheduled
    ensures w.phase == Done(MarkedFailed)
  {
    match w.phase
    case Done(end) =>
      match end { case MarkedPublished => case PublishedGone => case MarkedFailed => case FailedGone => case Rejected => }
    case _ =>
  }

  lemma TickClaimsInTurn(schedule: seq<int>, s: System, ids: seq<nat>, limit: int, now: int)
    requires Inv(schedule, s) && IsClaim(s.rows, now, limit, ids)
    ensures ClaimsInTurn(Next(schedule, s, Tick(ids, limit, now)))
  {
    var s' := Next(schedule, s, Tick(ids, limit, now));
    var n := |s.workers|;
    TickShape(schedule, s, ids, limit, now);
    FreshWorkersDiffer(s.rows, now, limit, s'.workers, n, ids);
    hide Next, IsClaim, Claimed, FollowsRetry, MatchesRow;
    forall i, j | 0 <= i < j < |s'.workers| && s'.workers[i].post.id == s'.workers[j].post.id
      ensures s'.workers[i].phase == Done(MarkedFailed)
    {
      assert i < n && s'.workers[i] == s.workers[i];
      if j < n {
        assert s'.workers[j] == s.workers[j];
      } else {
        assert IsFresh(s.rows, now, ids[j - n], s'.workers[j]);
        ClaimableMeansFailed(schedule, s.rows, s.workers[i]);
      }
    }
  }

  lemma TickHeld(schedule: seq<int>, s: System, ids: seq<nat>, limit: int, now: int)
    requires RowsOk(s) && PublishingIsHeld(s) && IsClaim(s.rows, now, limit, ids)
    ensures PublishingIsHeld(Next(schedule, s, Tick(ids, limit, now)))
  {
    var s' := Next(schedule, s, Tick(ids, limit, now));
    var n := |s.workers|;
    TickShape(schedule, s, ids, limit, now);
    assert s'.rows.Keys == s.rows.Keys;
    hide Next, IsClaim, Claimed;
    forall id | id in s'.rows && s'.rows[id].status == Publishing
      ensures exists i: nat :: Holds(s', i, id)
    {
      if id in ids {
        var k :| 0 <= k < |ids| && ids[k] == id;
        FreshWorkerHolds(s, s', now, id, n + k);
      } else {
        assert s'.rows[id] == s.rows[id];
        var i: nat :| Holds(s, i, id);
        assert s'.workers[i] == s.workers[i];
        assert Holds(s', i, id);
      }
    }
  }

  lemma FreshWorkerHolds(s: System, s': System, now: int, id: nat, i: nat)
    requires RowsOk(s) && i < |s'.workers| && IsFresh(s.rows, now, id, s'.workers[i])
    ensures Holds(s', i, id)
  {
  }

  /** Moving one worker on, without touching rows, while it stays in flight. */
  lemma AdvanceKeepsInv(schedule: seq<int>, s: System, i: nat, w: Worker, dlq: seq<DeadLetter>)
    requires Inv(schedule, s) && i < |s.workers| && InFlight(s.workers[i]) && InFlight(w)
    requires w.post == s.workers[i].post && FollowsRetry(schedule, w)
    requires |dlq| - |s.dlq| == (if WasLanded(w) then 1 else 0) - (if WasLanded(s.workers[i]) then 1 else 0)
    ensures Inv(schedule, s.(workers := s.workers[i := w], dlq := dlq))
  {
    var s' := s.(workers := s.workers[i := w], dlq := dlq);
    CountUpdate(s.workers, i, w);
    forall id | id in s'.rows && s'.rows[id].status == Publishing
      ensures exists j :: Holds(s', j, id)
    {
      var j :| Holds(s, j, id);
      assert Holds(s', j, id);
    }
  }

  /**
   * The final mark of a claim in flight never meets an illegal transition: either the
   * row is gone, or it is still publishing and ends published or failed.
   */
  lemma MarkFacts(schedule: seq<int>, s: System, w: Worker, now: int)
    requires FollowsRetry(schedule, w) && MatchesRow(s.rows, w) && w.phase in {Succeeded, Landed} && RowsOk(s)
    ensures var (rows, end) := Mark(s.rows, w, now);
            var id := w.post.id;
            if id in s.rows then
              && id in rows && rows == s.rows[id := rows[id]]
              && rows[id].id == id && TimeMatchesStatus(rows[id])
              && (if w.phase.Succeeded? then end == MarkedPublished && rows[id].status == Published
                  else end == MarkedFailed && rows[id].status == Failed)
            else rows == s.rows && end == if w.phase.Succeeded? then PublishedGone else FailedGone
  {
  }

  lemma SettleKeepsInv(schedule: seq<int>, s: System, i: nat, now: int)
    requires Inv(schedule, s) && i < |s.workers| && s.workers[i].phase in {Succeeded, Landed}
    ensures Inv(schedule, Next(schedule, s, Settle(i, now)))
  {
    var w := s.workers[i];
    assert FollowsRetry(schedule, w) && MatchesRow(s.rows, w);
    MarkFacts(schedule, s, w, now);
    var (rows, end) := Mark(s.rows, w, now);
    SettledKeepsInv(schedule, s, i, rows, w.(phase := Done(end)));
  }

  lemma SettledKeepsInv(schedule: seq<int>, s: System, i: nat, rows: Table, w: Worker)
    requires Inv(schedule, s) && i < |s.workers| && InFlight(s.workers[i])
    requires w.post == s.workers[i].post && FollowsRetry(schedule, w) && MatchesRow(rows, w)
    requires w.phase.Done? && WasLanded(w) == WasLanded(s.workers[i])
    requires rows.Keys == s.rows.Keys && forall id | id in rows && id != w.post.id :: rows[id] == s.rows[id]
    requires w.post.id in rows ==>
      && rows[w.post.id].id == w.post.id && TimeMatchesStatus(rows[w.post.id]) && rows[w.post.id].status != Publishing
    ensures Inv(schedule, s.(rows := rows, workers := s.workers[i := w]))
  {
    var s' := s.(rows := rows, workers := s.workers[i := w]);
    CountUpdate(s.workers, i, w);
    forall j | 0 <= j < |s'.workers|
      ensures s'.workers[j].post.id < s'.nextId && FollowsRetry(schedule, s'.workers[j]) && MatchesRow(rows, s'.workers[j])
    {
      if j != i {
        OthersMatch(schedule, s, i, j);
      }
    }
    forall id | id in rows && rows[id].status == Publishing
      ensures exists j :: Holds(s', j, id)
    {
      var j :| Holds(s, j, id);
      assert Holds(s', j, id);
    }
  }

  /** While one claim on a post is in flight, every other claim on it was marked failed. */
  lemma OthersMatch(schedule: seq<int>, s: System, i: nat, j: nat)
    requires Inv(schedule, s) && i < |s.workers| && j < |s.workers| && i != j && InFlight(s.workers[i])
    ensures s.workers[j].post.id < s.nextId && FollowsRetry(schedule, s.workers[j]) && MatchesRow(s.rows, s.workers[j])
    ensures s.workers[j].post.id == s.workers[i].post.id ==> s.workers[j].phase == Done(MarkedFailed)
  {
    assert FollowsRetry(schedule, s.workers[j]);
  }

  lemma ApiNextKeepsInv(schedule: seq<int>, s: System, step: Step)
    requires Inv(schedule, s)
    requires step.Edit? || step.PutOnSchedule? || step.TakeOffSchedule? || step.Drag? || step.RetryFailed?
    ensures Inv(schedule, Next(schedule, s, step))
  {
    var r := match step
      case Edit(id, patch, now) => Update(s.rows, id, patch, now)
      case PutOnSchedule(id, at, now) => Schedule(s.rows, id, at, now)
      case TakeOffSchedule(id, now) => Unschedule(s.rows, id, now)
      case Drag(id, at, now) => Reschedule(s.rows, id, at, now)
      case RetryFailed(id, at, now) => Requeue(s.rows, id, at, now);
    ApiCallChanges(s.rows, step.id, r);
    ApiKeepsInv(schedule, s, Keep(s.rows, r));
  }

  lemma WorkerNextKeepsInv(schedule: seq<int>, s: System, step: Step)
    requires Inv(schedule, s)
    requires step.CallEnds? || step.Wake? || step.Land? || step.Settle?
    ensures Inv(schedule, Next(schedule, s, step))
  {
    var i := step.worker;
    if i < |s.workers| {
      match step {
        case CallEnds(_, reply) => CallEndsKeepsInv(schedule, s, i, reply);
        case Wake(_) => WakeKeepsInv(schedule, s, i);
        case Land(_) => LandKeepsInv(schedule, s, i);
        case Settle(_, now) =>
          if s.workers[i].phase in {Succeeded, Landed} {
            SettleKeepsInv(schedule, s, i, now);
          }
      }
    }
    hide Inv;
  }

  lemma CallEndsKeepsInv(schedule: seq<int>, s: System, i: nat, reply: Reply)
    requires Inv(schedule, s) && i < |s.workers|
    ensures Inv(schedule, Next(schedule, s, CallEnds(i, reply)))
  {
    var w := s.workers[i];
    if w.phase.Calling? {
      assert FollowsRetry(schedule, w);
      AdvanceKeepsInv(schedule, s, i, AfterReply(schedule, w, reply), s.dlq);
    }
    hide Inv, AfterReply;
  }

  lemma WakeKeepsInv(schedule: seq<int>, s: System, i: nat)
    requires Inv(schedule, s) && i < |s.workers|
    ensures Inv(schedule, Next(schedule, s, Wake(i)))
  {
    var w := s.workers[i];
    if w.phase.Sleeping? {
      assert FollowsRetry(schedule, w);
      AdvanceKeepsInv(schedule, s, i, w.(phase := Calling), s.dlq);
    }
    hide Inv;
  }

  lemma LandKeepsInv(schedule: seq<int>, s: System, i: nat)
    requires Inv(schedule, s) && i < |s.workers|
    ensures Inv(schedule, Next(schedule, s, Land(i)))
  {
    var w := s.workers[i];
    if w.phase.GaveUp? {
      assert FollowsRetry(schedule, w);
      AdvanceKeepsInv(schedule, s, i, w.(phase := Landed), s.dlq + [DeadLetter(i, w.post.id, |w.replies|)]);
    }
    hide Inv;
  }

  lemma NextKeepsInv(schedule: seq<int>, s: System, step: Step)
    requires Inv(schedule, s) && Enabled(s, step)
    ensures Inv(schedule, Next(schedule, s, step))
  {
    match step {
      case Create(content, publishAt, now) => CreateKeepsInv(schedule, s, NewPost(s.nextId, content, publishAt, now));
      case Remove(id) => RemoveKeepsInv(schedule, s, id);
      case Tick(ids, limit, now) =>
        TickWorkers(schedule, s, ids, limit, now);
        TickCounts(schedule, s, ids, limit, now);
        TickClaimsInTurn(schedule, s, ids, limit, now);
        TickHeld(schedule, s, ids, limit, now);
      case CallEnds(_, _) => WorkerNextKeepsInv(schedule, s, step);
      case Wake(_) => WorkerNextKeepsInv(schedule, s, step);
      case Land(_) => WorkerNextKeepsInv(schedule, s, step);
      case Settle(_, _) => WorkerNextKeepsInv(schedule, s, step);
      case _ => ApiNextKeepsInv(schedule, s, step);
    }
  }

  /** The invariant holds in every state of every run from an empty outbox. */
  lemma {:induction false} RunKeepsInv(schedule: seq<int>, s: System, steps: seq<Step>, s': System)
    requires Inv(schedule, s) && IsRun(schedule, s, steps, s')
    ensures Inv(schedule, s')
    decreases steps
  {
    if steps != [] {
      NextKeepsInv(schedule, s, steps[0]);
      RunKeepsInv(schedule, Next(schedule, s, steps[0]), steps[1..], s');
    }
  }

  // ---------------------------------------------------------------- what every run guarantees

  lemma InitialInv(schedule: seq<int>)
    ensures Inv(schedule, InitialSystem)
  {
  }

  ghost predicate Reachable(schedule: seq<int>, s: System) {
    exists steps :: IsRun(schedule, InitialSystem, steps, s)
  }

  lemma ReachableInv(schedule: seq<int>, s: System)
    requires Reachable(schedule, s)
    ensures Inv(schedule, s)
  {
    var steps :| IsRun(schedule, InitialSystem, steps, s);
    InitialInv(schedule);
    RunKeepsInv(schedule, InitialSystem, steps, s);
  }

  /** A stored row is publishing exactly when one publish in flight holds its id, and no two ever do. */
  lemma PublishingIffOneInFlight(schedule: seq<int>, s: System, id: nat)
    requires Reachable(schedule, s) && id in s.rows
    ensures s.rows[id].status == Publishing <==> exists i: nat :: Holds(s, i, id)
    ensures forall i: nat, j: nat :: Holds(s, i, id) && Holds(s, j, id) ==> i == j
  {
    ReachableInv(schedule, s);
    forall i: nat | Holds(s, i, id)
      ensures s.rows[id].status == Publishing
    {
      assert MatchesRow(s.rows, s.workers[i]);
    }
    forall i: nat, j: nat | Holds(s, i, id) && Holds(s, j, id)
      ensures i == j
    {
      if i != j {
        OthersMatch(schedule, s, i, j);
      }
    }
  }

  /** From claim to outcome the stored content is the content being published. */
  lemma ContentFrozen(schedule: seq<int>, s: System, i: nat)
    requires Reachable(schedule, s) && i < |s.workers| && InFlight(s.workers[i]) && s.workers[i].post.id in s.rows
    ensures s.rows[s.workers[i].post.id].content == s.workers[i].post.content
  {
    ReachableInv(schedule, s);
    assert MatchesRow(s.rows, s.workers[i]);
  }

  /** No post id ever gets two successful publishes: neither from two claims nor from two calls of one claim. */
  lemma NoDoublePublish(schedule: seq<int>, s: System, i: nat, j: nat, k: nat, l: nat)
    requires Reachable(schedule, s) && i < |s.workers| && j < |s.workers|
    requires k < |s.workers[i].replies| && s.workers[i].replies[k].Success?
    requires l < |s.workers[j].replies| && s.workers[j].replies[l].Success?
    requires s.workers[i].post.id == s.workers[j].post.id
    ensures i == j && k == l
  {
    ReachableInv(schedule, s);
    SuccessIsLast(schedule, s.workers[i], k);
    SuccessIsLast(schedule, s.workers[j], l);
  }

  lemma SuccessIsLast(schedule: seq<int>, w: Worker, k: nat)
    requires FollowsRetry(schedule, w) && k < |w.replies| && w.replies[k].Success?
    ensures k == |w.replies| - 1 && w.phase in {Succeeded, Done(MarkedPublished), Done(PublishedGone)}
  {
  }

  /**
   * Every claim is attempted at most schedule length + 1 times and waits through the
   * schedule's entries in order, never reaching the fallback; once it is over, its
   * replies are a complete run of `retry` with that many attempts.
   */
  lemma AttemptsFollowSchedule(schedule: seq<int>, s: System, i: nat)
    requires Reachable(schedule, s) && i < |s.workers|
    ensures var w := s.workers[i];
            var calls := |w.replies| + (if w.phase.Calling? then 1 else 0);
            && calls <= |schedule| + 1
            && |w.slept| <= |schedule| && w.slept == schedule[..|w.slept|]
            && (w.phase !in {Calling, Sleeping} ==>
                  && |w.slept| == |w.replies| - 1
                  && Retry.StopsAt((k: nat) => if 1 <= k <= |w.replies| then w.replies[k - 1] else LastReply(w),
                                   |schedule| + 1, |w.replies|))
  {
    ReachableInv(schedule, s);
    assert FollowsRetry(schedule, s.workers[i]);
  }

  function CountEnd(workers: seq<Worker>, phase: Phase): nat {
    if workers == [] then 0
    else CountEnd(workers[..|workers| - 1], phase) + (if workers[|workers| - 1].phase == phase then 1 else 0)
  }

  lemma {:induction false} LandedByEnd(workers: seq<Worker>)
    ensures CountLanded(workers) ==
            CountEnd(workers, Done(MarkedFailed)) + CountEnd(workers, Done(FailedGone)) + CountEnd(workers, Landed)
    decreases workers
  {
    if workers != [] {
      LandedByEnd(workers[..|workers| - 1]);
    }
  }

  /**
   * Dead letters are counted exactly: one for each claim marked failed, one for each
   * that failed after its row was deleted, and one for each about to be marked.
   */
  lemma DeadLettersCounted(schedule: seq<int>, s: System)
    requires Reachable(schedule, s)
    ensures |s.dlq| == CountEnd(s.workers, Done(MarkedFailed)) + CountEnd(s.workers, Done(FailedGone)) + CountEnd(s.workers, Landed)
  {
    ReachableInv(schedule, s);
    LandedByEnd(s.workers);
  }

  /** Scheduled rows carry a time and drafts never do. */
  lemma ScheduledHasTime(schedule: seq<int>, s: System, id: nat)
    requires Reachable(schedule, s) && id in s.rows
    ensures s.rows[id].publishAt.Some? <==> s.rows[id].status != Draft
  {
    ReachableInv(schedule, s);
  }

  /** Own steps a claim can still take before it is over. */
  function Remaining(schedule: seq<int>, w: Worker): int {
    match w.phase
    case Calling => 2 * (|schedule| - |w.replies|) + 4
    case Sleeping => 2 * (|schedule| - |w.replies|) + 5
    case GaveUp => 2
    case Succeeded => 1
    case Landed => 1
    case Done(_) => 0
  }

  /**
   * A claim only moves forward: other steps leave it alone, its own steps use up a
   * budget that is positive until it is over, and once over it never changes again.
   * So every claim that keeps being served reaches exactly one outcome.
   */
  lemma ClaimMovesForward(schedule: seq<int>, s: System, step: Step, i: nat)
    requires Reachable(schedule, s) && Enabled(s, step) && i < |s.workers|
    ensures var w, s' := s.workers[i], Next(schedule, s, step);
            && i < |s'.workers|
            && s'.workers[i].post == w.post
            && (s'.workers[i] == w || 0 <= Remaining(schedule, s'.workers[i]) < Remaining(schedule, w))
            && (w.phase.Done? <==> Remaining(schedule, w) == 0)
            && (w.phase.Done? ==> s'.workers[i] == w && w.phase != Done(Rejected))
  {
    ReachableInv(schedule, s);
    var w := s.workers[i];
    assert FollowsRetry(schedule, w) && MatchesRow(s.rows, w);
    NextKeepsInv(schedule, s, step);
    var s' := Next(schedule, s, step);
    assert FollowsRetry(schedule, s'.workers[i]);
  }

  /** In every phase short of its end a claim has an own step that moves it. */
  lemma ClaimCanMove(schedule: seq<int>, s: System, i: nat, reply: Reply, now: int)
    requires Reachable(schedule, s) && i < |s.workers| && InFlight(s.workers[i])
    ensures var step := match s.workers[i].phase
              case Calling => CallEnds(i, reply)
              case Sleeping => Wake(i)
              case GaveUp => Land(i)
              case _ => Settle(i, now);
            Next(schedule, s, step).workers[i] != s.workers[i]
  {
    ReachableInv(schedule, s);
    assert FollowsRetry(schedule, s.workers[i]);
  }
}
