/** What each operation stores, field by field: the row it leaves, and the rows and fields it leaves alone. */
module OutboxRows {
  import opened Wrappers
  import opened Outbox
  import opened OutboxProtocol
  import Retry

  /** Only the row `id` may differ. */
  ghost predicate OnlyRow(before: Table, after: Table, id: nat) {
    id in before && after.Keys == before.Keys && forall other | other in before && other != id :: after[other] == before[other]
  }

  /** What no operation on a stored row ever changes. */
  ghost predicate SameOrigin(p: Post, q: Post) {
    q.id == p.id && q.content.platform == p.content.platform && q.createdAt == p.createdAt
  }

  ghost predicate SameText(p: Post, q: Post) {
    q.content.accountId == p.content.accountId && q.content.body == p.content.body && q.content.media == p.content.media
  }

  /** Times, errors and results of publishing. */
  ghost predicate SameProgress(p: Post, q: Post) {
    && q.status == p.status && q.publishAt == p.publishAt && q.externalId == p.externalId
    && q.attempts == p.attempts && q.lastError == p.lastError && q.publishedAt == p.publishedAt
  }

  ghost predicate FailsAs(rows: Table, id: nat, to: Option<Status>, e: OutboxError) {
    if id !in rows then e == NotFound(id)
    else e == IllegalTransition(rows[id].status, if to.Some? then to.value else rows[id].status)
  }

  // ---------------------------------------------------------------- create and edit

  lemma CreateStores(content: Content, publishAt: Option<int>, id: nat, now: int)
    ensures var p := NewPost(id, content, publishAt, now);
            && p.id == id && p.content == content && p.publishAt == publishAt && p.createdAt == p.updatedAt == now
            && (p.status == Scheduled <==> publishAt.Some?) && (p.status == Draft <==> publishAt.None?)
            && p.externalId == None && p.attempts == 0 && p.lastError == None && p.publishedAt == None
  {
  }

  /** An edit stores what the patch names and nothing else; it fails exactly for a row that is missing, publishing or published. */
  lemma EditStores(rows: Table, id: nat, patch: Patch, now: int)
    ensures var r := Update(rows, id, patch, now);
            && (r.Ok? <==> id in rows && rows[id].status in {Draft, Scheduled, Failed})
            && (r.Err? ==> FailsAs(rows, id, None, r.error))
            && (r.Ok? ==> OnlyRow(rows, r.value, id))
    ensures var r := Update(rows, id, patch, now);
            r.Ok? ==>
              var p, q := rows[id], r.value[id];
              && SameOrigin(p, q) && SameProgress(p, q) && q.updatedAt == now
              && (patch.body.Some? ==> q.content.body == patch.body.value)
              && (patch.body.None? ==> q.content.body == p.content.body)
              && (patch.media.Some? ==> q.content.media == patch.media.value)
              && (patch.media.None? ==> q.content.media == p.content.media)
              && (patch.accountId.Some? ==> q.content.accountId == patch.accountId)
              && (patch.accountId.None? ==> q.content.accountId == p.content.accountId)
  {
    if id in rows {
      match rows[id].status
      case Draft => assert rows[id].status == Draft;
      case Scheduled => assert rows[id].status == Scheduled;
      case Failed => assert rows[id].status == Failed;
      case _ =>
    }
  }

  function Later<T>(first: Option<T>, second: Option<T>): Option<T> { match second case Some(_) => second case None => first }

  /** Two edits are one edit in which the later one wins field by field. */
  lemma EditsCompose(rows: Table, id: nat, first: Patch, second: Patch, early: int, late: int)
    requires Update(rows, id, first, early).Ok?
    ensures var both := Patch(Later(first.body, second.body), Later(first.media, second.media), Later(first.accountId, second.accountId));
            Update(Update(rows, id, first, early).value, id, second, late) == Update(rows, id, both, late)
  {
    EditStores(rows, id, first, early);
    var once := Update(rows, id, first, early).value;
    var twice := Update(once, id, second, late);
    assert twice.Ok?;
    assert twice.value == rows[id := twice.value[id]];
  }

  // ---------------------------------------------------------------- the state machine

  /** The edges of the state machine. */
  ghost predicate IsEdge(from: Status, to: Status) {
    (from, to) in {(Draft, Scheduled), (Scheduled, Draft), (Scheduled, Publishing), (Publishing, Published), (Publishing, Failed), (Failed, Scheduled)}
  }

  lemma TransitionStores(rows: Table, id: nat, to: Status, publishAt: Option<Option<int>>, clearError: bool, now: int)
    ensures var r := Transition(rows, id, to, publishAt, clearError, now);
            && (r.Ok? <==> id in rows && IsEdge(rows[id].status, to))
            && (r.Err? ==> FailsAs(rows, id, Some(to), r.error))
            && (r.Ok? ==> OnlyRow(rows, r.value, id))
    ensures var r := Transition(rows, id, to, publishAt, clearError, now);
            r.Ok? ==>
              var p, q := rows[id], r.value[id];
              && SameOrigin(p, q) && SameText(p, q) && q.status == to && q.updatedAt == now
              && (publishAt.Some? ==> q.publishAt == publishAt.value) && (publishAt.None? ==> q.publishAt == p.publishAt)
              && (clearError ==> q.lastError == None) && (!clearError ==> q.lastError == p.lastError)
              && q.externalId == p.externalId && q.attempts == p.attempts && q.publishedAt == p.publishedAt
  {
  }

  /** A draft is scheduled, and a failed post retried, for the time given: each succeeds, and then the row waits for that time. */
  lemma ScheduleStores(rows: Table, id: nat, at: int, now: int)
    ensures Schedule(rows, id, at, now).Ok? <==> id in rows && rows[id].status in {Draft, Failed}
    ensures Requeue(rows, id, at, now).Ok? <==> id in rows && rows[id].status in {Draft, Failed}
    ensures Reschedule(rows, id, at, now).Ok? <==> id in rows && rows[id].status in {Scheduled, Failed}
    ensures forall r | r in {Schedule(rows, id, at, now), Requeue(rows, id, at, now), Reschedule(rows, id, at, now)} && r.Ok? ::
              OnlyRow(rows, r.value, id) && Waits(rows[id], r.value[id], at, now)
    ensures var r := Schedule(rows, id, at, now); r.Ok? ==> r.value[id].lastError == rows[id].lastError
    ensures var r := Requeue(rows, id, at, now); r.Ok? ==> r.value[id].lastError == None
    ensures var r := Reschedule(rows, id, at, now); r.Ok? ==> r.value[id].lastError == None
  {
  }

  ghost predicate Waits(p: Post, q: Post, at: int, now: int) {
    && SameOrigin(p, q) && SameText(p, q) && q.status == Scheduled && q.publishAt == Some(at) && q.updatedAt == now
    && q.externalId == p.externalId && q.attempts == p.attempts && q.publishedAt == p.publishedAt
  }

  /** A post put on the schedule for a time is due from that time on, and not before. */
  lemma WaitsUntil(rows: Table, id: nat, at: int, now: int, later: int)
    requires Schedule(rows, id, at, now).Ok?
    ensures id in DueIds(Schedule(rows, id, at, now).value, later) <==> at <= later
  {
    ScheduleStores(rows, id, at, now);
  }

  /** Taking a post off the schedule undoes scheduling it, but for the time of the last update. */
  lemma UnscheduleUndoes(rows: Table, id: nat, at: int, early: int, late: int)
    requires id in rows && rows[id].status == Draft && TimeMatchesStatus(rows[id])
    ensures Schedule(rows, id, at, early).Ok?
    ensures Unschedule(Schedule(rows, id, at, early).value, id, late) == Ok(rows[id := rows[id].(updatedAt := late)])
  {
    var back := Unschedule(Schedule(rows, id, at, early).value, id, late);
    assert back.Ok? && back.value == rows[id := back.value[id]];
  }

  /** Only a scheduled post can be taken off the schedule; the same goes for the time it had. */
  lemma UnscheduleStores(rows: Table, id: nat, now: int)
    ensures Unschedule(rows, id, now).Ok? <==> id in rows && rows[id].status == Scheduled
    ensures var r := Unschedule(rows, id, now);
            r.Ok? ==> OnlyRow(rows, r.value, id) && r.value[id].status == Draft && r.value[id].publishAt == None
                      && SameOrigin(rows[id], r.value[id]) && SameText(rows[id], r.value[id])
  {
  }

  // ---------------------------------------------------------------- outcomes

  lemma MarksStore(rows: Table, id: nat, externalId: Option<string>, error: string, attempts: Option<nat>, now: int)
    ensures var r := MarkPublished(rows, id, externalId, now);
            && (r.Ok? <==> id in rows && rows[id].status == Publishing)
            && (r.Err? ==> FailsAs(rows, id, Some(Published), r.error))
            && (r.Ok? ==> OnlyRow(rows, r.value, id) && IsPublishedAs(rows[id], r.value[id], externalId, now))
    ensures var r := MarkFailed(rows, id, error, attempts, now);
            && (r.Ok? <==> id in rows && rows[id].status == Publishing)
            && (r.Err? ==> FailsAs(rows, id, Some(Failed), r.error))
            && (r.Ok? ==> OnlyRow(rows, r.value, id) && IsFailedAs(rows[id], r.value[id], error, attempts, now))
  {
  }

  ghost predicate IsPublishedAs(p: Post, q: Post, externalId: Option<string>, now: int) {
    && SameOrigin(p, q) && SameText(p, q) && q.status == Published && q.externalId == externalId
    && q.publishedAt == Some(now) && q.lastError == None && q.updatedAt == now
    && q.publishAt == p.publishAt && q.attempts == p.attempts
  }

  ghost predicate IsFailedAs(p: Post, q: Post, error: string, attempts: Option<nat>, now: int) {
    && SameOrigin(p, q) && SameText(p, q) && q.status == Failed && q.lastError == Some(error)
    && (attempts.Some? ==> q.attempts == attempts.value) && (attempts.None? ==> q.attempts == p.attempts)
    && q.publishAt == p.publishAt && q.externalId == p.externalId && q.publishedAt == p.publishedAt && q.updatedAt == now
  }

  /** A claim moves its rows to publishing, counts an attempt, and touches nothing else. */
  lemma ClaimStores(rows: Table, ids: seq<nat>, now: int, id: nat)
    requires id in rows
    ensures var after := Claimed(rows, ids, now);
            && after.Keys == rows.Keys && (id !in ids ==> after[id] == rows[id])
            && (id in ids ==>
                  && after[id].status == Publishing && after[id].attempts == rows[id].attempts + 1 && after[id].updatedAt == now
                  && SameOrigin(rows[id], after[id]) && SameText(rows[id], after[id]) && after[id].publishAt == rows[id].publishAt
                  && after[id].externalId == rows[id].externalId && after[id].lastError == rows[id].lastError
                  && after[id].publishedAt == rows[id].publishedAt)
  {
  }

  /**
   * In every reachable state the final mark of a claim whose row is still there stores the outcome of
   * its last call: the external id of a success, or the error and the number of calls of a failure.
   */
  lemma SettleStores(schedule: seq<int>, s: System, i: nat, now: int)
    requires Reachable(schedule, s) && i < |s.workers| && s.workers[i].phase in {Succeeded, Landed}
    requires s.workers[i].post.id in s.rows
    ensures var w := s.workers[i];
            var after := Next(schedule, s, Settle(i, now)).rows;
            && w.replies != [] && OnlyRow(s.rows, after, w.post.id)
            && (LastReply(w).Success? ==> IsPublishedAs(s.rows[w.post.id], after[w.post.id], LastReply(w).value, now))
            && (LastReply(w).Failure? ==> IsFailedAs(s.rows[w.post.id], after[w.post.id], LastReply(w).message, Some(|w.replies|), now))
            && SameText(w.post, after[w.post.id])
  {
    ReachableInv(schedule, s);
    var w := s.workers[i];
    assert FollowsRetry(schedule, w) && MatchesRow(s.rows, w);
    MarksStore(s.rows, w.post.id, if LastReply(w).Success? then LastReply(w).value else None,
               if LastReply(w).Failure? then LastReply(w).message else "", Some(|w.replies|), now);
    hide Inv, Reachable, MarkPublished, MarkFailed;
  }

  // ---------------------------------------------------------------- from draft to published

  /** A new draft, edited and put on the schedule. */
  ghost function Prepared(schedule: seq<int>, s: System, content: Content, patch: Patch, at: int, now: int): System {
    var id := s.nextId;
    var drafted := Next(schedule, s, Create(content, None, now));
    Next(schedule, Next(schedule, drafted, Edit(id, patch, now)), PutOnSchedule(id, at, now))
  }

  lemma PreparedWaits(schedule: seq<int>, s: System, content: Content, patch: Patch, at: int, now: int)
    ensures var after, id := Prepared(schedule, s, content, patch, at, now), s.nextId;
            && after.workers == s.workers && id in after.rows
            && after.rows[id] == Post(id, after.rows[id].content, Scheduled, Some(at), None, 0, None, None, now, now)
            && after.rows[id].content.platform == content.platform
            && after.rows[id].content.body == (if patch.body.Some? then patch.body.value else content.body)
            && after.rows[id].content.media == (if patch.media.Some? then patch.media.value else content.media)
            && after.rows[id].content.accountId == (if patch.accountId.Some? then patch.accountId else content.accountId)
  {
    var id := s.nextId;
    var drafted := Next(schedule, s, Create(content, None, now));
    EditStores(drafted.rows, id, patch, now);
    var edited := Next(schedule, drafted, Edit(id, patch, now));
    ScheduleStores(edited.rows, id, at, now);
  }

  /** A claimed row whose first call succeeds ends published with the id the platform gave it. */
  lemma ClaimGoesOut(schedule: seq<int>, s: System, ids: seq<nat>, limit: int, now: int, k: nat, value: Option<string>, later: int)
    requires RowsOk(s) && IsClaim(s.rows, now, limit, ids) && k < |ids|
    ensures var id, i := ids[k], |s.workers| + k;
            var claimed := Next(schedule, s, Tick(ids, limit, now));
            var called := Next(schedule, claimed, CallEnds(i, Retry.Success(value)));
            var after := Next(schedule, called, Settle(i, later));
            && id in s.rows && id in after.rows
            && SameOrigin(s.rows[id], after.rows[id]) && SameText(s.rows[id], after.rows[id])
            && after.rows[id].status == Published && after.rows[id].externalId == value && after.rows[id].publishedAt == Some(later)
            && after.rows[id].attempts == s.rows[id].attempts + 1 && after.rows[id].publishAt == s.rows[id].publishAt
            && after.workers[i].phase == Done(MarkedPublished)
  {
    var i := |s.workers| + k;
    ClaimedWorker(schedule, s, ids, limit, now, k);
    ClaimStores(s.rows, ids, now, ids[k]);
    SuccessEnds(schedule, Next(schedule, s, Tick(ids, limit, now)), i, value, later);
    hide Next, IsClaim, RowsOk, Claimed;
  }

  lemma ClaimedWorker(schedule: seq<int>, s: System, ids: seq<nat>, limit: int, now: int, k: nat)
    requires RowsOk(s) && IsClaim(s.rows, now, limit, ids) && k < |ids|
    ensures var id, i := ids[k], |s.workers| + k;
            var claimed := Next(schedule, s, Tick(ids, limit, now));
            && id in s.rows && s.rows[id].id == id && claimed.rows == Claimed(s.rows, ids, now) && i < |claimed.workers|
            && claimed.workers[i] == Worker(ClaimRow(s.rows[id], now), [], [], Calling)
  {
    var i := |s.workers| + k;
    TickShape(schedule, s, ids, limit, now);
    assert IsFresh(s.rows, now, ids[i - |s.workers|], Next(schedule, s, Tick(ids, limit, now)).workers[i]);
    hide Next, IsClaim;
  }

  lemma SuccessEnds(schedule: seq<int>, s: System, i: nat, value: Option<string>, later: int)
    requires i < |s.workers| && s.workers[i] == Worker(s.workers[i].post, [], [], Calling)
    requires s.workers[i].post.id in s.rows && s.rows[s.workers[i].post.id].status == Publishing
    ensures var id := s.workers[i].post.id;
            var called := Next(schedule, s, CallEnds(i, Retry.Success(value)));
            var after := Next(schedule, called, Settle(i, later));
            && id in after.rows && IsPublishedAs(s.rows[id], after.rows[id], value, later)
            && after.workers[i].phase == Done(MarkedPublished)
  {
    var called := Next(schedule, s, CallEnds(i, Retry.Success(value)));
    assert called.rows == s.rows && called.workers[i].replies == [Retry.Success(value)];
    MarksStore(s.rows, s.workers[i].post.id, value, "", None, later);
  }

  /** Due and within the limit, a waiting row is in every claim. */
  lemma DueIsClaimed(rows: Table, now: int, limit: int, ids: seq<nat>, id: nat)
    requires IsClaim(rows, now, limit, ids) && id in rows && IsDue(rows[id], now) && (limit < 0 || |DueIds(rows, now)| <= limit)
    ensures id in ids
  {
    DistinctSize(ids);
    SizeOfRest(DueIds(rows, now), AsSet(ids));
    assert DueIds(rows, now) - AsSet(ids) == {};
    assert id in DueIds(rows, now);
  }

  // ---------------------------------------------------------------- dead letters

  /** The letter names a claim that gave up, the row it was made on, and its number of calls. */
  ghost predicate IsTruthful(d: DeadLetter, s: System) {
    && d.worker < |s.workers| && d.outboxId == s.workers[d.worker].post.id && d.attempts == |s.workers[d.worker].replies|
    && WasLanded(s.workers[d.worker])
  }

  ghost predicate AllTruthful(s: System) { forall d | d in s.dlq :: IsTruthful(d, s) }

  /** A claim that was dead-lettered keeps its post and its calls. */
  lemma LandedStays(schedule: seq<int>, s: System, step: Step, i: nat)
    requires Enabled(s, step) && Inv(schedule, s) && i < |s.workers| && WasLanded(s.workers[i])
    ensures var t := Next(schedule, s, step);
            && i < |t.workers| && WasLanded(t.workers[i])
            && t.workers[i].post == s.workers[i].post && t.workers[i].replies == s.workers[i].replies
  {
    match step
    case Tick(ids, limit, now) => TickShape(schedule, s, ids, limit, now);
    case Settle(j, now) =>
      if j < |s.workers| && s.workers[j].phase in {Succeeded, Landed} {
        assert FollowsRetry(schedule, s.workers[j]) && MatchesRow(s.rows, s.workers[j]);
        MarkFacts(schedule, s, s.workers[j], now);
      }
    case _ =>
  }

  lemma StepTruthful(schedule: seq<int>, s: System, step: Step)
    requires Enabled(s, step) && Inv(schedule, s) && AllTruthful(s)
    ensures AllTruthful(Next(schedule, s, step))
  {
    var t := Next(schedule, s, step);
    forall d | d in t.dlq
      ensures IsTruthful(d, t)
    {
      if d in s.dlq {
        assert IsTruthful(d, s);
        LandedStays(schedule, s, step, d.worker);
      }
    }
  }

  lemma {:induction false} RunTruthful(schedule: seq<int>, s: System, steps: seq<Step>, s': System)
    requires Inv(schedule, s) && AllTruthful(s) && IsRun(schedule, s, steps, s')
    ensures AllTruthful(s')
    decreases steps
  {
    if steps != [] {
      StepTruthful(schedule, s, steps[0]);
      NextKeepsInv(schedule, s, steps[0]);
      RunTruthful(schedule, Next(schedule, s, steps[0]), steps[1..], s');
    }
  }

  /** On every run each dead letter names a claim that gave up, its post and the calls it made. */
  lemma DeadLettersTruthful(schedule: seq<int>, steps: seq<Step>, s: System)
    requires IsRun(schedule, InitialSystem, steps, s)
    ensures AllTruthful(s)
  {
    InitialInv(schedule);
    RunTruthful(schedule, InitialSystem, steps, s);
  }
}
