/** What the approval queue stores and answers: entries, refusals, and the cause of every outcome. */
module ApprovalLaws {
  import opened Wrappers
  import opened JsMaps
  import opened Sorting
  import opened Approvals

  // ---------------------------------------------------------------- admission

  /** A whole number that is not negative. */
  ghost predicate IsWhole(x: real) { exists n: nat :: IsExactly(x, n) }

  predicate IsExactly(x: real, n: nat) { x == n as real }

  lemma CountIsWhole(x: real)
    ensures IsCount(x) <==> IsWhole(x)
  {
    if IsCount(x) {
      var n: nat := x.Floor;
      assert IsExactly(x, n);
    }
  }

  /** A configuration is refused for a default timeout that is no whole number and for a cap that is not one of 1, 2, ...; otherwise it holds what was given. */
  lemma ConfigMeans(defaultTimeoutMs: Option<real>, maxPending: Option<real>)
    ensures var made := MakeConfig(defaultTimeoutMs, maxPending);
            && (made.Err? <==> (defaultTimeoutMs.Some? && !IsWhole(defaultTimeoutMs.value))
                               || (maxPending.Some? && (!IsWhole(maxPending.value) || maxPending.value == 0.0)))
            && (made.Err? ==> made.error == InvalidOptions)
            && (made.Ok? ==> Holds(made.value.defaultTimeoutMs, defaultTimeoutMs) && Holds(made.value.maxPending, maxPending))
  {
    if defaultTimeoutMs.Some? {
      CountIsWhole(defaultTimeoutMs.value);
    }
    if maxPending.Some? {
      CountIsWhole(maxPending.value);
    }
    hide IsWhole;
  }

  predicate Holds(n: Option<nat>, given: Option<real>) { n.Some? == given.Some? && (n.Some? ==> n.value as real == given.value) }

  /** The timeout that counts: the request's own, or else the queue's. */
  predicate IsTimeout(timeoutMs: Option<nat>, o: Options, config: Config) {
    if o.timeoutMs.Some? then Holds(timeoutMs, o.timeoutMs) else timeoutMs == config.defaultTimeoutMs
  }

  ghost predicate BadOptions(o: Options) { (o.timeoutMs.Some? && !IsWhole(o.timeoutMs.value)) || o.id == Some("") }

  /** Why a request is refused: bad options, then an id that is pending, then a full queue. */
  lemma RefusalMeans(q: Queue, config: Config, o: Options, uuid: string)
    ensures var refusal, id := Refusal(q, config, o, uuid), if o.id.Some? then o.id.value else uuid;
            && (refusal == Some(InvalidOptions) <==> BadOptions(o))
            && (refusal == Some(AlreadyPending(id)) <==> !BadOptions(o) && id in q.entries.entries)
            && (refusal.Some? && refusal.value.QueueFull? <==>
                  !BadOptions(o) && id !in q.entries.entries && config.maxPending.Some? && |q.entries.order| >= config.maxPending.value)
            && (refusal == None <==> !BadOptions(o) && id !in q.entries.entries
                                     && (config.maxPending.None? || |q.entries.order| < config.maxPending.value))
  {
    if o.timeoutMs.Some? {
      CountIsWhole(o.timeoutMs.value);
    }
    hide IsWhole;
  }

  /** An admitted request waits under its id with its payload, time and timeout; a timer is armed for it exactly if that is positive. */
  lemma AdmittedStores(q: Queue, config: Config, payload: string, o: Options, uuid: string, now: int)
    requires q.entries.Valid() && Refusal(q, config, o, uuid).None? && forall t | t in q.timers :: t < q.nextTimer
    ensures var after, id := Admitted(q, config, payload, o, uuid, now), if o.id.Some? then o.id.value else uuid;
            && after.entries.entries.Keys == q.entries.entries.Keys + {id} && after.entries.order == q.entries.order + [id]
            && (forall other | other in q.entries.entries :: after.entries.entries[other] == q.entries.entries[other])
            && var e := after.entries.entries[id];
            && !e.settled && e.ticket == |q.issued| && after.issued == q.issued + [e.pending] && after.settled == q.settled
            && e.pending == Pending(id, payload, now, e.pending.timeoutMs) && IsTimeout(e.pending.timeoutMs, o, config)
            && (if e.pending.timeoutMs.Some? && e.pending.timeoutMs.value > 0
                then e.timer.Some? && e.timer.value !in q.timers && after.timers == q.timers[e.timer.value := Timer(id, e.ticket)]
                else e.timer.None? && after.timers == q.timers)
  {
  }

  // ---------------------------------------------------------------- outcomes

  /** A decision settles a pending request as it says; anything else, and any other word, changes nothing. */
  lemma DecisionSettles(q: Queue, config: Config, id: string, word: string, metadata: Option<string>, now: int)
    requires EntriesFit(q)
    ensures var after := Next(q, config, Decide(id, word, metadata, now));
            && (id in q.entries.entries && word == "approve" ==>
                  after.settled == q.settled + [Settlement(q.entries.entries[id].ticket, Outcome(id, Approve, metadata, now))])
            && (id in q.entries.entries && word == "reject" ==>
                  after.settled == q.settled + [Settlement(q.entries.entries[id].ticket, Outcome(id, Reject, metadata, now))])
            && (id in q.entries.entries && word in {"approve", "reject"} ==>
                  id !in after.entries.entries && after.entries.entries == q.entries.entries - {id})
            && (id !in q.entries.entries || word !in {"approve", "reject"} ==> after == q)
  {
    assert "approve"[0] != "reject"[0];
  }

  /** The step that makes this outcome: a decision in its own words, or a timer or a clear, which time out without metadata. */
  ghost predicate Causes(step: Step, o: Outcome) {
    match step
    case Request(_, _, _, _) => false
    case Decide(id, word, metadata, now) =>
      (word == "approve" && o == Outcome(id, Approve, metadata, now)) || (word == "reject" && o == Outcome(id, Reject, metadata, now))
    case Fire(_, now) => o.decision == Timeout && o.metadata == None && o.decidedAt == now
    case Clear(_) => o.decision == Timeout && o.metadata == None
  }

  /** `after` has the settlements of `before` and more, all caused by the step. */
  ghost predicate Extends(before: seq<Settlement>, after: seq<Settlement>, step: Step) {
    && |before| <= |after| && after[..|before|] == before
    && forall i | |before| <= i < |after| :: Causes(step, after[i].outcome)
  }

  lemma TimeoutExtends(before: seq<Settlement>, q: Queue, id: string, now: int, clock: nat -> int)
    requires q.entries.Valid() && Extends(before, q.settled, Clear(clock))
    ensures Extends(before, Settled(q, id, Timeout, None, now).settled, Clear(clock))
  {
  }

  lemma {:induction false} ClearCauses(q: Queue, ids: seq<string>, clock: nat -> int)
    requires q.entries.Valid()
    ensures Extends(q.settled, SettledAll(q, ids, clock).settled, Clear(clock))
    decreases ids
  {
    if ids != [] {
      var init := ids[..|ids| - 1];
      ClearCauses(q, init, clock);
      TimeoutExtends(q.settled, SettledAll(q, init, clock), ids[|ids| - 1], clock(|ids| - 1), clock);
      hide Settled, Extends;
    }
  }

  /** What a clear settles, in order. */
  function Timeouts(q: Queue, ids: seq<string>, clock: nat -> int): seq<Settlement>
    requires forall id | id in ids :: id in q.entries.entries
  {
    seq(|ids|, i requires 0 <= i < |ids| => Settlement(q.entries.entries[ids[i]].ticket, Outcome(ids[i], Timeout, None, clock(i))))
  }

  lemma {:induction false} SettledInOrder(q: Queue, ids: seq<string>, clock: nat -> int)
    requires q.entries.Valid() && (forall id | id in ids :: id in q.entries.entries && !q.entries.entries[id].settled)
    requires AllDistinct(ids)
    ensures SettledAll(q, ids, clock).settled == q.settled + Timeouts(q, ids, clock)
    ensures KeepsOthers(q, SettledAll(q, ids, clock), ids)
    decreases ids
  {
    hide Settled, Timeouts, AllDistinct, KeepsOthers;
    if ids == [] {
      NothingTimedOut(q, clock);
    } else {
      var init, last := ids[..|ids| - 1], ids[|ids| - 1];
      LastIsNew(ids);
      SettledInOrder(q, init, clock);
      OneMoreSettled(q, SettledAll(q, init, clock), init, last, clock(|ids| - 1));
      TimeoutsSnoc(q, ids, clock);
    }
  }

  lemma LastIsNew(ids: seq<string>)
    requires ids != [] && AllDistinct(ids)
    ensures var init, last := ids[..|ids| - 1], ids[|ids| - 1];
            ids == init + [last] && AllDistinct(init) && last !in init && last in ids
  {
    var init, last := ids[..|ids| - 1], ids[|ids| - 1];
    assert forall i | 0 <= i < |init| :: ids[i] != ids[|ids| - 1];
  }

  /** The entries of ids that are not settled are as before. */
  ghost predicate KeepsOthers(q: Queue, r: Queue, ids: seq<string>) {
    forall id | id in q.entries.entries && id !in ids :: id in r.entries.entries && r.entries.entries[id] == q.entries.entries[id]
  }

  lemma NothingTimedOut(q: Queue, clock: nat -> int)
    ensures q.settled == q.settled + Timeouts(q, [], clock) && KeepsOthers(q, q, [])
  {
  }

  lemma OneMoreSettled(q: Queue, r: Queue, ids: seq<string>, id: string, now: int)
    requires r.entries.Valid() && KeepsOthers(q, r, ids) && id in q.entries.entries && id !in ids && !q.entries.entries[id].settled
    ensures var after := Settled(r, id, Timeout, None, now);
            && after.settled == r.settled + [Settlement(q.entries.entries[id].ticket, Outcome(id, Timeout, None, now))]
            && KeepsOthers(q, after, ids + [id])
  {
  }

  lemma TimeoutsSnoc(q: Queue, ids: seq<string>, clock: nat -> int)
    requires ids != [] && forall id | id in ids :: id in q.entries.entries
    ensures var n := |ids| - 1;
            && (forall id | id in ids[..n] :: id in q.entries.entries)
            && Timeouts(q, ids, clock)
               == Timeouts(q, ids[..n], clock) + [Settlement(q.entries.entries[ids[n]].ticket, Outcome(ids[n], Timeout, None, clock(n)))]
  {
  }

  /** A clear times out every pending request once, in the order they were made. */
  lemma ClearSettlesInOrder(q: Queue, config: Config, clock: nat -> int)
    requires EntriesFit(q)
    ensures (forall id | id in q.entries.order :: id in q.entries.entries)
    ensures Next(q, config, Clear(clock)).settled == q.settled + Timeouts(q, q.entries.order, clock)
  {
    SettledInOrder(q, q.entries.order, clock);
  }

  lemma StepCauses(q: Queue, config: Config, step: Step)
    requires q.entries.Valid()
    ensures Extends(q.settled, Next(q, config, step).settled, step)
  {
    match step
    case Clear(clock) => ClearCauses(q, q.entries.order, clock);
    case Decide(id, word, metadata, now) =>
      assert "approve"[0] != "reject"[0];
    case _ =>
  }

  /** Some step of the run made this outcome. */
  ghost predicate IsCaused(steps: seq<Step>, o: Outcome) { exists i :: 0 <= i < |steps| && Causes(steps[i], o) }

  /** On every run each outcome says what the step that made it said: approvals and rejections come from decisions alone. */
  lemma {:induction false} OutcomesAreCaused(config: Config, steps: seq<Step>, i: nat)
    requires i < |Run(config, steps).settled|
    ensures IsCaused(steps, Run(config, steps).settled[i].outcome)
    decreases steps
  {
    if steps != [] {
      var init, last := steps[..|steps| - 1], steps[|steps| - 1];
      var q := Run(config, init);
      StepCauses(q, config, last);
      hide Causes, Next;
      if i < |q.settled| {
        OutcomesAreCaused(config, init, i);
        var j :| 0 <= j < |init| && Causes(init[j], q.settled[i].outcome);
        assert Causes(steps[j], q.settled[i].outcome);
      } else {
        assert Causes(steps[|steps| - 1], Run(config, steps).settled[i].outcome);
      }
    }
  }
}
