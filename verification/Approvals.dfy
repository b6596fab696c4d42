/**
 * The approval queue: requests, decisions, timers and clears in any order, and why each
 * request is settled once and never by another request's timer.
 */
module Approvals {
  import opened Wrappers
  import opened JsMaps

  datatype Decision = Approve | Reject | Timeout

  datatype Outcome = Outcome(id: string, decision: Decision, metadata: Option<string>, decidedAt: int)

  datatype Pending = Pending(id: string, payload: string, createdAt: int, timeoutMs: Option<nat>)

  datatype Entry = Entry(pending: Pending, ticket: nat, timer: Option<nat>, settled: bool)

  /** An armed timer: the callback knows the request id; the ticket only records for whom it was armed. */
  datatype Timer = Timer(id: string, ticket: nat)

  /** A resolved promise, announced as `timeout` or `decision`. */
  datatype Settlement = Settlement(ticket: nat, outcome: Outcome)

  datatype Config = Config(defaultTimeoutMs: Option<nat>, maxPending: Option<nat>)

  datatype Options = Options(timeoutMs: Option<real>, id: Option<string>)

  datatype RequestError = InvalidOptions | AlreadyPending(id: string) | QueueFull(maxPending: nat)

  /** The queue, the runtime's armed timers, the requests admitted so far (by ticket) and the settlements made. */
  datatype Queue = Queue(entries: JsMap<Entry>, timers: map<nat, Timer>, nextTimer: nat, issued: seq<Pending>, settled: seq<Settlement>)

  const EMPTY := Queue(JsMap([], map[]), map[], 0, [], [])

  // ---------------------------------------------------------------- validation

  predicate IsCount(x: real) { x >= 0.0 && x == x.Floor as real }

  function MakeConfig(defaultTimeoutMs: Option<real>, maxPending: Option<real>): Result<Config, RequestError> {
    if defaultTimeoutMs.Some? && !IsCount(defaultTimeoutMs.value) then Err(InvalidOptions)
    else if maxPending.Some? && !(IsCount(maxPending.value) && maxPending.value > 0.0) then Err(InvalidOptions)
    else
      Ok(Config(if defaultTimeoutMs.Some? then Some(defaultTimeoutMs.value.Floor) else None,
                if maxPending.Some? then Some(maxPending.value.Floor) else None))
  }

  predicate ValidOptions(o: Options) {
    (o.timeoutMs.Some? ==> IsCount(o.timeoutMs.value)) && (o.id.Some? ==> o.id.value != "")
  }

  /** The caller's id or the generated one. */
  function IdOf(o: Options, uuid: string): string { if o.id.Some? then o.id.value else uuid }

  /** Why a request is refused, checked in this order. */
  function Refusal(q: Queue, config: Config, o: Options, uuid: string): Option<RequestError> {
    if !ValidOptions(o) then Some(InvalidOptions)
    else if IdOf(o, uuid) in q.entries.entries then Some(AlreadyPending(IdOf(o, uuid)))
    else if config.maxPending.Some? && |q.entries.order| >= config.maxPending.value then Some(QueueFull(config.maxPending.value))
    else None
  }

  function EffectiveTimeout(o: Options, config: Config): Option<nat>
    requires ValidOptions(o)
  {
    if o.timeoutMs.Some? then Some(o.timeoutMs.value.Floor) else config.defaultTimeoutMs
  }

  predicate IsArmed(timeoutMs: Option<nat>) { timeoutMs.Some? && timeoutMs.value > 0 }

  function ParseDecision(decision: string): Option<Decision> {
    if decision == "approve" then Some(Approve) else if decision == "reject" then Some(Reject) else None
  }

  // ---------------------------------------------------------------- what the operations do

  function Admitted(q: Queue, config: Config, payload: string, o: Options, uuid: string, now: int): Queue
    requires q.entries.Valid() && Refusal(q, config, o, uuid).None?
  {
    var id, timeoutMs, ticket := IdOf(o, uuid), EffectiveTimeout(o, config), |q.issued|;
    var pending, armed := Pending(id, payload, now, timeoutMs), IsArmed(timeoutMs);
    q.(entries := q.entries.Put(id, Entry(pending, ticket, if armed then Some(q.nextTimer) else None, false)),
       timers := if armed then q.timers[q.nextTimer := Timer(id, ticket)] else q.timers,
       nextTimer := if armed then q.nextTimer + 1 else q.nextTimer,
       issued := q.issued + [pending])
  }

  predicate CanSettle(q: Queue, id: string) { id in q.entries.entries && !q.entries.entries[id].settled }

  /** Settling clears the timer, frees the slot and resolves the promise; otherwise nothing happens. */
  function Settled(q: Queue, id: string, decision: Decision, metadata: Option<string>, now: int): Queue
    requires q.entries.Valid()
  {
    if !CanSettle(q, id) then q
    else
      var e := q.entries.entries[id];
      q.(entries := q.entries.Remove(id),
         timers := if e.timer.Some? then q.timers - {e.timer.value} else q.timers,
         settled := q.settled + [Settlement(e.ticket, Outcome(id, decision, metadata, now))])
  }

  /** A timer that fires is spent, then runs its callback. */
  function Fired(q: Queue, timer: nat, now: int): Queue
    requires q.entries.Valid() && timer in q.timers
  {
    Settled(q.(timers := q.timers - {timer}), q.timers[timer].id, Timeout, None, now)
  }

  function SettledAll(q: Queue, ids: seq<string>, clock: nat -> int): (r: Queue)
    requires q.entries.Valid()
    ensures r.entries.Valid()
    decreases ids
  {
    if ids == [] then q
    else Settled(SettledAll(q, ids[..|ids| - 1], clock), ids[|ids| - 1], Timeout, None, clock(|ids| - 1))
  }

  function Cleared(q: Queue, clock: nat -> int): Queue
    requires q.entries.Valid()
  {
    SettledAll(q, q.entries.order, clock)
  }

  // ---------------------------------------------------------------- the class

  class ApprovalQueue {
    const config: Config
    var entries: JsMap<Entry>
    var timers: map<nat, Timer>
    var nextTimer: nat
    var issued: seq<Pending>
    var settled: seq<Settlement>

    ghost function View(): Queue
      reads this
    {
      Queue(entries, timers, nextTimer, issued, settled)
    }

    constructor (config: Config)
      ensures View() == EMPTY && this.config == config
    {
      this.config := config;
      entries, timers, nextTimer, issued, settled := JsMap([], map[]), map[], 0, [], [];
    }

    static method Create(defaultTimeoutMs: Option<real>, maxPending: Option<real>) returns (r: Result<ApprovalQueue, RequestError>)
      ensures r.Ok? <==> MakeConfig(defaultTimeoutMs, maxPending).Ok?
      ensures r.Ok? ==> fresh(r.value) && r.value.View() == EMPTY && Ok(r.value.config) == MakeConfig(defaultTimeoutMs, maxPending)
    {
      var made := MakeConfig(defaultTimeoutMs, maxPending);
      if made.Err? {
        return Err(made.error);
      }
      var queue := new ApprovalQueue(made.value);
      r := Ok(queue);
    }

    /** The ticket stands for the promise. */
    method Request(payload: string, o: Options, uuid: string, now: int) returns (ticket: Result<nat, RequestError>)
      requires entries.Valid()
      modifies this
      ensures var refusal := Refusal(old(View()), config, o, uuid);
              if refusal.Some? then View() == old(View()) && ticket == Err(refusal.value)
              else View() == Admitted(old(View()), config, payload, o, uuid, now) && ticket == Ok(old(|issued|))
    {
      if !ValidOptions(o) {
        return Err(InvalidOptions);
      }
      var id := if o.id.Some? then o.id.value else uuid;
      if id in entries.entries {
        return Err(AlreadyPending(id));
      }
      if config.maxPending.Some? && |entries.order| >= config.maxPending.value {
        return Err(QueueFull(config.maxPending.value));
      }
      var timeoutMs := EffectiveTimeout(o, config);
      var pending := Pending(id, payload, now, timeoutMs);
      var entry := Entry(pending, |issued|, None, false);
      if timeoutMs.Some? && timeoutMs.value > 0 {
        timers := timers[nextTimer := Timer(id, |issued|)];
        entry := entry.(timer := Some(nextTimer));
        nextTimer := nextTimer + 1;
      }
      ticket := Ok(|issued|);
      issued := issued + [pending];
      entries := entries.Put(id, entry);
    }

    method Settle(id: string, decision: Decision, metadata: Option<string>, now: int) returns (ok: bool)
      requires entries.Valid()
      modifies this
      ensures View() == Settled(old(View()), id, decision, metadata, now)
      ensures ok == CanSettle(old(View()), id)
    {
      if id !in entries.entries || entries.entries[id].settled {
        return false;
      }
      var entry := entries.entries[id];
      if entry.timer.Some? {
        timers := timers - {entry.timer.value};
      }
      entries := entries.Remove(id);
      settled := settled + [Settlement(entry.ticket, Outcome(id, decision, metadata, now))];
      ok := true;
    }

    /** An unknown decision is refused before anything is looked up. */
    method Decide(id: string, decision: string, metadata: Option<string>, now: int) returns (ok: Option<bool>)
      requires entries.Valid()
      modifies this
      ensures var parsed := ParseDecision(decision);
              if parsed.None? then View() == old(View()) && ok == None
              else View() == Settled(old(View()), id, parsed.value, metadata, now) && ok == Some(CanSettle(old(View()), id))
    {
      var parsed := ParseDecision(decision);
      if parsed.None? {
        return None;
      }
      var done := Settle(id, parsed.value, metadata, now);
      ok := Some(done);
    }

    /** The runtime fires an armed timer. */
    method Fire(timer: nat, now: int)
      requires entries.Valid() && timer in timers
      modifies this
      ensures View() == Fired(old(View()), timer, now)
    {
      var id := timers[timer].id;
      timers := timers - {timer};
      var _ := Settle(id, Timeout, None, now);
    }

    method Clear(clock: nat -> int)
      requires entries.Valid()
      modifies this
      ensures View() == Cleared(old(View()), clock)
    {
      var ids := entries.order;
      for n := 0 to |ids|
        invariant entries.Valid()
        invariant View() == SettledAll(old(View()), ids[..n], clock)
      {
        assert ids[..n + 1][..n] == ids[..n];
        var _ := Settle(ids[n], Timeout, None, clock(n));
      }
      assert ids[..|ids|] == ids;
    }
  }

  // ---------------------------------------------------------------- runs

  datatype Step =
    | Request(payload: string, options: Options, uuid: string, now: int)
    | Decide(id: string, decision: string, metadata: Option<string>, now: int)
    | Fire(timer: nat, now: int)
    | Clear(clock: nat -> int)

  /** Any interleaving of calls and of the firing of armed timers. */
  function Next(q: Queue, config: Config, step: Step): (r: Queue)
    requires q.entries.Valid()
    ensures r.entries.Valid()
  {
    match step
    case Request(payload, o, uuid, now) =>
      if Refusal(q, config, o, uuid).None? then Admitted(q, config, payload, o, uuid, now) else q
    case Decide(id, decision, metadata, now) =>
      var parsed := ParseDecision(decision);
      if parsed.Some? then Settled(q, id, parsed.value, metadata, now) else q
    case Fire(timer, now) => if timer in q.timers then Fired(q, timer, now) else q
    case Clear(clock) => Cleared(q, clock)
  }

  function Run(config: Config, steps: seq<Step>): (r: Queue)
    ensures r.entries.Valid()
    decreases steps
  {
    if steps == [] then EMPTY else Next(Run(config, steps[..|steps| - 1]), config, steps[|steps| - 1])
  }

  /** Pending entries hold unsettled requests, each under its own id and ticket. */
  ghost predicate EntriesFit(q: Queue) {
    && q.entries.Valid()
    && (forall id | id in q.entries.entries ::
          var e := q.entries.entries[id];
          !e.settled && e.ticket < |q.issued| && e.pending == q.issued[e.ticket] && e.pending.id == id)
    && forall id, other | id in q.entries.entries && other in q.entries.entries
                          && q.entries.entries[id].ticket == q.entries.entries[other].ticket :: id == other
  }

  /** Armed timers and pending entries with a timeout match one to one. */
  ghost predicate TimersFit(q: Queue) {
    && (forall t | t in q.timers ::
          t < q.nextTimer && q.timers[t].id in q.entries.entries
          && q.entries.entries[q.timers[t].id].timer == Some(t) && q.entries.entries[q.timers[t].id].ticket == q.timers[t].ticket)
    && forall id | id in q.entries.entries ::
         var e := q.entries.entries[id];
         && (e.timer.Some? <==> IsArmed(e.pending.timeoutMs))
         && (e.timer.Some? ==> e.timer.value in q.timers && q.timers[e.timer.value].id == id)
  }

  /** Every admitted request is either pending or settled, once, under its own id. */
  ghost predicate SettlementsFit(q: Queue) {
    && (forall i | 0 <= i < |q.settled| ::
          q.settled[i].ticket < |q.issued| && q.settled[i].outcome.id == q.issued[q.settled[i].ticket].id)
    && (forall i, j | 0 <= i < j < |q.settled| :: q.settled[i].ticket != q.settled[j].ticket)
    && (forall i, id | 0 <= i < |q.settled| && id in q.entries.entries :: q.entries.entries[id].ticket != q.settled[i].ticket)
    && |q.entries.order| + |q.settled| == |q.issued|
  }

  ghost predicate WithinCap(q: Queue, config: Config) {
    config.maxPending.Some? ==> |q.entries.order| <= config.maxPending.value
  }

  ghost predicate Inv(q: Queue, config: Config) {
    EntriesFit(q) && TimersFit(q) && SettlementsFit(q) && WithinCap(q, config)
  }

  lemma AdmittedKeepsInv(q: Queue, config: Config, payload: string, o: Options, uuid: string, now: int)
    requires Inv(q, config) && Refusal(q, config, o, uuid).None?
    ensures Inv(Admitted(q, config, payload, o, uuid, now), config)
  {
    AdmittedKeepsEntries(q, config, payload, o, uuid, now);
    AdmittedKeepsTimers(q, config, payload, o, uuid, now);
    AdmittedKeepsSettlements(q, config, payload, o, uuid, now);
    hide EntriesFit, TimersFit, SettlementsFit, ValidOptions, IdOf, EffectiveTimeout;
  }

  lemma AdmittedKeepsEntries(q: Queue, config: Config, payload: string, o: Options, uuid: string, now: int)
    requires EntriesFit(q) && Refusal(q, config, o, uuid).None?
    ensures EntriesFit(Admitted(q, config, payload, o, uuid, now))
  {
    var r, id := Admitted(q, config, payload, o, uuid, now), IdOf(o, uuid);
    NewEntryKeepsEntries(q, r, id, r.entries.entries[id]);
    hide EntriesFit, EffectiveTimeout, ValidOptions, IdOf, IsArmed;
  }

  lemma NewEntryKeepsEntries(q: Queue, r: Queue, id: string, e: Entry)
    requires EntriesFit(q) && r.entries.Valid() && r.entries.entries == q.entries.entries[id := e]
    requires e.ticket == |q.issued| && r.issued == q.issued + [e.pending] && !e.settled && e.pending.id == id
    ensures EntriesFit(r)
  {
    forall x | x in r.entries.entries
      ensures var f := r.entries.entries[x];
              !f.settled && f.ticket < |r.issued| && f.pending == r.issued[f.ticket] && f.pending.id == x
    {
      if x != id {
        assert x in q.entries.entries;
      }
    }
  }

  lemma AdmittedKeepsTimers(q: Queue, config: Config, payload: string, o: Options, uuid: string, now: int)
    requires EntriesFit(q) && TimersFit(q) && Refusal(q, config, o, uuid).None?
    ensures TimersFit(Admitted(q, config, payload, o, uuid, now))
  {
    var r, id := Admitted(q, config, payload, o, uuid, now), IdOf(o, uuid);
    assert id !in q.entries.entries;
    NewEntryKeepsTimers(q, r, id, r.entries.entries[id]);
    hide TimersFit, EntriesFit, EffectiveTimeout, ValidOptions, IdOf;
  }

  lemma NewEntryKeepsTimers(q: Queue, r: Queue, id: string, e: Entry)
    requires TimersFit(q) && id !in q.entries.entries && r.entries.entries == q.entries.entries[id := e]
    requires if IsArmed(e.pending.timeoutMs)
      then e.timer == Some(q.nextTimer) && r.timers == q.timers[q.nextTimer := Timer(id, e.ticket)] && r.nextTimer == q.nextTimer + 1
      else e.timer == None && r.timers == q.timers && r.nextTimer == q.nextTimer
    ensures TimersFit(r)
  {
    hide IsArmed;
    forall t | t in r.timers
      ensures t < r.nextTimer && r.timers[t].id in r.entries.entries
      ensures r.entries.entries[r.timers[t].id].timer == Some(t) && r.entries.entries[r.timers[t].id].ticket == r.timers[t].ticket
    {
      if t in q.timers && t < q.nextTimer {
        assert q.timers[t].id != id;
      }
    }
    forall x | x in r.entries.entries && x != id
      ensures var f := r.entries.entries[x];
              && (f.timer.Some? <==> IsArmed(f.pending.timeoutMs))
              && (f.timer.Some? ==> f.timer.value in r.timers && r.timers[f.timer.value].id == x)
    {
      assert x in q.entries.entries;
    }
  }

  lemma AdmittedKeepsSettlements(q: Queue, config: Config, payload: string, o: Options, uuid: string, now: int)
    requires EntriesFit(q) && SettlementsFit(q) && Refusal(q, config, o, uuid).None?
    ensures SettlementsFit(Admitted(q, config, payload, o, uuid, now))
  {
    var r := Admitted(q, config, payload, o, uuid, now);
    hide EntriesFit, EffectiveTimeout, IdOf, IsArmed;
    forall i, id | 0 <= i < |r.settled| && id in r.entries.entries
      ensures r.entries.entries[id].ticket != r.settled[i].ticket
    {
      assert q.settled[i].ticket < |q.issued|;
    }
  }

  lemma SettledKeepsInv(q: Queue, config: Config, id: string, decision: Decision, metadata: Option<string>, now: int)
    requires Inv(q, config)
    ensures Inv(Settled(q, id, decision, metadata, now), config)
  {
    if CanSettle(q, id) {
      SettledKeepsEntries(q, id, decision, metadata, now);
      SettledKeepsTimers(q, id, decision, metadata, now);
      SettledKeepsSettlements(q, id, decision, metadata, now);
      assert id in q.entries.order;
    }
    hide EntriesFit, TimersFit, SettlementsFit;
  }

  lemma SettledKeepsEntries(q: Queue, id: string, decision: Decision, metadata: Option<string>, now: int)
    requires EntriesFit(q) && CanSettle(q, id)
    ensures EntriesFit(Settled(q, id, decision, metadata, now))
  {
  }

  lemma SettledKeepsTimers(q: Queue, id: string, decision: Decision, metadata: Option<string>, now: int)
    requires EntriesFit(q) && TimersFit(q) && CanSettle(q, id)
    ensures TimersFit(Settled(q, id, decision, metadata, now))
  {
    hide EntriesFit, IsArmed;
  }

  lemma SettledKeepsSettlements(q: Queue, id: string, decision: Decision, metadata: Option<string>, now: int)
    requires EntriesFit(q) && SettlementsFit(q) && CanSettle(q, id)
    ensures SettlementsFit(Settled(q, id, decision, metadata, now))
  {
    assert id in q.entries.order;
  }

  /** A spent timer is about to be settled: as long as its entry goes too, nothing dangles. */
  lemma FiredIsSettled(q: Queue, config: Config, timer: nat, now: int)
    requires Inv(q, config) && timer in q.timers
    ensures Fired(q, timer, now) == Settled(q, q.timers[timer].id, Timeout, None, now)
  {
    var id := q.timers[timer].id;
    assert q.timers - {timer} - {timer} == q.timers - {timer};
  }

  lemma SettledFrees(q: Queue, id: string, decision: Decision, metadata: Option<string>, now: int)
    requires EntriesFit(q)
    ensures var r := Settled(q, id, decision, metadata, now);
            r.issued == q.issued && forall x :: x in r.entries.entries <==> x in q.entries.entries && x != id
  {
    assert CanSettle(q, id) <==> id in q.entries.entries;
  }

  lemma {:induction false} SettledAllKeepsInv(q: Queue, config: Config, ids: seq<string>, clock: nat -> int)
    requires Inv(q, config)
    ensures var r := SettledAll(q, ids, clock);
            && Inv(r, config) && r.issued == q.issued
            && forall id :: id in r.entries.entries <==> id in q.entries.entries && id !in ids
    decreases ids
  {
    if ids != [] {
      var init, last := ids[..|ids| - 1], ids[|ids| - 1];
      assert ids == init + [last];
      assert forall id :: id in ids <==> id in init || id == last;
      SettledAllKeepsInv(q, config, init, clock);
      var r := SettledAll(q, init, clock);
      assert SettledAll(q, ids, clock) == Settled(r, last, Timeout, None, clock(|ids| - 1));
      hide *;
      SettledKeepsInv(r, config, last, Timeout, None, clock(|ids| - 1));
      InvMeansFit(r, config);
      SettledFrees(r, last, Timeout, None, clock(|ids| - 1));
    }
  }

  lemma InvMeansFit(q: Queue, config: Config)
    requires Inv(q, config)
    ensures EntriesFit(q)
  {
  }

  lemma NextKeepsInv(q: Queue, config: Config, step: Step)
    requires Inv(q, config)
    ensures Inv(Next(q, config, step), config)
  {
    match step
    case Request(payload, o, uuid, now) =>
      if Refusal(q, config, o, uuid).None? { AdmittedKeepsInv(q, config, payload, o, uuid, now); }
    case Decide(id, decision, metadata, now) =>
      if ParseDecision(decision).Some? { SettledKeepsInv(q, config, id, ParseDecision(decision).value, metadata, now); }
    case Fire(timer, now) =>
      if timer in q.timers {
        FiredIsSettled(q, config, timer, now);
        SettledKeepsInv(q, config, q.timers[timer].id, Timeout, None, now);
      }
    case Clear(clock) => SettledAllKeepsInv(q, config, q.entries.order, clock);
  }

  lemma {:induction false} RunKeepsInv(config: Config, steps: seq<Step>)
    ensures Inv(Run(config, steps), config)
    decreases steps
  {
    if steps != [] {
      RunKeepsInv(config, steps[..|steps| - 1]);
      NextKeepsInv(Run(config, steps[..|steps| - 1]), config, steps[|steps| - 1]);
    } else {
      assert Inv(EMPTY, config);
    }
  }

  // ---------------------------------------------------------------- main results

  /** On every run a request is settled at most once, under its own id, and never while pending. */
  lemma SettledAtMostOnce(config: Config, steps: seq<Step>, i: nat, j: nat)
    requires i < |Run(config, steps).settled| && j < |Run(config, steps).settled|
    ensures var q := Run(config, steps);
            && (q.settled[i].ticket == q.settled[j].ticket ==> i == j)
            && q.settled[i].ticket < |q.issued| && q.settled[i].outcome.id == q.issued[q.settled[i].ticket].id
            && forall id | id in q.entries.entries :: q.entries.entries[id].ticket != q.settled[i].ticket
  {
    RunKeepsInv(config, steps);
  }

  /** Pending is requested minus settled, and never above the cap. */
  lemma PendingIsRequestedMinusSettled(config: Config, steps: seq<Step>)
    ensures var q := Run(config, steps);
            && |q.entries.order| == |q.issued| - |q.settled|
            && (config.maxPending.Some? ==> |q.entries.order| <= config.maxPending.value)
  {
    RunKeepsInv(config, steps);
  }

  /** The armed timers are those of the pending requests with a positive timeout, one each. */
  lemma TimersMatchPending(config: Config, steps: seq<Step>, timer: nat, id: string)
    ensures var q := Run(config, steps);
            && (timer in q.timers ==>
                  && q.timers[timer].id in q.entries.entries
                  && q.entries.entries[q.timers[timer].id].timer == Some(timer))
            && (id in q.entries.entries && IsArmed(q.entries.entries[id].pending.timeoutMs) ==>
                  && q.entries.entries[id].timer.Some? && q.entries.entries[id].timer.value in q.timers
                  && q.timers[q.entries.entries[id].timer.value].id == id)
  {
    RunKeepsInv(config, steps);
  }

  /**
   * On every run an armed timer that fires settles exactly the request it was armed for, even
   * when the request's id has been used before or will be used again.
   */
  lemma TimerSettlesItsOwn(config: Config, steps: seq<Step>, timer: nat, now: int)
    requires timer in Run(config, steps).timers
    ensures var q := Run(config, steps);
            var after := Next(q, config, Fire(timer, now));
            && after.settled == q.settled + [Settlement(q.timers[timer].ticket, Outcome(q.timers[timer].id, Timeout, None, now))]
            && after.entries.entries == q.entries.entries - {q.timers[timer].id}
            && after.timers == q.timers - {timer}
  {
    RunKeepsInv(config, steps);
    FiredIsSettled(Run(config, steps), config, timer, now);
  }

  /** A clear settles whatever is pending and disarms every timer. */
  lemma ClearSettlesAll(config: Config, steps: seq<Step>, clock: nat -> int)
    ensures var q := Run(config, steps + [Clear(clock)]);
            q.entries.order == [] && q.timers == map[] && |q.settled| == |q.issued|
  {
    var before, q := Run(config, steps), Run(config, steps + [Clear(clock)]);
    assert (steps + [Clear(clock)])[..|steps|] == steps;
    RunKeepsInv(config, steps);
    SettledAllKeepsInv(before, config, before.entries.order, clock);
    NoKeysNoOrder(q.entries.order);
  }

  lemma NoKeysNoOrder(order: seq<string>)
    ensures order != [] ==> exists id :: id in order
  {
    if order != [] {
      assert order[0] in order;
    }
  }
}
