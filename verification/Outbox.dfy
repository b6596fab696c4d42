/**
 * The outbox table and its state machine.  Each operation is a function of the
 * table (with a thrown error as a failure) and a method of the repository class
 * that brings its `rows` to exactly that value; the clock is a parameter.
 */
module Outbox {
  import opened Wrappers

  datatype Status = Draft | Scheduled | Publishing | Published | Failed

  datatype Media = Media(url: string, kind: string)

  /** What gets published. */
  datatype Content = Content(platform: string, accountId: Option<string>, body: string, media: seq<Media>)

  datatype Post = Post(
    id: nat, content: Content, status: Status, publishAt: Option<int>, externalId: Option<string>,
    attempts: nat, lastError: Option<string>, publishedAt: Option<int>, createdAt: int, updatedAt: int)

  datatype OutboxError = NotFound(id: nat) | IllegalTransition(from: Status, to: Status)

  /** Fields of an edit; the platform is not among them. */
  datatype Patch = Patch(body: Option<string>, media: Option<seq<Media>>, accountId: Option<string>)

  type Table = map<nat, Post>

  function Transitions(from: Status): set<Status> {
    match from
    case Draft => {Scheduled}
    case Scheduled => {Draft, Publishing}
    case Publishing => {Published, Failed}
    case Published => {}
    case Failed => {Scheduled}
  }

  predicate CanTransition(from: Status, to: Status) { to in Transitions(from) }

  function Or<T>(a: Option<T>, b: Option<T>): Option<T> { if a.Some? then a else b }

  // ---------------------------------------------------------------- operations on tables

  function NewPost(id: nat, content: Content, publishAt: Option<int>, now: int): Post {
    Post(id, content, if publishAt.Some? then Scheduled else Draft, publishAt, None, 0, None, None, now, now)
  }

  function Update(rows: Table, id: nat, patch: Patch, now: int): Result<Table, OutboxError> {
    if id !in rows then Err(NotFound(id))
    else
      var p := rows[id];
      if p.status in {Publishing, Published} then Err(IllegalTransition(p.status, p.status))
      else
        var c := Content(
          p.content.platform,
          Or(patch.accountId, p.content.accountId),
          if patch.body.Some? then patch.body.value else p.content.body,
          if patch.media.Some? then patch.media.value else p.content.media);
        Ok(rows[id := p.(content := c, updatedAt := now)])
  }

  /** `publishAt` is left alone when `None`; `Some(None)` clears it. */
  function Transition(rows: Table, id: nat, to: Status, publishAt: Option<Option<int>>, clearError: bool, now: int)
    : Result<Table, OutboxError>
  {
    if id !in rows then Err(NotFound(id))
    else
      var p := rows[id];
      if !CanTransition(p.status, to) then Err(IllegalTransition(p.status, to))
      else
        Ok(rows[id := p.(status := to,
                         publishAt := if publishAt.Some? then publishAt.value else p.publishAt,
                         lastError := if clearError then None else p.lastError,
                         updatedAt := now)])
  }

  function Schedule(rows: Table, id: nat, publishAt: int, now: int): Result<Table, OutboxError> {
    Transition(rows, id, Scheduled, Some(Some(publishAt)), false, now)
  }

  function Unschedule(rows: Table, id: nat, now: int): Result<Table, OutboxError> {
    Transition(rows, id, Draft, Some(None), false, now)
  }

  function Requeue(rows: Table, id: nat, publishAt: int, now: int): Result<Table, OutboxError> {
    Transition(rows, id, Scheduled, Some(Some(publishAt)), true, now)
  }

  function Reschedule(rows: Table, id: nat, publishAt: int, now: int): Result<Table, OutboxError> {
    if id !in rows then Err(NotFound(id))
    else
      var p := rows[id];
      if p.status !in {Scheduled, Failed} then Err(IllegalTransition(p.status, p.status))
      else Ok(rows[id := p.(publishAt := Some(publishAt), status := Scheduled, lastError := None, updatedAt := now)])
  }

  function MarkPublished(rows: Table, id: nat, externalId: Option<string>, now: int): Result<Table, OutboxError> {
    if id !in rows then Err(NotFound(id))
    else
      var p := rows[id];
      if !CanTransition(p.status, Published) then Err(IllegalTransition(p.status, Published))
      else Ok(rows[id := p.(status := Published, externalId := externalId, publishedAt := Some(now),
                            lastError := None, updatedAt := now)])
  }

  function MarkFailed(rows: Table, id: nat, error: string, attempts: Option<nat>, now: int): Result<Table, OutboxError> {
    if id !in rows then Err(NotFound(id))
    else
      var p := rows[id];
      if !CanTransition(p.status, Failed) then Err(IllegalTransition(p.status, Failed))
      else Ok(rows[id := p.(status := Failed, lastError := Some(error), updatedAt := now,
                            attempts := if attempts.Some? then attempts.value else p.attempts)])
  }

  // ---------------------------------------------------------------- claiming

  predicate IsDue(p: Post, now: int) {
    p.status == Scheduled && p.publishAt.Some? && p.publishAt.value <= now
  }

  function DueIds(rows: Table, now: int): set<nat> { set id | id in rows && IsDue(rows[id], now) }

  function AsSet(ids: seq<nat>): set<nat> { set id | id in ids }

  /**
   * What `ORDER BY publish_at ASC LIMIT limit` may select: distinct due rows, as many
   * as the limit allows (a negative limit allows all), none of them later than a due
   * row left behind.  Ties may fall either way.
   */
  ghost predicate IsClaim(rows: Table, now: int, limit: int, ids: seq<nat>) {
    var due := DueIds(rows, now);
    && (forall i, j | 0 <= i < j < |ids| :: ids[i] != ids[j])
    && AsSet(ids) <= due
    && |ids| == (if limit < 0 || |due| <= limit then |due| else limit)
    && forall a, b | a in AsSet(ids) && b in due - AsSet(ids) :: rows[a].publishAt.value <= rows[b].publishAt.value
  }

  function ClaimRow(p: Post, now: int): Post {
    p.(status := Publishing, attempts := p.attempts + 1, updatedAt := now)
  }

  function Claimed(rows: Table, ids: seq<nat>, now: int): Table {
    map id | id in rows :: if id in ids then ClaimRow(rows[id], now) else rows[id]
  }

  // ---------------------------------------------------------------- the repository

  /** A call either fails and leaves the table alone, or brings it to the new value and returns the row. */
  ghost predicate Took(outcome: Result<Table, OutboxError>, before: Table, after: Table, id: nat, r: Result<Post, OutboxError>) {
    match outcome
    case Err(e) => after == before && r == Err(e)
    case Ok(t) => after == t && id in t && r == Ok(t[id])
  }

  class OutboxRepository {
    var rows: Table
    var nextId: nat

    /** Ids are handed out in rising order and never again. */
    ghost predicate Valid()
      reads this
    {
      forall id | id in rows :: id < nextId && rows[id].id == id
    }

    constructor ()
      ensures Valid() && rows == map[] && nextId == 1
    {
      rows := map[];
      nextId := 1;
    }

    method Create(content: Content, publishAt: Option<int>, now: int) returns (p: Post)
      requires Valid()
      modifies this
      ensures Valid() && p.id !in old(rows) && p.id == old(nextId) && nextId == old(nextId) + 1
      ensures p == NewPost(p.id, content, publishAt, now) && rows == old(rows)[p.id := p]
    {
      p := NewPost(nextId, content, publishAt, now);
      rows := rows[nextId := p];
      nextId := nextId + 1;
    }

    method UpdatePost(id: nat, patch: Patch, now: int) returns (r: Result<Post, OutboxError>)
      requires Valid()
      modifies this
      ensures Valid() && nextId == old(nextId)
      ensures Took(Update(old(rows), id, patch, now), old(rows), rows, id, r)
    {
      if id !in rows {
        return Err(NotFound(id));
      }
      var p := rows[id];
      if p.status == Publishing || p.status == Published {
        return Err(IllegalTransition(p.status, p.status));
      }
      var body := match patch.body case Some(b) => b case None => p.content.body;
      var media := match patch.media case Some(m) => m case None => p.content.media;
      var accountId := Or(patch.accountId, p.content.accountId);
      p := p.(content := Content(p.content.platform, accountId, body, media), updatedAt := now);
      rows := rows[id := p];
      return Ok(p);
    }

    method TransitionPost(id: nat, to: Status, publishAt: Option<Option<int>>, clearError: bool, now: int)
      returns (r: Result<Post, OutboxError>)
      requires Valid()
      modifies this
      ensures Valid() && nextId == old(nextId)
      ensures Took(Transition(old(rows), id, to, publishAt, clearError, now), old(rows), rows, id, r)
    {
      if id !in rows {
        return Err(NotFound(id));
      }
      var p := rows[id];
      if !CanTransition(p.status, to) {
        return Err(IllegalTransition(p.status, to));
      }
      p := p.(status := to, updatedAt := now);
      if publishAt.Some? {
        p := p.(publishAt := publishAt.value);
      }
      if clearError {
        p := p.(lastError := None);
      }
      rows := rows[id := p];
      return Ok(p);
    }

    method ReschedulePost(id: nat, publishAt: int, now: int) returns (r: Result<Post, OutboxError>)
      requires Valid()
      modifies this
      ensures Valid() && nextId == old(nextId)
      ensures Took(Reschedule(old(rows), id, publishAt, now), old(rows), rows, id, r)
    {
      if id !in rows {
        return Err(NotFound(id));
      }
      var p := rows[id];
      if p.status != Scheduled && p.status != Failed {
        return Err(IllegalTransition(p.status, p.status));
      }
      p := p.(publishAt := Some(publishAt), status := Scheduled, lastError := None, updatedAt := now);
      rows := rows[id := p];
      return Ok(p);
    }

    method MarkPostPublished(id: nat, externalId: Option<string>, now: int) returns (r: Result<Post, OutboxError>)
      requires Valid()
      modifies this
      ensures Valid() && nextId == old(nextId)
      ensures Took(MarkPublished(old(rows), id, externalId, now), old(rows), rows, id, r)
    {
      if id !in rows {
        return Err(NotFound(id));
      }
      var p := rows[id];
      if !CanTransition(p.status, Published) {
        return Err(IllegalTransition(p.status, Published));
      }
      p := p.(status := Published, externalId := externalId, publishedAt := Some(now), lastError := None, updatedAt := now);
      rows := rows[id := p];
      return Ok(p);
    }

    method MarkPostFailed(id: nat, error: string, attempts: Option<nat>, now: int) returns (r: Result<Post, OutboxError>)
      requires Valid()
      modifies this
      ensures Valid() && nextId == old(nextId)
      ensures Took(MarkFailed(old(rows), id, error, attempts, now), old(rows), rows, id, r)
    {
      if id !in rows {
        return Err(NotFound(id));
      }
      var p := rows[id];
      if !CanTransition(p.status, Failed) {
        return Err(IllegalTransition(p.status, Failed));
      }
      p := p.(status := Failed, lastError := Some(error), updatedAt := now);
      if attempts.Some? {
        p := p.(attempts := attempts.value);
      }
      rows := rows[id := p];
      return Ok(p);
    }

    method Delete(id: nat) returns (removed: bool)
      requires Valid()
      modifies this
      ensures Valid() && nextId == old(nextId)
      ensures rows == old(rows) - {id} && removed == (id in old(rows))
    {
      removed := id in rows;
      rows := rows - {id};
    }

    /** The single guarded UPDATE with its RETURNING clause. */
    method ClaimDue(now: int, limit: int) returns (posts: seq<Post>)
      requires Valid()
      modifies this
      ensures Valid() && nextId == old(nextId)
      ensures IsClaim(old(rows), now, limit, Ids(posts)) && rows == Claimed(old(rows), Ids(posts), now)
      ensures forall i | 0 <= i < |posts| :: posts[i].id in rows && posts[i] == rows[posts[i].id]
    {
      var ids := SelectDue(rows, now, limit);
      assert forall i | 0 <= i < |ids| :: ids[i] in AsSet(ids);
      var after := Claimed(rows, ids, now);
      posts := seq(|ids|, i requires 0 <= i < |ids| => after[ids[i]]);
      assert Ids(posts) == ids;
      rows := after;
    }
  }

  function Ids(posts: seq<Post>): seq<nat> { seq(|posts|, i requires 0 <= i < |posts| => posts[i].id) }

  ghost predicate IsEarliest(rows: Table, ids: set<nat>, id: nat)
    requires forall b | b in ids :: b in rows && rows[b].publishAt.Some?
  {
    id in ids && forall b | b in ids :: rows[id].publishAt.value <= rows[b].publishAt.value
  }

  lemma {:induction false} EarliestExists(rows: Table, ids: set<nat>)
    requires ids != {} && forall id | id in ids :: id in rows && rows[id].publishAt.Some?
    ensures exists id :: IsEarliest(rows, ids, id)
    decreases ids
  {
    var x :| x in ids;
    var rest := ids - {x};
    if rest == {} {
      assert ids == {x};
      assert IsEarliest(rows, ids, x);
    } else {
      EarliestExists(rows, rest);
      var y :| IsEarliest(rows, rest, y);
      assert ids == rest + {x};
      assert IsEarliest(rows, ids, if rows[x].publishAt.value <= rows[y].publishAt.value then x else y);
    }
  }

  /** `ids` are distinct, `left` is the rest of `due`, and nothing in `left` is earlier than anything in `ids`. */
  ghost predicate Picked(rows: Table, due: set<nat>, ids: seq<nat>, left: set<nat>)
    requires forall b | b in due :: b in rows && rows[b].publishAt.Some?
  {
    && AsSet(ids) <= due && left == due - AsSet(ids)
    && (forall i, j | 0 <= i < j < |ids| :: ids[i] != ids[j])
    && |ids| + |left| == |due|
    && forall a, b | a in AsSet(ids) && b in left :: rows[a].publishAt.value <= rows[b].publishAt.value
  }

  lemma PickOne(rows: Table, due: set<nat>, ids: seq<nat>, left: set<nat>, id: nat)
    requires forall b | b in due :: b in rows && rows[b].publishAt.Some?
    requires Picked(rows, due, ids, left) && IsEarliest(rows, left, id)
    ensures Picked(rows, due, ids + [id], left - {id})
  {
    assert AsSet(ids + [id]) == AsSet(ids) + {id};
    assert forall i | 0 <= i < |ids| :: ids[i] in AsSet(ids);
    assert id !in AsSet(ids);
  }

  /** The inner SELECT: the earliest due rows, one by one, up to the limit. */
  method SelectDue(rows: Table, now: int, limit: int) returns (ids: seq<nat>)
    ensures IsClaim(rows, now, limit, ids)
  {
    ids := [];
    ghost var due := DueIds(rows, now);
    var left := DueIds(rows, now);
    while left != {} && (limit < 0 || |ids| < limit)
      invariant Picked(rows, due, ids, left)
      invariant limit < 0 || |ids| <= limit
      decreases left
    {
      EarliestExists(rows, left);
      var id :| id in left && forall b | b in left :: rows[id].publishAt.value <= rows[b].publishAt.value;
      PickOne(rows, due, ids, left, id);
      ids := ids + [id];
      left := left - {id};
    }
  }

  // ---------------------------------------------------------------- draining

  lemma {:induction false} DistinctSize(ids: seq<nat>)
    requires forall i, j | 0 <= i < j < |ids| :: ids[i] != ids[j]
    ensures |AsSet(ids)| == |ids|
    decreases ids
  {
    if ids != [] {
      var n := |ids| - 1;
      DistinctSize(ids[..n]);
      assert AsSet(ids) == AsSet(ids[..n]) + {ids[n]};
      assert ids[n] !in ids[..n];
    }
  }

  /** Every due row outside `some` is strictly later than every row in it. */
  ghost predicate DueFirst(rows: Table, now: int, some: set<nat>) {
    && some <= DueIds(rows, now)
    && forall a, b | a in some && b in DueIds(rows, now) - some :: rows[a].publishAt.value < rows[b].publishAt.value
  }

  /** A claim never skips strictly earlier due rows for later ones: it takes as many of them as the limit allows. */
  lemma ClaimTakesEarliest(rows: Table, now: int, limit: int, ids: seq<nat>, some: set<nat>)
    requires IsClaim(rows, now, limit, ids) && DueFirst(rows, now, some) && limit >= 0
    ensures |some - AsSet(ids)| == if |some| <= limit then 0 else |some| - limit
  {
    var taken, due := AsSet(ids), DueIds(rows, now);
    DistinctSize(ids);
    if d :| d in some && d !in taken {
      assert taken <= some;
      assert |taken| < |due| by {
        SmallerSet(taken, due, d);
      }
      SizeOfRest(some, taken);
      SmallerSet(taken, some, d);
    } else {
      assert some - taken == {};
      SizeOfRest(taken, some);
    }
  }

  lemma SizeOfRest(a: set<nat>, b: set<nat>)
    requires b <= a
    ensures |a - b| == |a| - |b|
  {
    assert a == (a - b) + b;
  }

  lemma SmallerSet(a: set<nat>, b: set<nat>, x: nat)
    requires a <= b && x in b && x !in a
    ensures |a| < |b|
  {
    SizeOfRest(b, a);
    assert x in b - a;
  }

  /** One claim of a series: the table it met, when it ran, and what it took. */
  datatype ClaimRun = ClaimRun(rows: Table, now: int, ids: seq<nat>)

  function StillDue(some: set<nat>, claims: seq<ClaimRun>): set<nat>
    decreases claims
  {
    if claims == [] then some else StillDue(some - AsSet(claims[0].ids), claims[1..])
  }

  /**
   * A series of claims that leaves `some` alone in between: each claim meets what is
   * left of it, due and ahead of every other due row.  Anything else may change.
   */
  ghost predicate Undisturbed(some: set<nat>, limit: nat, claims: seq<ClaimRun>)
    decreases claims
  {
    claims == [] ||
    (&& DueFirst(claims[0].rows, claims[0].now, some)
     && IsClaim(claims[0].rows, claims[0].now, limit, claims[0].ids)
     && Undisturbed(some - AsSet(claims[0].ids), limit, claims[1..]))
  }

  /**
   * n due rows left untouched are worked off at exactly `limit` a claim: they are gone
   * after k claims if and only if k * limit >= n, so after ceil(n / limit) and no sooner.
   */
  lemma {:induction false} ClaimsDrain(some: set<nat>, limit: nat, claims: seq<ClaimRun>)
    requires Undisturbed(some, limit, claims)
    ensures |StillDue(some, claims)| == if |some| <= |claims| * limit then 0 else |some| - |claims| * limit
    ensures StillDue(some, claims) == {} <==> |claims| * limit >= |some|
    decreases claims
  {
    if claims != [] {
      var rest := some - AsSet(claims[0].ids);
      ClaimTakesEarliest(claims[0].rows, claims[0].now, limit, claims[0].ids, some);
      ClaimsDrain(rest, limit, claims[1..]);
      OneMore(|claims|, limit);
    }
  }

  lemma OneMore(k: nat, limit: nat)
    requires k > 0
    ensures k * limit == (k - 1) * limit + limit && (k - 1) * limit >= 0
  {
  }
}
