/** What the CRM's statements store, and how the reads for scoring follow from an identity's timeline. */
module CrmRows {
  import opened Wrappers
  import opened Sorting
  import opened CrmStore
  import opened CrmListing
  import CrmRuns

  // ---------------------------------------------------------------- upserts

  /** The new value if there is one, or else the old. */
  ghost predicate Refreshed<T>(old_: Option<T>, given: Option<T>, after: Option<T>) {
    (given.Some? ==> after == given) && (given.None? ==> after == old_)
  }

  ghost predicate AccountRefreshed(s: Social, input: Social, after: Social) {
    && after.id == s.id && SameKeys(s.platform, s.platformContactId, after.platform, after.platformContactId)
    && Refreshed(s.handle, input.handle, after.handle) && Refreshed(s.displayName, input.displayName, after.displayName)
    && Refreshed(s.avatarUrl, input.avatarUrl, after.avatarUrl) && Refreshed(s.metadata, input.metadata, after.metadata)
  }

  predicate SameKeys(p: string, x: string, q: string, y: string) { p == q && x == y }

  predicate SameSocialKey(a: Social, b: Social) { SameKeys(a.platform, a.platformContactId, b.platform, b.platformContactId) }

  predicate SameMessageKey(a: Message, b: Message) { SameKeys(a.platform, a.platformMessageId, b.platform, b.platformMessageId) }

  /** An account of that platform id is refreshed where the input has a value; without one a new row is added. */
  lemma UpsertSocialStores(db: Database, input: Social)
    ensures var after := UpsertSocial(db, input);
            && (forall i | 0 <= i < |db.socials| ::
                  i < |after.socials| && (if SameSocialKey(db.socials[i], input) then AccountRefreshed(db.socials[i], input, after.socials[i])
                                          else after.socials[i] == db.socials[i]))
            && (if exists i :: 0 <= i < |db.socials| && SameSocialKey(db.socials[i], input)
                then |after.socials| == |db.socials| && after.nextSocial == db.nextSocial
                else after.socials == db.socials + [input.(id := db.nextSocial)] && after.nextSocial == db.nextSocial + 1)
            && after == db.(socials := after.socials, nextSocial := after.nextSocial)
  {
    assert forall i | 0 <= i < |db.socials| :: SameSocialKey(db.socials[i], input) <==> SameAccount(db.socials[i], input);
  }

  ghost predicate MessageRefreshed(m: Message, input: Message, after: Message) {
    && after.id == m.id && SameMessageKey(m, after) && after.outbound == m.outbound && after.createdAt == m.createdAt
    && after.body == input.body && Refreshed(m.contactId, input.contactId, after.contactId) && Refreshed(m.sentAt, input.sentAt, after.sentAt)
  }

  /** A message delivered again takes the new body and what else it brings; a new one is added. */
  lemma UpsertMessageStores(db: Database, input: Message)
    ensures var after := UpsertMessage(db, input);
            && (forall i | 0 <= i < |db.messages| ::
                  i < |after.messages| && (if SameMessageKey(db.messages[i], input) then MessageRefreshed(db.messages[i], input, after.messages[i])
                                           else after.messages[i] == db.messages[i]))
            && (if exists i :: 0 <= i < |db.messages| && SameMessageKey(db.messages[i], input)
                then |after.messages| == |db.messages| && after.nextMessage == db.nextMessage
                else after.messages == db.messages + [input.(id := db.nextMessage)] && after.nextMessage == db.nextMessage + 1)
            && after == db.(messages := after.messages, nextMessage := after.nextMessage)
  {
    assert forall i | 0 <= i < |db.messages| :: SameMessageKey(db.messages[i], input) <==> SameDelivery(db.messages[i], input);
  }

  /** Ingesting the same account twice is ingesting it once. */
  lemma UpsertSocialTwice(db: Database, input: Social)
    ensures UpsertSocial(UpsertSocial(db, input), input) == UpsertSocial(db, input)
  {
    var once := UpsertSocial(db, input);
    var twice := UpsertSocial(once, input);
    UpsertSocialStores(db, input);
    UpsertSocialStores(once, input);
    hide UpsertSocial;
    var n := |db.socials|;
    if i :| 0 <= i < n && SameSocialKey(db.socials[i], input) {
      assert SameSocialKey(once.socials[i], input);
    } else {
      assert SameSocialKey(once.socials[n], input);
    }
    forall i | 0 <= i < |once.socials|
      ensures twice.socials[i] == once.socials[i]
    {
      if SameSocialKey(once.socials[i], input) {
        RefreshedAgain(once.socials[i], input, twice.socials[i]);
      }
    }
    assert twice.socials == once.socials;
  }

  /** An account that already shows the input is not changed by it. */
  lemma RefreshedAgain(s: Social, input: Social, after: Social)
    requires AccountRefreshed(s, input, after)
    requires Refreshed(s.handle, input.handle, s.handle) && Refreshed(s.displayName, input.displayName, s.displayName)
    requires Refreshed(s.avatarUrl, input.avatarUrl, s.avatarUrl) && Refreshed(s.metadata, input.metadata, s.metadata)
    ensures after == s
  {
  }

  // ---------------------------------------------------------------- one row per platform id

  ghost predicate KeysOnce(db: Database) {
    && (forall i, j | 0 <= i < j < |db.socials| :: !SameSocialKey(db.socials[i], db.socials[j]))
    && DeliveriesOnce(db.messages)
  }

  ghost predicate DeliveriesOnce(s: seq<Message>) { forall i, j | 0 <= i < j < |s| :: !SameMessageKey(s[i], s[j]) }

  lemma UpsertSocialKeepsKeys(db: Database, input: Social)
    requires KeysOnce(db)
    ensures KeysOnce(UpsertSocial(db, input))
  {
    UpsertSocialStores(db, input);
    hide UpsertSocial;
  }

  lemma UpsertMessageKeepsKeys(db: Database, input: Message)
    requires KeysOnce(db)
    ensures KeysOnce(UpsertMessage(db, input))
  {
    UpsertMessageStores(db, input);
    hide UpsertMessage;
  }

  lemma OneMoreDelivery(s: seq<Message>, m: Message)
    requires DeliveriesOnce(s) && forall x | x in s :: !SameMessageKey(x, m)
    ensures DeliveriesOnce(s + [m])
  {
    assert forall i | 0 <= i < |s| :: s[i] in s;
  }

  lemma {:induction false} FilterKeepsKeys(s: seq<Message>, keep: Message -> bool)
    requires DeliveriesOnce(s)
    ensures DeliveriesOnce(Filter(s, keep))
    decreases s
  {
    if s != [] {
      var init, last := s[..|s| - 1], s[|s| - 1];
      assert s == init + [last];
      FilterKeepsKeys(init, keep);
      FilterSnoc(init, last, keep);
      FilterMembers(init, keep);
      forall x | x in init
        ensures !SameMessageKey(x, last)
      {
        var k :| 0 <= k < |init| && init[k] == x;
        assert !SameMessageKey(s[k], s[|s| - 1]);
      }
      OneMoreDelivery(Filter(init, keep), last);
    }
    hide Filter, SameMessageKey;
  }

  lemma {:induction false} CreateAllKeepsTables(w: CrmRuns.World, socials: seq<Social>, now: int, rules: Rules)
    ensures var db := CrmRuns.CreateAllW(w, socials, now, rules).db; db.socials == w.db.socials && db.messages == w.db.messages
    decreases socials
  {
    if socials != [] {
      CreateAllKeepsTables(w, socials[..|socials| - 1], now, rules);
    }
  }

  /** On every run no platform id has two accounts and none two messages. */
  lemma {:induction false} KeysStayOnce(ops: seq<CrmRuns.Op>, rules: Rules)
    ensures KeysOnce(CrmRuns.Run(ops, rules).db)
    decreases ops
  {
    if ops != [] {
      var w := CrmRuns.Run(ops[..|ops| - 1], rules);
      KeysStayOnce(ops[..|ops| - 1], rules);
      NextKeepsKeys(w, ops[|ops| - 1], rules);
      hide KeysOnce, CrmRuns.Next;
    }
  }

  lemma NextKeepsKeys(w: CrmRuns.World, op: CrmRuns.Op, rules: Rules)
    requires KeysOnce(w.db)
    ensures KeysOnce(CrmRuns.Next(w, op, rules).db)
  {
    match op
    case IngestSocial(s) => UpsertSocialKeepsKeys(w.db, s);
    case IngestMessage(m) => UpsertMessageKeepsKeys(w.db, m);
    case Sync(now) => CreateAllKeepsTables(w, UnlinkedSocials(w.db), now, rules);
    case Merge(survivor, source, mode, now) =>
    case Delete(id, cascade) => DeleteKeepsKeys(w.db, id, cascade);
  }

  lemma DeleteKeepsKeys(db: Database, id: nat, cascade: bool)
    requires KeysOnce(db)
    ensures KeysOnce(Deleted(db, id, cascade))
  {
    FilterKeepsKeys(db.messages, IsKept(db, id));
    hide Filter, DeliveriesOnce;
  }

  // ---------------------------------------------------------------- new identities and merges

  /** A new identity takes the next id, the account's display name or else its handle, and what the rules read off it, and is linked to it. */
  lemma CreateStores(db: Database, s: Social, now: int, rules: Rules)
    ensures var after, id := CreateIdentity(db, s, now, rules), db.nextContact;
            && id in after.contacts && after.nextContact == id + 1
            && after.contacts.Keys == db.contacts.Keys + {id}
            && (forall other | other in db.contacts && other != id :: after.contacts[other] == db.contacts[other])
            && s.id in after.links && after.links[s.id] == id && after.links == db.links[s.id := id]
            && after.socials == db.socials && after.messages == db.messages && after.merges == db.merges
            && var c := after.contacts[id];
            && (s.displayName.Some? ==> c.displayName == s.displayName) && (s.displayName.None? ==> c.displayName == s.handle)
            && c.email == rules.discoverEmail(s.metadata, BodiesForSocial(db, s.id)) && c.followers == rules.discoverFollowers(s.metadata)
            && c.updatedAt == now
  {
  }

  /** A merge is logged once, stamps the survivor, and touches neither accounts nor messages. */
  lemma MergeIsLogged(db: Database, survivor: nat, source: nat, mode: MergeMode, now: int, rules: Rules)
    requires MergeOutcome(db, survivor, source).Ok?
    ensures var after := Merged(db, survivor, source, mode, now, rules);
            && |after.merges| == |db.merges| + 1 && after.merges[..|db.merges|] == db.merges
            && after.merges[|db.merges|].survivor == survivor && after.merges[|db.merges|].source == source
            && after.merges[|db.merges|].mode == mode
            && survivor in after.contacts && after.contacts[survivor].updatedAt == now
            && after.socials == db.socials && after.messages == db.messages && after.nextContact == db.nextContact
  {
  }

  /** Which merge is refused for which reason. */
  lemma MergeRefusals(db: Database, survivor: nat, source: nat)
    ensures var outcome := MergeOutcome(db, survivor, source);
            && (outcome == Err(SelfMerge) <==> survivor == source)
            && (outcome == Err(SurvivorMissing) <==> survivor != source && survivor !in db.contacts)
            && (outcome == Err(SourceMissing) <==> survivor != source && survivor in db.contacts && source !in db.contacts)
            && (outcome.Ok? <==> survivor != source && survivor in db.contacts && source in db.contacts)
  {
  }

  /** A delete is refused for an identity that is not there, and without cascade for one that others were merged into. */
  lemma DeleteRefusals(db: Database, id: nat, cascade: bool)
    ensures var outcome := DeleteOutcome(db, id, cascade);
            && (outcome == Err(NotFound) <==> id !in db.contacts)
            && (outcome == Err(HasMergeHistory) <==> id in db.contacts && !cascade && exists i :: 0 <= i < |db.merges| && db.merges[i].survivor == id)
            && (outcome.Ok? <==> id in db.contacts && (cascade || forall i | 0 <= i < |db.merges| :: db.merges[i].survivor != id))
  {
    assert forall i | 0 <= i < |db.merges| :: db.merges[i] in db.merges;
  }

  // ---------------------------------------------------------------- reads for scoring

  function IsRecent(recent: string -> bool): Message -> bool { (m: Message) => recent(At(m)) }

  function OwnRecent(db: Database, id: nat, recent: string -> bool): Message -> bool {
    (m: Message) => IsOf(db, id)(m) && recent(At(m))
  }

  /** The recent part of an identity's timeline. */
  function RecentTimeline(db: Database, id: nat, recent: string -> bool): seq<Message> { Filter(Timeline(db, id), IsRecent(recent)) }

  function MessagesOf(rows: seq<MessageRow>): seq<Message> { seq(|rows|, i requires 0 <= i < |rows| => rows[i].message) }

  lemma MessagesSnoc(rows: seq<MessageRow>, r: MessageRow)
    ensures MessagesOf(rows + [r]) == MessagesOf(rows) + [r.message]
  {
  }

  lemma {:induction false} JoinedRecent(db: Database, messages: seq<Message>, id: nat, recent: string -> bool)
    ensures MessagesOf(Filter(JoinMessages(messages, db.links), RecentIs(id, recent))) == Filter(messages, OwnRecent(db, id, recent))
    decreases messages
  {
    hide Filter, MessagesOf;
    if messages == [] {
      NothingJoined(db, id, recent);
    } else {
      var init, last := messages[..|messages| - 1], messages[|messages| - 1];
      var joined := JoinMessages(init, db.links);
      JoinedRecent(db, init, id, recent);
      assert messages == init + [last];
      FilterSnoc(init, last, OwnRecent(db, id, recent));
      if last.contactId.Some? && last.contactId.value in db.links {
        var r := MessageRow(db.links[last.contactId.value], last);
        assert JoinMessages(messages, db.links) == joined + [r];
        FilterSnoc(joined, r, RecentIs(id, recent));
        MessagesSnoc(Filter(joined, RecentIs(id, recent)), r);
        assert IsOf(db, id)(last) <==> r.crmId == id;
        assert RecentIs(id, recent)(r) <==> OwnRecent(db, id, recent)(last);
      } else {
        assert JoinMessages(messages, db.links) == joined;
        assert !IsOf(db, id)(last);
        assert !OwnRecent(db, id, recent)(last);
      }
    }
  }

  lemma NothingJoined(db: Database, id: nat, recent: string -> bool)
    ensures MessagesOf(Filter(JoinMessages([], db.links), RecentIs(id, recent))) == Filter([], OwnRecent(db, id, recent))
  {
  }

  lemma {:induction false} InsertMessages(r: MessageRow, rows: seq<MessageRow>)
    ensures MessagesOf(Insert(r, rows, NewerRow)) == Insert(r.message, MessagesOf(rows), Newer)
    decreases rows
  {
    if rows != [] {
      var n := |rows| - 1;
      InsertMessages(r, rows[..n]);
      assert MessagesOf(rows)[..n] == MessagesOf(rows[..n]);
      assert MessagesOf(rows)[n] == rows[n].message;
      hide Newer;
      MessagesSnoc(Insert(r, rows[..n], NewerRow), rows[n]);
      MessagesSnoc(rows, r);
    }
  }

  lemma MessagesInit(rows: seq<MessageRow>)
    requires rows != []
    ensures MessagesOf(rows) == MessagesOf(rows[..|rows| - 1]) + [rows[|rows| - 1].message]
  {
  }

  lemma {:induction false} SortMessages(rows: seq<MessageRow>)
    ensures MessagesOf(Sort(rows, NewerRow)) == Sort(MessagesOf(rows), Newer)
    decreases rows
  {
    hide *;
    if rows == [] {
      NothingSorted();
    } else {
      var init, last := rows[..|rows| - 1], rows[|rows| - 1];
      SortMessages(init);
      MessagesInit(rows);
      InsertMessages(last, Sort(init, NewerRow));
      assert rows == init + [last];
      SortSnoc(init, last, NewerRow);
      SortSnoc(MessagesOf(init), last.message, Newer);
    }
  }

  lemma NothingSorted()
    ensures MessagesOf(Sort([], NewerRow)) == Sort(MessagesOf([]), Newer)
  {
  }

  /** The count that is scored is the length of the recent timeline. */
  lemma EngagementIsRecentTimeline(db: Database, id: nat, recent: string -> bool)
    ensures EngagementCount(db, id, recent) == |RecentTimeline(db, id, recent)|
  {
    JoinedRecent(db, db.messages, id, recent);
    RecentIsSorted(db, id, recent);
    SortPermutes(Filter(db.messages, OwnRecent(db, id, recent)), Older);
    hide Filter, Sort, JoinMessages, RecentTimeline, Older;
  }

  lemma RecentIsSorted(db: Database, id: nat, recent: string -> bool)
    ensures RecentTimeline(db, id, recent) == Sort(Filter(db.messages, OwnRecent(db, id, recent)), Older)
  {
    OlderIsOrder();
    SortFilter(Filter(db.messages, IsOf(db, id)), Older, IsRecent(recent));
    FilterFilter(db.messages, IsOf(db, id), IsRecent(recent), OwnRecent(db, id, recent));
    hide Filter, Sort, Older;
  }

  function Reversed<T>(s: seq<T>): seq<T> { seq(|s|, i requires 0 <= i < |s| => s[|s| - 1 - i]) }

  lemma {:induction false} ReversedPermutes<T>(s: seq<T>)
    ensures multiset(Reversed(s)) == multiset(s)
    decreases s
  {
    if s != [] {
      var n := |s| - 1;
      ReversedPermutes(s[..n]);
      assert Reversed(s) == [s[n]] + Reversed(s[..n]);
      assert s == s[..n] + [s[n]];
    }
  }

  /** Messages with distinct ids have one order only. */
  lemma {:induction false} OrderIsUnique(a: seq<Message>, b: seq<Message>)
    requires multiset(a) == multiset(b) && InOrder(a, Newer) && InOrder(b, Newer)
    requires forall x, y | x in a && y in a && x != y :: x.id != y.id
    ensures a == b
    decreases a
  {
    assert |multiset(a)| == |a| && |multiset(b)| == |b|;
    if a != [] {
      var x, y := a[0], b[0];
      SameMembers(a, b);
      FirstIsNewest(a, b);
      assert multiset(a[1..]) == multiset(a) - multiset{x} by { assert a == [x] + a[1..]; }
      assert multiset(b[1..]) == multiset(b) - multiset{y} by { assert b == [y] + b[1..]; }
      TailInOrder(a);
      TailInOrder(b);
      hide InOrder;
      OrderIsUnique(a[1..], b[1..]);
      assert a == [x] + a[1..] && b == [y] + b[1..];
    }
  }

  lemma TailInOrder(s: seq<Message>)
    requires s != [] && InOrder(s, Newer)
    ensures InOrder(s[1..], Newer)
  {
    var t := s[1..];
    forall i, j | 0 <= i < j < |t|
      ensures !Newer(t[j], t[i])
    {
      assert !Newer(s[j + 1], s[i + 1]);
    }
  }

  lemma SameMembers(a: seq<Message>, b: seq<Message>)
    requires multiset(a) == multiset(b)
    ensures forall m :: m in a <==> m in b
  {
    forall m: Message
      ensures m in a <==> m in b
    {
      assert m in a <==> m in multiset(a);
      assert m in b <==> m in multiset(b);
    }
  }

  lemma FirstIsNewest(a: seq<Message>, b: seq<Message>)
    requires a != [] && b != [] && InOrder(a, Newer) && InOrder(b, Newer) && forall m :: m in a <==> m in b
    requires forall x, y | x in a && y in a && x != y :: x.id != y.id
    ensures a[0] == b[0]
  {
    OlderIsOrder();
    var x, y := a[0], b[0];
    assert x in a && y in b;
    var i :| 0 <= i < |a| && a[i] == y;
    var j :| 0 <= j < |b| && b[j] == x;
    hide Older;
    assert x.id != y.id ==> Older(x, y) || Older(y, x);
    assert i > 0 ==> !Newer(a[i], a[0]);
    assert j > 0 ==> !Newer(b[j], b[0]);
  }

  lemma ReversedInOrder(s: seq<Message>)
    requires InOrder(s, Older)
    ensures InOrder(Reversed(s), Newer)
  {
    var r := Reversed(s);
    forall i, j | 0 <= i < j < |r|
      ensures !Newer(r[j], r[i])
    {
      assert !Older(s[|s| - 1 - i], s[|s| - 1 - j]);
    }
  }

  lemma IdsDiffer(part: seq<Message>)
    requires MessagesAscend(part)
    ensures forall x, y | x in part && y in part && x != y :: x.id != y.id
  {
    forall x, y | x in part && y in part && x != y
      ensures x.id != y.id
    {
      var i :| 0 <= i < |part| && part[i] == x;
      var j :| 0 <= j < |part| && part[j] == y;
      assert i < j || j < i;
    }
  }

  lemma NewestIsReversed(part: seq<Message>)
    requires MessagesAscend(part)
    ensures Sort(part, Newer) == Reversed(Sort(part, Older))
  {
    OlderIsOrder();
    SortInOrder(part, Older);
    SortInOrder(part, Newer);
    SortPermutes(part, Older);
    SortPermutes(part, Newer);
    ReversedPermutes(Sort(part, Older));
    ReversedInOrder(Sort(part, Older));
    SortMembers(part, Newer);
    IdsDiffer(part);
    OrderIsUnique(Sort(part, Newer), Reversed(Sort(part, Older)));
    hide Sort, Older, InOrder, IsOrder, Reversed, MessagesAscend;
  }

  /** The bodies that are scored are those of the last 50 messages of the recent timeline, the last one first. */
  lemma RecentBodiesEndTimeline(db: Database, id: nat, recent: string -> bool, i: nat)
    requires db.Valid()
    ensures var bodies, timeline := RecentBodies(db, id, recent), RecentTimeline(db, id, recent);
            && |bodies| == (if |timeline| <= 50 then |timeline| else 50)
            && (i < |bodies| ==> bodies[i] == timeline[|timeline| - 1 - i].body)
  {
    hide *;
    var rows := Filter(JoinMessages(db.messages, db.links), RecentIs(id, recent));
    RecentRowsAreTimeline(db, id, recent, rows);
    TakenBodies(Sort(rows, NewerRow), RecentTimeline(db, id, recent), i);
    RecentBodiesAre(db, id, recent, rows);
  }

  lemma RecentBodiesAre(db: Database, id: nat, recent: string -> bool, rows: seq<MessageRow>)
    requires rows == Filter(JoinMessages(db.messages, db.links), RecentIs(id, recent))
    ensures RecentBodies(db, id, recent) == RowBodies(Take(Sort(rows, NewerRow), RECENT_LIMIT))
  {
  }

  lemma RecentRowsAreTimeline(db: Database, id: nat, recent: string -> bool, rows: seq<MessageRow>)
    requires db.Valid() && rows == Filter(JoinMessages(db.messages, db.links), RecentIs(id, recent))
    ensures MessagesOf(Sort(rows, NewerRow)) == Reversed(RecentTimeline(db, id, recent))
  {
    assert MessagesAscend(db.messages);
    hide *;
    JoinedRecent(db, db.messages, id, recent);
    SortMessages(rows);
    RecentIsSorted(db, id, recent);
    CrmRuns.MessagesKeepIds(db.messages, OwnRecent(db, id, recent));
    NewestIsReversed(Filter(db.messages, OwnRecent(db, id, recent)));
  }

  lemma TakenBodies(sorted: seq<MessageRow>, timeline: seq<Message>, i: nat)
    requires MessagesOf(sorted) == Reversed(timeline)
    ensures var bodies := RowBodies(Take(sorted, RECENT_LIMIT));
            && |bodies| == (if |timeline| <= 50 then |timeline| else 50)
            && (i < |bodies| ==> bodies[i] == timeline[|timeline| - 1 - i].body)
  {
    if i < |sorted| {
      assert MessagesOf(sorted)[i] == sorted[i].message;
      assert Reversed(timeline)[i] == timeline[|timeline| - 1 - i];
    }
  }

  /** The bodies searched for an email are those of the account's last 50 messages in order of time, the last one first. */
  lemma SocialBodiesEndMessages(db: Database, social: nat, own: Message -> bool, i: nat)
    requires db.Valid() && forall m :: own(m) <==> m.contactId == Some(social)
    ensures var bodies, messages := BodiesForSocial(db, social), Sort(Filter(db.messages, own), Older);
            && |bodies| == (if |messages| <= 50 then |messages| else 50)
            && (i < |bodies| ==> bodies[i] == messages[|messages| - 1 - i].body)
  {
    hide *;
    OwnMessages(db, social, own);
    NewestOfSocial(db, social);
    EndBodies(Sort(Filter(db.messages, own), Older), i);
    SocialBodiesAre(db, social);
  }

  lemma OwnMessages(db: Database, social: nat, own: Message -> bool)
    requires forall m :: own(m) <==> m.contactId == Some(social)
    ensures Filter(db.messages, IsFrom(social)) == Filter(db.messages, own)
  {
    forall m | m in db.messages
      ensures IsFrom(social)(m) == own(m)
    {
    }
    FilterAgrees(db.messages, IsFrom(social), own);
    hide Filter;
  }

  lemma NewestOfSocial(db: Database, social: nat)
    requires db.Valid()
    ensures Sort(Filter(db.messages, IsFrom(social)), Newer) == Reversed(Sort(Filter(db.messages, IsFrom(social)), Older))
  {
    CrmRuns.MessagesKeepIds(db.messages, IsFrom(social));
    NewestIsReversed(Filter(db.messages, IsFrom(social)));
    hide Filter, Sort, Newer, Older, MessagesAscend;
  }

  lemma SocialBodiesAre(db: Database, social: nat)
    ensures BodiesForSocial(db, social) == Bodies(Take(Sort(Filter(db.messages, IsFrom(social)), Newer), 50))
  {
  }

  lemma EndBodies(messages: seq<Message>, i: nat)
    ensures var bodies := Bodies(Take(Reversed(messages), 50));
            && |bodies| == (if |messages| <= 50 then |messages| else 50)
            && (i < |bodies| ==> bodies[i] == messages[|messages| - 1 - i].body)
  {
  }

  // ---------------------------------------------------------------- linked accounts

  ghost predicate ShowsAccount(a: LinkedAccount, s: Social) {
    && a.socialContactId == s.id && a.platform == s.platform && a.platformContactId == s.platformContactId
    && a.handle == s.handle && a.displayName == s.displayName && a.avatarUrl == s.avatarUrl
  }

  lemma {:induction false} JoinedLinks(socials: seq<Social>, links: map<nat, nat>, r: LinkRow)
    ensures r in JoinLinks(socials, links) <==> r.social in socials && r.social.id in links && links[r.social.id] == r.crmId
    decreases socials
  {
    if socials != [] {
      JoinedLinks(socials[..|socials| - 1], links, r);
      assert socials == socials[..|socials| - 1] + [socials[|socials| - 1]];
    }
  }

  /** The accounts listed for an identity are exactly those linked to it, each as stored, by rising id. */
  lemma LinkedAccountsAre(db: Database, id: nat, s: Social)
    ensures (s in db.socials && s.id in db.links && db.links[s.id] == id)
            ==> exists a :: a in LinkedAccounts(db, id) && ShowsAccount(a, s)
    ensures forall a | a in LinkedAccounts(db, id) ::
              exists x :: x in db.socials && ShowsAccount(a, x) && CrmRuns.IsLinked(db, x.id, id)
    ensures var accounts := LinkedAccounts(db, id);
            forall i, j | 0 <= i < j < |accounts| :: accounts[i].socialContactId <= accounts[j].socialContactId
  {
    var rows := Sort(Filter(JoinLinks(db.socials, db.links), LinkIs(id)), BySocial);
    var accounts := LinkedAccounts(db, id);
    LinkRowsAre(db, id);
    hide JoinLinks, Filter, Sort;
    if s in db.socials && s.id in db.links && db.links[s.id] == id {
      var r := LinkRow(id, s);
      assert r in rows;
      var i :| 0 <= i < |rows| && rows[i] == r;
      assert accounts[i] in accounts && ShowsAccount(accounts[i], s);
    }
    forall a | a in accounts
      ensures exists x :: x in db.socials && ShowsAccount(a, x) && CrmRuns.IsLinked(db, x.id, id)
    {
      var i :| 0 <= i < |accounts| && accounts[i] == a;
      assert rows[i] in rows;
      assert ShowsAccount(a, rows[i].social);
    }
    forall i, j | 0 <= i < j < |accounts|
      ensures accounts[i].socialContactId <= accounts[j].socialContactId
    {
      assert !BySocial(rows[j], rows[i]);
    }
  }

  lemma LinkRowsAre(db: Database, id: nat)
    ensures var rows := Sort(Filter(JoinLinks(db.socials, db.links), LinkIs(id)), BySocial);
            && InOrder(rows, BySocial)
            && forall r :: r in rows <==> r.crmId == id && r.social in db.socials && r.social.id in db.links && db.links[r.social.id] == id
  {
    var joined := JoinLinks(db.socials, db.links);
    assert IsOrder(BySocial);
    SortInOrder(Filter(joined, LinkIs(id)), BySocial);
    SortMembers(Filter(joined, LinkIs(id)), BySocial);
    FilterMembers(joined, LinkIs(id));
    hide Filter, Sort;
    forall r: LinkRow
      ensures r in joined <==> r.social in db.socials && r.social.id in db.links && db.links[r.social.id] == r.crmId
    {
      JoinedLinks(db.socials, db.links, r);
    }
  }
}
