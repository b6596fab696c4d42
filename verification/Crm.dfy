/** The CRM repository: statements run against a database, loops over their rows. */
module Crm {
  import opened Wrappers
  import opened Sorting
  import opened CrmStore
  import opened CrmListing

  datatype LeadScore = LeadScore(score: real, bucket: string)

  datatype ScoredContact = ScoredContact(
    id: nat, contact: Contact, linkedAccounts: seq<LinkedAccount>, engagementCount: nat, leadScore: LeadScore)

  datatype ContactDetail = ContactDetail(scored: ScoredContact, timeline: seq<Message>, mergeCount: nat)

  /** The lead score of an engagement count, a follower count and recent bodies. */
  type Scorer = (nat, nat, seq<string>) -> LeadScore

  /** What the single-contact path says of an identity. */
  function Enriched(db: Database, id: nat, contact: Contact, recent: string -> bool, score: Scorer): ScoredContact {
    var count := EngagementCount(db, id, recent);
    ScoredContact(id, contact, LinkedAccounts(db, id), count, score(count, contact.followers, RecentBodies(db, id, recent)))
  }

  // ---------------------------------------------------------------- the page

  /** A missing or non-positive limit means 100; others are floored and capped at 500. */
  function NormalizeLimit(limit: Option<real>): (n: nat)
    ensures limit.None? || limit.value <= 0.0 ==> n == 100
    ensures limit.Some? && 0.0 < limit.value < 500.0 ==> n as real <= limit.value < (n + 1) as real
    ensures limit.Some? && limit.value >= 500.0 ==> n == 500
  {
    if limit.None? || limit.value <= 0.0 then 100 else if limit.value.Floor < 500 then limit.value.Floor else 500
  }

  /** A missing or negative offset means 0; others are floored. */
  function NormalizeOffset(offset: Option<real>): (n: nat)
    ensures offset.None? || offset.value <= 0.0 ==> n == 0
    ensures offset.Some? && offset.value > 0.0 ==> n as real <= offset.value < (n + 1) as real
  {
    if offset.Some? && offset.value > 0.0 then offset.value.Floor else 0
  }

  function IdsBelow(n: nat, contacts: map<nat, Contact>): seq<nat> {
    if n == 0 then [] else IdsBelow(n - 1, contacts) + (if n - 1 in contacts then [n - 1] else [])
  }

  /** Most recently updated first, then the larger id. */
  function Fresher(contacts: map<nat, Contact>): (nat, nat) -> bool {
    (x: nat, y: nat) => x in contacts && y in contacts
                        && (contacts[x].updatedAt > contacts[y].updatedAt || (contacts[x].updatedAt == contacts[y].updatedAt && x > y))
  }

  function Drop<T>(s: seq<T>, n: nat): seq<T> { if n <= |s| then s[n..] else [] }

  /** The ids of a page of identities. */
  function Page(db: Database, limit: nat, offset: nat): seq<nat> {
    Take(Drop(Sort(IdsBelow(db.nextContact, db.contacts), Fresher(db.contacts)), offset), limit)
  }

  lemma {:induction false} IdsBelowAre(n: nat, contacts: map<nat, Contact>)
    ensures forall id :: id in IdsBelow(n, contacts) <==> id in contacts && id < n
    ensures AllDistinct(IdsBelow(n, contacts))
    decreases n
  {
    if n > 0 {
      IdsBelowAre(n - 1, contacts);
    }
  }

  lemma PageIsLive(db: Database, limit: nat, offset: nat)
    ensures forall id | id in Page(db, limit, offset) :: id in db.contacts
  {
    var ids, order := IdsBelow(db.nextContact, db.contacts), Fresher(db.contacts);
    IdsBelowAre(db.nextContact, db.contacts);
    SortMembers(ids, order);
    PartMembers(Sort(ids, order), limit, offset);
    hide Sort, IdsBelow, Fresher, Take, Drop;
  }

  lemma PartMembers(s: seq<nat>, limit: nat, offset: nat)
    ensures forall x | x in Take(Drop(s, offset), limit) :: x in s
  {
  }

  // ---------------------------------------------------------------- grouping rows in memory

  ghost predicate HoldsLinks(groups: map<nat, seq<LinkedAccount>>, rows: seq<LinkRow>) {
    forall id :: Accounts(Filter(rows, LinkIs(id))) == Get(groups, id, [])
  }

  ghost predicate HoldsBodies(groups: map<nat, seq<string>>, rows: seq<MessageRow>) {
    forall id :: RowBodies(Filter(rows, RowIs(id))) == Get(groups, id, [])
  }

  method GroupLinks(rows: seq<LinkRow>) returns (groups: map<nat, seq<LinkedAccount>>)
    ensures HoldsLinks(groups, rows)
  {
    groups := map[];
    for n := 0 to |rows|
      invariant HoldsLinks(groups, rows[..n])
    {
      assert rows[..n + 1] == rows[..n] + [rows[n]];
      AddLink(groups, rows[..n], rows[n]);
      groups := groups[rows[n].crmId := Get(groups, rows[n].crmId, []) + [Account(rows[n].social)]];
      hide HoldsLinks;
    }
    assert rows[..|rows|] == rows;
  }

  lemma AddLink(groups: map<nat, seq<LinkedAccount>>, rows: seq<LinkRow>, r: LinkRow)
    requires HoldsLinks(groups, rows)
    ensures HoldsLinks(groups[r.crmId := Get(groups, r.crmId, []) + [Account(r.social)]], rows + [r])
  {
    hide Filter;
    forall id: nat
      ensures Accounts(Filter(rows + [r], LinkIs(id)))
           == if r.crmId == id then Accounts(Filter(rows, LinkIs(id))) + [Account(r.social)] else Accounts(Filter(rows, LinkIs(id)))
    {
      FilterSnoc(rows, r, LinkIs(id));
    }
    hide Accounts, LinkIs, Account;
  }

  method GroupBodies(rows: seq<MessageRow>) returns (groups: map<nat, seq<string>>)
    ensures HoldsBodies(groups, rows)
  {
    groups := map[];
    for n := 0 to |rows|
      invariant HoldsBodies(groups, rows[..n])
    {
      assert rows[..n + 1] == rows[..n] + [rows[n]];
      AddBody(groups, rows[..n], rows[n]);
      groups := groups[rows[n].crmId := Get(groups, rows[n].crmId, []) + [rows[n].message.body]];
      hide HoldsBodies;
    }
    assert rows[..|rows|] == rows;
  }

  lemma AddBody(groups: map<nat, seq<string>>, rows: seq<MessageRow>, r: MessageRow)
    requires HoldsBodies(groups, rows)
    ensures HoldsBodies(groups[r.crmId := Get(groups, r.crmId, []) + [r.message.body]], rows + [r])
  {
    hide Filter;
    forall id: nat
      ensures RowBodies(Filter(rows + [r], RowIs(id)))
           == if r.crmId == id then RowBodies(Filter(rows, RowIs(id))) + [r.message.body] else RowBodies(Filter(rows, RowIs(id)))
    {
      FilterSnoc(rows, r, RowIs(id));
    }
    hide RowBodies, RowIs;
  }

  method GroupCounts(rows: seq<(nat, nat)>) returns (counts: map<nat, nat>)
    requires forall i, j | 0 <= i < j < |rows| :: rows[i].0 != rows[j].0
    ensures HoldsCounts(counts, rows)
  {
    counts := map[];
    for n := 0 to |rows|
      invariant HoldsCounts(counts, rows[..n])
    {
      assert rows[..n + 1] == rows[..n] + [rows[n]];
      ghost var before := counts;
      counts := counts[rows[n].0 := rows[n].1];
      forall c | c in counts
        ensures HasGroup(rows[..n + 1], c)
      {
        if c in before {
          assert HasGroup(rows[..n], c);
          var i :| 0 <= i < n && rows[..n][i].0 == c;
          assert rows[..n + 1][i].0 == c;
        } else {
          assert rows[..n + 1][n].0 == c;
        }
      }
    }
    assert rows[..|rows|] == rows;
  }

  // ---------------------------------------------------------------- the repository

  class CrmRepository {
    var db: Database
    const rules: Rules
    const score: Scorer

    constructor (db: Database, rules: Rules, score: Scorer)
      ensures this.db == db && this.rules == rules && this.score == score
    {
      this.db := db;
      this.rules := rules;
      this.score := score;
    }

    method Sync(now: int)
      modifies this`db
      ensures db == Synced(old(db), now, rules)
    {
      var unlinked := UnlinkedSocials(db);
      hide UnlinkedSocials, CreateIdentity;
      if |unlinked| == 0 {
        return;
      }
      for n := 0 to |unlinked|
        invariant db == CreateAll(old(db), unlinked[..n], now, rules)
      {
        assert unlinked[..n + 1][..n] == unlinked[..n];
        db := CreateIdentity(db, unlinked[n], now, rules);
      }
      assert unlinked[..|unlinked|] == unlinked;
    }

    method Timeline(id: nat) returns (messages: seq<Message>)
      ensures messages == CrmStore.Timeline(db, id)
    {
      messages := Sort(Filter(db.messages, IsOf(db, id)), Older);
    }

    method GetContactDetail(id: nat, recent: string -> bool) returns (detail: Option<ContactDetail>)
      ensures detail == if id in db.contacts then Some(DetailOf(db, id, recent, score)) else None
    {
      if id !in db.contacts {
        return None;
      }
      var merges := MergeCount(db.merges, id);
      var messages := Timeline(id);
      detail := Some(ContactDetail(Enriched(db, id, db.contacts[id], recent, score), messages, merges));
    }

    /** Fold one identity into another, all or nothing. */
    method Merge(survivor: nat, source: nat, mode: MergeMode, now: int, recent: string -> bool)
      returns (result: Result<ContactDetail, MergeError>)
      modifies this`db
      ensures var outcome := MergeOutcome(old(db), survivor, source);
              if outcome.Ok? then
                && db == Merged(old(db), survivor, source, mode, now, rules)
                && survivor in db.contacts && result == Ok(DetailOf(db, survivor, recent, score))
              else
                db == old(db) && result == Err(outcome.error)
    {
      if survivor == source {
        return Err(SelfMerge);
      }
      if survivor !in db.contacts {
        return Err(SurvivorMissing);
      }
      if source !in db.contacts {
        return Err(SourceMissing);
      }
      var kept, folded := db.contacts[survivor], db.contacts[source];
      db := RepointLinks(db, survivor, source);
      db := db.(contacts := db.contacts[survivor := Contact(
        OrElse(kept.displayName, folded.displayName),
        OrElse(NormalizedEmail(kept.email, rules), NormalizedEmail(folded.email, rules)),
        Max(kept.followers, folded.followers), now)]);
      db := db.(merges := db.merges + [MergeRow(survivor, source, mode)]);
      db := DeleteContactRow(db, source);
      var detail := GetContactDetail(survivor, recent);
      result := Ok(detail.value);
    }

    /** The accounts of the identity are read before its links go; the receipt counts the rows deleted. */
    method DeleteContact(id: nat, cascade: bool) returns (result: Result<Receipt, DeleteError>)
      modifies this`db
      ensures var outcome := DeleteOutcome(old(db), id, cascade);
              if outcome.Ok? then
                && db == Deleted(old(db), id, cascade)
                && result == Ok(Receipt(1, |CrmStore.Timeline(old(db), id)|, if cascade then Some(MergeCount(old(db).merges, id)) else None))
              else
                db == old(db) && result == Err(outcome.error)
    {
      if id !in db.contacts {
        return Err(NotFound);
      }
      if !cascade && MergeCount(db.merges, id) > 0 {
        MergeCountPositive(db.merges, id);
        return Err(HasMergeHistory);
      }
      MergeCountPositive(db.merges, id);
      var linked := set s | s in db.links && db.links[s] == id;
      DeletedMessages(db, id, linked);
      var kept := Filter(db.messages, IsFromOther(linked));
      var messagesDeleted := |db.messages| - |kept|;
      db := db.(messages := kept);
      var mergesDeleted := None;
      if cascade {
        var rest := Filter(db.merges, IsNotSurvivor(id));
        DeletedMerges(db.merges, id);
        mergesDeleted := Some(|db.merges| - |rest|);
        db := db.(merges := rest);
      }
      db := DeleteContactRow(db, id);
      result := Ok(Receipt(1, messagesDeleted, mergesDeleted));
    }

    /** A page of identities through three batched statements, equal to the single-contact path on each. */
    method ListContacts(limit: Option<real>, offset: Option<real>, now: int, recent: string -> bool)
      returns (listed: seq<ScoredContact>)
      requires db.Valid()
      modifies this`db
      ensures db == Synced(old(db), now, rules)
      ensures var ids := Page(db, NormalizeLimit(limit), NormalizeOffset(offset));
              && |listed| == |ids|
              && forall i | 0 <= i < |ids| ::
                   ids[i] in db.contacts && listed[i] == Enriched(db, ids[i], db.contacts[ids[i]], recent, score)
    {
      SyncedIsValid(db, now, rules);
      Sync(now);
      hide *;
      var ids := Page(db, NormalizeLimit(limit), NormalizeOffset(offset));
      if |ids| == 0 {
        return [];
      }
      PageIsLive(db, NormalizeLimit(limit), NormalizeOffset(offset));
      var linksByContact := GroupLinks(BatchLinks(db, ids));
      GroupsAreDistinct(db, ids, recent);
      var countByContact := GroupCounts(BatchEngagement(db, ids, recent));
      var bodiesByContact := GroupBodies(BatchRecentBodies(db, ids, recent));
      forall id | id in ids
        ensures IsRead(db, id, recent, linksByContact, countByContact, bodiesByContact)
      {
        PageAgrees(db, ids, recent, id, linksByContact, countByContact, bodiesByContact);
      }
      listed := ScorePage(db, ids, recent, score, linksByContact, countByContact, bodiesByContact);
    }
  }

  /** Rows deleted, by table. */
  datatype Receipt = Receipt(contacts: nat, messages: nat, merges: Option<nat>)

  function IsFromOther(socials: set<nat>): Message -> bool {
    (m: Message) => !(m.contactId.Some? && m.contactId.value in socials)
  }

  /** Deleting by the accounts read beforehand leaves what is kept and deletes a whole timeline. */
  lemma DeletedMessages(db: Database, id: nat, linked: set<nat>)
    requires linked == set s | s in db.links && db.links[s] == id
    ensures Filter(db.messages, IsFromOther(linked)) == Filter(db.messages, IsKept(db, id))
    ensures |Filter(db.messages, IsFromOther(linked))| + |CrmStore.Timeline(db, id)| == |db.messages|
  {
    FilterAgrees(db.messages, IsFromOther(linked), IsKept(db, id));
    FilterCounts(db.messages, IsOf(db, id), IsKept(db, id));
    SortPermutes(Filter(db.messages, IsOf(db, id)), Older);
    hide Filter, Sort;
  }

  lemma {:induction false} DeletedMerges(merges: seq<MergeRow>, id: nat)
    ensures |Filter(merges, IsNotSurvivor(id))| + MergeCount(merges, id) == |merges|
    decreases merges
  {
    if merges != [] {
      DeletedMerges(merges[..|merges| - 1], id);
    }
  }

  lemma {:induction false} MergeCountPositive(merges: seq<MergeRow>, id: nat)
    ensures MergeCount(merges, id) > 0 <==> exists r :: r in merges && r.survivor == id
    decreases merges
  {
    if merges != [] {
      MergeCountPositive(merges[..|merges| - 1], id);
      assert merges == merges[..|merges| - 1] + [merges[|merges| - 1]];
    }
  }

  function Get<V>(m: map<nat, V>, id: nat, missing: V): V { if id in m then m[id] else missing }

  /** The page's maps say of an identity what the single-contact reads say. */
  ghost predicate IsRead(db: Database, id: nat, recent: string -> bool,
                         links: map<nat, seq<LinkedAccount>>, counts: map<nat, nat>, bodies: map<nat, seq<string>>) {
    && Get(links, id, []) == LinkedAccounts(db, id)
    && Get(counts, id, 0) == EngagementCount(db, id, recent)
    && Get(bodies, id, []) == RecentBodies(db, id, recent)
  }

  method ScorePage(db: Database, ids: seq<nat>, recent: string -> bool, score: Scorer,
                   links: map<nat, seq<LinkedAccount>>, counts: map<nat, nat>, bodies: map<nat, seq<string>>)
    returns (listed: seq<ScoredContact>)
    requires forall id | id in ids :: id in db.contacts && IsRead(db, id, recent, links, counts, bodies)
    ensures |listed| == |ids|
    ensures forall i | 0 <= i < |ids| ::
              ids[i] in db.contacts && listed[i] == Enriched(db, ids[i], db.contacts[ids[i]], recent, score)
  {
    hide LinkedAccounts, EngagementCount, RecentBodies;
    listed := [];
    for n := 0 to |ids|
      invariant |listed| == n
      invariant forall i | 0 <= i < n :: listed[i] == Enriched(db, ids[i], db.contacts[ids[i]], recent, score)
    {
      var id := ids[n];
      assert IsRead(db, id, recent, links, counts, bodies);
      var count := Get(counts, id, 0);
      var lead := score(count, db.contacts[id].followers, Get(bodies, id, []));
      listed := listed + [ScoredContact(id, db.contacts[id], Get(links, id, []), count, lead)];
    }
  }

  lemma {:induction false} CreateAllIsValid(db: Database, socials: seq<Social>, now: int, rules: Rules)
    requires db.Valid()
    ensures CreateAll(db, socials, now, rules).Valid()
    decreases socials
  {
    if socials != [] {
      CreateAllIsValid(db, socials[..|socials| - 1], now, rules);
    }
  }

  lemma SyncedIsValid(db: Database, now: int, rules: Rules)
    requires db.Valid()
    ensures Synced(db, now, rules).Valid()
  {
    CreateAllIsValid(db, UnlinkedSocials(db), now, rules);
  }

  function MergeCount(merges: seq<MergeRow>, id: nat): nat {
    if merges == [] then 0
    else MergeCount(merges[..|merges| - 1], id) + (if merges[|merges| - 1].survivor == id then 1 else 0)
  }

  function DetailOf(db: Database, id: nat, recent: string -> bool, score: Scorer): ContactDetail
    requires id in db.contacts
  {
    ContactDetail(Enriched(db, id, db.contacts[id], recent, score), CrmStore.Timeline(db, id), MergeCount(db.merges, id))
  }

  lemma GroupsAreDistinct(db: Database, ids: seq<nat>, recent: string -> bool)
    ensures var groups := BatchEngagement(db, ids, recent);
            forall i, j | 0 <= i < j < |groups| :: groups[i].0 != groups[j].0
  {
    CrmIdsAre(RecentRows(db, ids, recent));
  }

  /** All three batched reads, grouped, agree with the single-contact reads. */
  lemma PageAgrees(db: Database, ids: seq<nat>, recent: string -> bool, id: nat,
                   links: map<nat, seq<LinkedAccount>>, counts: map<nat, nat>, bodies: map<nat, seq<string>>)
    requires db.Valid() && id in ids && HoldsCounts(counts, BatchEngagement(db, ids, recent))
    requires HoldsLinks(links, BatchLinks(db, ids)) && HoldsBodies(bodies, BatchRecentBodies(db, ids, recent))
    ensures IsRead(db, id, recent, links, counts, bodies)
  {
    BatchLinksAgree(db, ids, id);
    BatchCountsAgree(db, ids, recent, id, counts);
    BatchBodiesAgree(db, ids, recent, id);
    hide LinkedAccounts, EngagementCount, RecentBodies, BatchLinks, BatchEngagement, BatchRecentBodies, HoldsCounts, Filter;
  }
}
