/** The pages of the contact list: together they list every identity once, the most recently updated first. */
module CrmPages {
  import opened Wrappers
  import opened Sorting
  import opened CrmStore
  import opened Crm
  import opened CrmListing
  import CrmRows

  /** The later update first, and of equal ones the larger id. */
  ghost predicate ListedBefore(contacts: map<nat, Contact>, x: nat, y: nat)
    requires x in contacts && y in contacts
  {
    contacts[x].updatedAt > contacts[y].updatedAt || (contacts[x].updatedAt == contacts[y].updatedAt && x > y)
  }

  /** Every identity once, in the order of the list. */
  ghost predicate IsListing(db: Database, ids: seq<nat>) {
    && (forall id :: id in ids <==> id in db.contacts)
    && (forall i, j | 0 <= i < j < |ids| ::
          ids[i] in db.contacts && ids[j] in db.contacts && ListedBefore(db.contacts, ids[i], ids[j]))
  }

  function AllIds(db: Database): seq<nat> { Sort(IdsBelow(db.nextContact, db.contacts), Fresher(db.contacts)) }

  /** The comparator completed to ids that are no identities, which come last. */
  ghost predicate RanksBefore(contacts: map<nat, Contact>, x: nat, y: nat) {
    x in contacts && (y in contacts ==> ListedBefore(contacts, x, y))
  }

  ghost function Ranks(contacts: map<nat, Contact>): (nat, nat) -> bool { (x: nat, y: nat) => RanksBefore(contacts, x, y) }

  lemma RanksIsOrder(contacts: map<nat, Contact>)
    ensures IsOrder(Ranks(contacts))
  {
    forall x: nat, y: nat
      ensures RanksBefore(contacts, x, y) ==> !RanksBefore(contacts, y, x)
    {
    }
    forall x: nat, y: nat, z: nat
      ensures !RanksBefore(contacts, y, x) && !RanksBefore(contacts, z, y) ==> !RanksBefore(contacts, z, x)
    {
    }
    hide RanksBefore;
  }

  /** Sorted by the list's order, all identities come out as the listing. */
  lemma AllIdsAreListing(db: Database)
    requires db.Valid()
    ensures IsListing(db, AllIds(db))
  {
    var ids, ranks := IdsBelow(db.nextContact, db.contacts), Ranks(db.contacts);
    IdsBelowAre(db.nextContact, db.contacts);
    RanksIsOrder(db.contacts);
    RanksAgrees(db.contacts, ids);
    SortAgrees(ids, Fresher(db.contacts), ranks);
    SortInOrder(ids, ranks);
    SortMembers(ids, ranks);
    SortDistinct(ids, ranks);
    RankedIsListing(db, AllIds(db));
    hide Sort, IdsBelow, IsOrder, Ranks, IsListing, InOrder, AllDistinct, Fresher;
  }

  lemma RanksAgrees(contacts: map<nat, Contact>, ids: seq<nat>)
    requires forall id | id in ids :: id in contacts
    ensures forall x, y | x in ids && y in ids :: Fresher(contacts)(x, y) == Ranks(contacts)(x, y)
  {
  }

  lemma RankedIsListing(db: Database, all: seq<nat>)
    requires (forall id :: id in all <==> id in db.contacts) && InOrder(all, Ranks(db.contacts)) && AllDistinct(all)
    ensures IsListing(db, all)
  {
    forall i, j | 0 <= i < j < |all|
      ensures all[i] in db.contacts && all[j] in db.contacts && ListedBefore(db.contacts, all[i], all[j])
    {
      assert all[i] in all && all[j] in all;
      assert !RanksBefore(db.contacts, all[j], all[i]);
    }
  }

  lemma HeadIsMember(s: seq<nat>)
    ensures s == [] || s[0] in s
  {
  }

  /** There is only one listing. */
  lemma {:induction false} ListingIsUnique(contacts: map<nat, Contact>, a: seq<nat>, b: seq<nat>)
    requires forall id :: id in a <==> id in b
    requires forall i, j | 0 <= i < j < |a| :: a[i] in contacts && a[j] in contacts && ListedBefore(contacts, a[i], a[j])
    requires forall i, j | 0 <= i < j < |b| :: b[i] in contacts && b[j] in contacts && ListedBefore(contacts, b[i], b[j])
    ensures a == b
    decreases a
  {
    HeadIsMember(b);
    if a != [] {
      assert a[0] in a && a[0] in b;
      assert b[0] in b && b[0] in a;
      assert a[0] == b[0];
      forall id
        ensures id in a[1..] <==> id in b[1..]
      {
        assert id in a <==> id == a[0] || id in a[1..];
        assert id in b <==> id == b[0] || id in b[1..];
      }
      ListingIsUnique(contacts, a[1..], b[1..]);
      assert a == [a[0]] + a[1..] && b == [b[0]] + b[1..];
    }
  }

  /** A page from the start that is large enough lists every identity exactly once, in order. */
  lemma WholePage(db: Database, limit: nat)
    requires db.Valid() && limit >= |db.contacts|
    ensures IsListing(db, Page(db, limit, 0)) && |Page(db, limit, 0)| == |db.contacts|
  {
    AllIdsAreListing(db);
    ListingLength(db, AllIds(db));
    PageOf(db, limit, 0);
    WholeOf(AllIds(db), limit);
    hide IsListing, AllIds, Page, Take, Drop;
  }

  lemma WholeOf(s: seq<nat>, limit: nat)
    requires limit >= |s|
    ensures Take(Drop(s, 0), limit) == s
  {
    assert s[0..] == s;
  }

  lemma ListingLength(db: Database, ids: seq<nat>)
    requires IsListing(db, ids)
    ensures |ids| == |db.contacts|
  {
    DistinctLength(ids);
    assert SetOf(ids) == db.contacts.Keys;
  }

  function SetOf(ids: seq<nat>): set<nat> { set id | id in ids }

  lemma {:induction false} DistinctLength(ids: seq<nat>)
    requires forall i, j | 0 <= i < j < |ids| :: ids[i] != ids[j]
    ensures |SetOf(ids)| == |ids|
    decreases ids
  {
    if ids != [] {
      var n := |ids| - 1;
      DistinctLength(ids[..n]);
      assert SetOf(ids) == SetOf(ids[..n]) + {ids[n]};
      assert ids[n] !in ids[..n];
    }
  }

  /** Any page is the part of the listing from `offset` on, cut at `limit`. */
  lemma PageIsPart(db: Database, limit: nat, offset: nat, listing: seq<nat>)
    requires db.Valid() && IsListing(db, listing)
    ensures var page := Page(db, limit, offset);
            && |page| == (if |listing| <= offset then 0 else if |listing| - offset <= limit then |listing| - offset else limit)
            && forall i | 0 <= i < |page| :: page[i] == listing[offset + i]
  {
    AllIdsAreListing(db);
    SameListing(db, AllIds(db), listing);
    PageOf(db, limit, offset);
    PartOf(listing, limit, offset);
    hide IsListing, AllIds, Page, Take, Drop;
  }

  lemma SameListing(db: Database, a: seq<nat>, b: seq<nat>)
    requires IsListing(db, a) && IsListing(db, b)
    ensures a == b
  {
    ListingIsUnique(db.contacts, a, b);
  }

  lemma PageOf(db: Database, limit: nat, offset: nat)
    ensures Page(db, limit, offset) == Take(Drop(AllIds(db), offset), limit)
  {
  }

  lemma PartOf(s: seq<nat>, limit: nat, offset: nat)
    ensures var part := Take(Drop(s, offset), limit);
            && |part| == (if |s| <= offset then 0 else if |s| - offset <= limit then |s| - offset else limit)
            && forall i | 0 <= i < |part| :: part[i] == s[offset + i]
  {
  }

  /** Successive pages join to one longer page: nothing is skipped and nothing shown twice. */
  lemma PagesJoin(db: Database, first: nat, second: nat, offset: nat)
    ensures Page(db, first, offset) + Page(db, second, offset + first) == Page(db, first + second, offset)
  {
    var all := AllIds(db);
    hide Sort, IdsBelow;
  }

  /** What is listed of an identity: its score counts its recent timeline, its followers, and the last bodies of that timeline. */
  lemma EnrichedSays(db: Database, id: nat, contact: Contact, recent: string -> bool, score: Scorer)
    requires db.Valid()
    ensures var e, timeline := Enriched(db, id, contact, recent, score), CrmRows.RecentTimeline(db, id, recent);
            && e.id == id && e.contact == contact && e.engagementCount == |timeline|
            && exists bodies :: IsEndOf(bodies, timeline) && e.leadScore == score(|timeline|, contact.followers, bodies)
  {
    CrmRows.EngagementIsRecentTimeline(db, id, recent);
    var bodies, timeline := RecentBodies(db, id, recent), CrmRows.RecentTimeline(db, id, recent);
    hide RecentBodies, CrmRows.RecentTimeline, EngagementCount;
    CrmRows.RecentBodiesEndTimeline(db, id, recent, 0);
    forall i | 0 <= i < |bodies|
      ensures bodies[i] == timeline[|timeline| - 1 - i].body
    {
      CrmRows.RecentBodiesEndTimeline(db, id, recent, i);
    }
    assert IsEndOf(bodies, timeline);
  }

  /** The last 50 bodies, the last one first. */
  ghost predicate IsEndOf(bodies: seq<string>, timeline: seq<Message>) {
    && |bodies| == (if |timeline| <= 50 then |timeline| else 50)
    && forall i | 0 <= i < |bodies| :: bodies[i] == timeline[|timeline| - 1 - i].body
  }

  /** Where page n starts. */
  function StartOf(limit: nat, n: nat): nat { if n == 0 then 0 else StartOf(limit, n - 1) + limit }

  lemma {:induction false} StartIsProduct(limit: nat, n: nat)
    ensures StartOf(limit, n) == n * limit
  {
    if n > 0 {
      StartIsProduct(limit, n - 1);
      assert n * limit == (n - 1) * limit + limit;
    }
  }

  /** The first n pages of a size, one after the other. */
  function Pages(db: Database, limit: nat, n: nat): seq<nat> {
    if n == 0 then [] else Pages(db, limit, n - 1) + Page(db, limit, StartOf(limit, n - 1))
  }

  lemma {:induction false} PagesAreOnePage(db: Database, limit: nat, n: nat)
    ensures Pages(db, limit, n) == Page(db, StartOf(limit, n), 0)
  {
    hide Page;
    if n == 0 {
      NothingListed(db);
    } else {
      PagesAreOnePage(db, limit, n - 1);
      PagesJoin(db, StartOf(limit, n - 1), limit, 0);
    }
  }

  lemma NothingListed(db: Database)
    ensures Page(db, 0, 0) == []
  {
  }

  /** Paging on until nothing is left lists every identity exactly once, in order. */
  lemma PagesListAll(db: Database, limit: nat, n: nat)
    requires db.Valid() && n * limit >= |db.contacts|
    ensures IsListing(db, Pages(db, limit, n))
  {
    PagesAreOnePage(db, limit, n);
    StartIsProduct(limit, n);
    WholePage(db, n * limit);
    hide Page, Pages, IsListing;
  }
}
