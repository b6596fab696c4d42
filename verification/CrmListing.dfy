/**
 * Reading identities one by one and a page at a time: the statements of both paths and why
 * they give the same links, counts and bodies.
 */
module CrmListing {
  import opened Wrappers
  import opened Sorting
  import opened CrmStore

  datatype LinkedAccount = LinkedAccount(socialContactId: nat, platform: string, platformContactId: string,
                                         handle: Option<string>, displayName: Option<string>, avatarUrl: Option<string>)

  /** A joined row carries the identity its account is linked to. */
  datatype LinkRow = LinkRow(crmId: nat, social: Social)

  datatype MessageRow = MessageRow(crmId: nat, message: Message)

  function JoinLinks(socials: seq<Social>, links: map<nat, nat>): seq<LinkRow> {
    if socials == [] then []
    else
      var s := socials[|socials| - 1];
      JoinLinks(socials[..|socials| - 1], links) + (if s.id in links then [LinkRow(links[s.id], s)] else [])
  }

  function JoinMessages(messages: seq<Message>, links: map<nat, nat>): seq<MessageRow> {
    if messages == [] then []
    else
      var m := messages[|messages| - 1];
      JoinMessages(messages[..|messages| - 1], links)
      + (if m.contactId.Some? && m.contactId.value in links then [MessageRow(links[m.contactId.value], m)] else [])
  }

  // ---------------------------------------------------------------- one identity at a time

  function LinkIs(id: nat): LinkRow -> bool { (r: LinkRow) => r.crmId == id }

  function RowIs(id: nat): MessageRow -> bool { (r: MessageRow) => r.crmId == id }

  function RecentIs(id: nat, recent: string -> bool): MessageRow -> bool {
    (r: MessageRow) => r.crmId == id && recent(At(r.message))
  }

  predicate BySocial(x: LinkRow, y: LinkRow) { x.social.id < y.social.id }

  predicate NewerRow(x: MessageRow, y: MessageRow) { Newer(x.message, y.message) }

  function Account(s: Social): LinkedAccount {
    LinkedAccount(s.id, s.platform, s.platformContactId, s.handle, s.displayName, s.avatarUrl)
  }

  function Accounts(rows: seq<LinkRow>): seq<LinkedAccount> {
    seq(|rows|, i requires 0 <= i < |rows| => Account(rows[i].social))
  }

  function RowBodies(rows: seq<MessageRow>): seq<string> { seq(|rows|, i requires 0 <= i < |rows| => rows[i].message.body) }

  function LinkedAccounts(db: Database, id: nat): seq<LinkedAccount> {
    Accounts(Sort(Filter(JoinLinks(db.socials, db.links), LinkIs(id)), BySocial))
  }

  function EngagementCount(db: Database, id: nat, recent: string -> bool): nat {
    |Filter(JoinMessages(db.messages, db.links), RecentIs(id, recent))|
  }

  const RECENT_LIMIT := 50

  function RecentBodies(db: Database, id: nat, recent: string -> bool): seq<string> {
    RowBodies(Take(Sort(Filter(JoinMessages(db.messages, db.links), RecentIs(id, recent)), NewerRow), RECENT_LIMIT))
  }

  // ---------------------------------------------------------------- a page at a time

  function LinkIn(ids: seq<nat>): LinkRow -> bool { (r: LinkRow) => r.crmId in ids }

  function RecentIn(ids: seq<nat>, recent: string -> bool): MessageRow -> bool {
    (r: MessageRow) => r.crmId in ids && recent(At(r.message))
  }

  predicate ByCrmThenSocial(x: LinkRow, y: LinkRow) { x.crmId < y.crmId || (x.crmId == y.crmId && x.social.id < y.social.id) }

  function BatchLinks(db: Database, ids: seq<nat>): seq<LinkRow> {
    Sort(Filter(JoinLinks(db.socials, db.links), LinkIn(ids)), ByCrmThenSocial)
  }

  function RecentRows(db: Database, ids: seq<nat>, recent: string -> bool): seq<MessageRow> {
    Filter(JoinMessages(db.messages, db.links), RecentIn(ids, recent))
  }

  function CrmIds(rows: seq<MessageRow>): seq<nat> {
    if rows == [] then []
    else
      var before, c := CrmIds(rows[..|rows| - 1]), rows[|rows| - 1].crmId;
      if c in before then before else before + [c]
  }

  /** `GROUP BY crm_id` with `COUNT(*)`: one row per identity that has any. */
  function BatchEngagement(db: Database, ids: seq<nat>, recent: string -> bool): seq<(nat, nat)> {
    var rows := RecentRows(db, ids, recent);
    var keys := CrmIds(rows);
    seq(|keys|, i requires 0 <= i < |keys| => (keys[i], |Filter(rows, RowIs(keys[i]))|))
  }

  function ComesBefore(r: MessageRow): MessageRow -> bool { (x: MessageRow) => x.crmId == r.crmId && NewerRow(x, r) }

  /** `ROW_NUMBER() OVER (PARTITION BY crm_id ORDER BY at DESC, id DESC)` */
  function RowNumber(rows: seq<MessageRow>, r: MessageRow): nat { |Filter(rows, ComesBefore(r))| + 1 }

  function IsTop(rows: seq<MessageRow>): MessageRow -> bool { (r: MessageRow) => RowNumber(rows, r) <= RECENT_LIMIT }

  function ByCrmThenNumber(rows: seq<MessageRow>): (MessageRow, MessageRow) -> bool {
    (x: MessageRow, y: MessageRow) => x.crmId < y.crmId || (x.crmId == y.crmId && RowNumber(rows, x) < RowNumber(rows, y))
  }

  function BatchRecentBodies(db: Database, ids: seq<nat>, recent: string -> bool): seq<MessageRow> {
    var rows := RecentRows(db, ids, recent);
    Sort(Filter(rows, IsTop(rows)), ByCrmThenNumber(rows))
  }

  // ---------------------------------------------------------------- the two paths agree

  /** The page's links grouped by identity are the identity's links. */
  lemma BatchLinksAgree(db: Database, ids: seq<nat>, id: nat)
    requires id in ids
    ensures Accounts(Filter(BatchLinks(db, ids), LinkIs(id))) == LinkedAccounts(db, id)
  {
    var joined := JoinLinks(db.socials, db.links);
    assert IsOrder(ByCrmThenSocial);
    SortFilter(Filter(joined, LinkIn(ids)), ByCrmThenSocial, LinkIs(id));
    FilterFilter(joined, LinkIn(ids), LinkIs(id), LinkIs(id));
    FilterMembers(joined, LinkIs(id));
    SortAgrees(Filter(joined, LinkIs(id)), ByCrmThenSocial, BySocial);
    hide *;
    assert Filter(BatchLinks(db, ids), LinkIs(id)) == Sort(Filter(joined, LinkIs(id)), BySocial);
  }

  /** The rows of one identity within the page's rows. */
  lemma PartOfPage(db: Database, ids: seq<nat>, recent: string -> bool, id: nat)
    requires id in ids
    ensures Filter(RecentRows(db, ids, recent), RowIs(id)) == Filter(JoinMessages(db.messages, db.links), RecentIs(id, recent))
  {
    FilterFilter(JoinMessages(db.messages, db.links), RecentIn(ids, recent), RowIs(id), RecentIs(id, recent));
  }

  lemma {:induction false} CrmIdsAre(rows: seq<MessageRow>)
    ensures forall c :: c in CrmIds(rows) <==> |Filter(rows, RowIs(c))| > 0
    ensures forall i, j | 0 <= i < j < |CrmIds(rows)| :: CrmIds(rows)[i] != CrmIds(rows)[j]
    decreases rows
  {
    if rows != [] {
      CrmIdsAre(rows[..|rows| - 1]);
    }
  }

  ghost predicate HoldsCounts(counts: map<nat, nat>, groups: seq<(nat, nat)>) {
    && (forall i | 0 <= i < |groups| :: groups[i].0 in counts && counts[groups[i].0] == groups[i].1)
    && forall c | c in counts :: HasGroup(groups, c)
  }

  ghost predicate HasGroup(groups: seq<(nat, nat)>, id: nat) { exists i :: 0 <= i < |groups| && groups[i].0 == id }

  /** Looking an identity up in the page's counts, 0 when absent, is its engagement count. */
  lemma BatchCountsAgree(db: Database, ids: seq<nat>, recent: string -> bool, id: nat, counts: map<nat, nat>)
    requires id in ids && HoldsCounts(counts, BatchEngagement(db, ids, recent))
    ensures (if id in counts then counts[id] else 0) == EngagementCount(db, id, recent)
  {
    var rows := RecentRows(db, ids, recent);
    var keys := CrmIds(rows);
    PartOfPage(db, ids, recent, id);
    CrmIdsAre(rows);
    hide Filter, RecentRows, CrmIds;
    if id in keys {
      var i :| 0 <= i < |keys| && keys[i] == id;
      assert BatchEngagement(db, ids, recent)[i].0 == id;
    }
  }

  // ---------------------------------------------------------------- row numbers

  /** Rows with equal message ids are equal, as joined rows of a table with ascending ids are. */
  ghost predicate OneRowPerMessage(rows: seq<MessageRow>) {
    forall x, y | x in rows && y in rows && x.message.id == y.message.id :: x == y
  }

  lemma {:induction false} JoinedMembers(messages: seq<Message>, links: map<nat, nat>)
    ensures forall r | r in JoinMessages(messages, links) :: r.message in messages
    decreases messages
  {
    if messages != [] {
      var init, last := messages[..|messages| - 1], messages[|messages| - 1];
      JoinedMembers(init, links);
      assert messages == init + [last];
    }
  }

  lemma {:induction false} JoinedOnce(messages: seq<Message>, links: map<nat, nat>)
    requires MessagesAscend(messages)
    ensures OneRowPerMessage(JoinMessages(messages, links)) && AllDistinct(JoinMessages(messages, links))
    decreases messages
  {
    if messages != [] {
      var init, last := messages[..|messages| - 1], messages[|messages| - 1];
      var joined, more := JoinMessages(init, links), JoinMessages(messages, links);
      JoinedOnce(init, links);
      JoinedMembers(init, links);
      assert more == joined || (|more| == |joined| + 1 && more[..|joined|] == joined && more[|joined|].message == last);
      hide JoinMessages;
      forall r | r in joined
        ensures r.message.id < last.id
      {
        var i :| 0 <= i < |init| && init[i] == r.message;
        assert messages[i].id < messages[|init|].id;
      }
      if more != joined {
        OneMoreRow(joined, more[|joined|]);
        assert more == joined + [more[|joined|]];
      }
    }
  }

  lemma OneMoreRow(rows: seq<MessageRow>, r: MessageRow)
    requires OneRowPerMessage(rows) && AllDistinct(rows) && forall x | x in rows :: x.message.id < r.message.id
    ensures OneRowPerMessage(rows + [r]) && AllDistinct(rows + [r])
  {
    assert forall x :: x in rows + [r] <==> x in rows || x == r;
    assert r !in rows;
  }

  lemma NewerRowIsOrder()
    ensures IsOrder(NewerRow)
  {
    OlderIsOrder();
    forall x, y | NewerRow(x, y)
      ensures !NewerRow(y, x)
    {
      assert Newer(x.message, y.message);
    }
    forall x, y, z | !NewerRow(y, x) && !NewerRow(z, y)
      ensures !NewerRow(z, x)
    {
      assert !Newer(y.message, x.message) && !Newer(z.message, y.message);
    }
  }

  /** Of two rows of an identity the newer one has the smaller number. */
  lemma NumbersFollowAge(rows: seq<MessageRow>, x: MessageRow, y: MessageRow)
    requires x in rows && y in rows && x.crmId == y.crmId && NewerRow(x, y)
    ensures RowNumber(rows, x) < RowNumber(rows, y)
  {
    NewerRowIsOrder();
    FilterSplitsCount(rows, ComesBefore(x), ComesBefore(y));
    assert ComesBefore(y)(x) && !ComesBefore(x)(x);
  }

  lemma NumbersAgreeWithAge(rows: seq<MessageRow>, x: MessageRow, y: MessageRow)
    requires OneRowPerMessage(rows) && x in rows && y in rows && x.crmId == y.crmId
    ensures ByCrmThenNumber(rows)(x, y) == NewerRow(x, y)
  {
    OlderIsOrder();
    if x != y {
      if NewerRow(x, y) {
        NumbersFollowAge(rows, x, y);
      } else {
        NumbersFollowAge(rows, y, x);
      }
    } else {
      NewerRowIsOrder();
    }
  }

  lemma ByCrmThenNumberIsOrder(rows: seq<MessageRow>)
    ensures IsOrder(ByCrmThenNumber(rows))
  {
    hide RowNumber;
  }

  /** The row at position k of an identity's newest-first list has number k + 1. */
  lemma NumberIsPosition(rows: seq<MessageRow>, id: nat, k: nat)
    requires OneRowPerMessage(rows) && AllDistinct(rows)
    requires k < |Sort(Filter(rows, RowIs(id)), NewerRow)|
    ensures var r := Sort(Filter(rows, RowIs(id)), NewerRow)[k];
            r.crmId == id && RowNumber(rows, r) == k + 1
  {
    var sorted := Sort(Filter(rows, RowIs(id)), NewerRow);
    var r := sorted[k];
    SortedPart(rows, id);
    assert r in sorted;
    CountInSorted(rows, id, r);
    PrefixComesBefore(sorted, id, k);
    hide *;
  }

  /** Counting the rows before r over the page or over its own identity's sorted rows is the same. */
  lemma CountInSorted(rows: seq<MessageRow>, id: nat, r: MessageRow)
    requires r.crmId == id
    ensures RowNumber(rows, r) == |Filter(Sort(Filter(rows, RowIs(id)), NewerRow), ComesBefore(r))| + 1
  {
    var part := Filter(rows, RowIs(id));
    FilterFilter(rows, RowIs(id), ComesBefore(r), ComesBefore(r));
    NewerRowIsOrder();
    SortFilter(part, NewerRow, ComesBefore(r));
    SortPermutes(Filter(part, ComesBefore(r)), NewerRow);
    hide Filter, Sort, ComesBefore, NewerRow, RowIs;
  }

  lemma PrefixComesBefore(sorted: seq<MessageRow>, id: nat, k: nat)
    requires InOrder(sorted, NewerRow) && AllDistinct(sorted) && OneRowPerMessage(sorted)
    requires k < |sorted| && forall x | x in sorted :: x.crmId == id
    ensures Filter(sorted, ComesBefore(sorted[k])) == sorted[..k]
  {
    var r := sorted[k];
    hide Filter;
    forall j | 0 <= j < |sorted|
      ensures ComesBefore(r)(sorted[j]) <==> j < k
    {
      assert sorted[j] in sorted && r in sorted;
      if j < k {
        EarlierIsNewer(sorted[j], r);
      } else if j > k {
        assert !NewerRow(sorted[j], r);
      } else {
        NewerRowIsOrder();
      }
    }
    FilterPrefix(sorted, ComesBefore(r), k);
  }

  lemma EarlierIsNewer(x: MessageRow, y: MessageRow)
    requires !NewerRow(y, x) && x.message.id != y.message.id
    ensures NewerRow(x, y)
  {
    OlderIsOrder();
  }

  lemma SortedPart(rows: seq<MessageRow>, id: nat)
    requires OneRowPerMessage(rows) && AllDistinct(rows)
    ensures var sorted := Sort(Filter(rows, RowIs(id)), NewerRow);
            && InOrder(sorted, NewerRow) && AllDistinct(sorted)
            && OneRowPerMessage(sorted)
            && forall x :: x in sorted <==> x in rows && x.crmId == id
  {
    var part := Filter(rows, RowIs(id));
    FilterMembers(rows, RowIs(id));
    FilterDistinct(rows, RowIs(id));
    NewerRowIsOrder();
    SortInOrder(part, NewerRow);
    SortDistinct(part, NewerRow);
    SortMembers(part, NewerRow);
    hide Filter, Sort;
  }

  lemma {:induction false} FilterDistinct(s: seq<MessageRow>, keep: MessageRow -> bool)
    requires AllDistinct(s)
    ensures AllDistinct(Filter(s, keep))
    decreases s
  {
    if s != [] {
      var init, last := s[..|s| - 1], s[|s| - 1];
      FilterDistinct(init, keep);
      FilterMembers(init, keep);
      FilterSnoc(init, last, keep);
      assert s == init + [last];
      assert last !in init;
      var f := Filter(init, keep);
      hide Filter;
      forall i | 0 <= i < |f|
        ensures f[i] != last
      {
        assert f[i] in f;
      }
    }
  }

  /** The numbered rows of an identity, cut at the limit, are its newest rows. */
  lemma TopRowsAreNewest(rows: seq<MessageRow>, id: nat)
    requires OneRowPerMessage(rows) && AllDistinct(rows)
    ensures Filter(Sort(Filter(rows, IsTop(rows)), ByCrmThenNumber(rows)), RowIs(id))
         == Take(Sort(Filter(rows, RowIs(id)), NewerRow), RECENT_LIMIT)
  {
    var part, number := Filter(rows, RowIs(id)), ByCrmThenNumber(rows);
    var sorted := Sort(part, NewerRow);
    ByCrmThenNumberIsOrder(rows);
    SortFilter(Filter(rows, IsTop(rows)), number, RowIs(id));
    FiltersCommute(rows, IsTop(rows), RowIs(id));
    SortFilter(part, number, IsTop(rows));
    FilterMembers(rows, RowIs(id));
    forall x, y | x in part && y in part
      ensures number(x, y) == NewerRow(x, y)
    {
      NumbersAgreeWithAge(rows, x, y);
    }
    SortAgrees(part, number, NewerRow);
    CutAtLimit(rows, id);
    hide *;
  }

  lemma CutAtLimit(rows: seq<MessageRow>, id: nat)
    requires OneRowPerMessage(rows) && AllDistinct(rows)
    ensures Filter(Sort(Filter(rows, RowIs(id)), NewerRow), IsTop(rows)) == Take(Sort(Filter(rows, RowIs(id)), NewerRow), RECENT_LIMIT)
  {
    var sorted := Sort(Filter(rows, RowIs(id)), NewerRow);
    var k := if RECENT_LIMIT <= |sorted| then RECENT_LIMIT else |sorted|;
    forall j | 0 <= j < |sorted|
      ensures IsTop(rows)(sorted[j]) <==> j < k
    {
      NumberIsPosition(rows, id, j);
    }
    hide Filter, Sort, RowNumber;
    FilterPrefix(sorted, IsTop(rows), k);
  }

  lemma FiltersCommute(s: seq<MessageRow>, a: MessageRow -> bool, b: MessageRow -> bool)
    ensures Filter(Filter(s, a), b) == Filter(Filter(s, b), a)
  {
    var both := (x: MessageRow) => a(x) && b(x);
    FilterFilter(s, a, b, both);
    FilterFilter(s, b, a, both);
  }

  /** The page's bodies grouped by identity are the identity's 50 newest bodies. */
  lemma BatchBodiesAgree(db: Database, ids: seq<nat>, recent: string -> bool, id: nat)
    requires db.Valid() && id in ids
    ensures RowBodies(Filter(BatchRecentBodies(db, ids, recent), RowIs(id))) == RecentBodies(db, id, recent)
  {
    var rows := RecentRows(db, ids, recent);
    RecentRowsOnce(db, ids, recent);
    TopRowsAreNewest(rows, id);
    PartOfPage(db, ids, recent, id);
    hide Filter, Sort, RecentRows;
  }

  lemma RecentRowsOnce(db: Database, ids: seq<nat>, recent: string -> bool)
    requires db.Valid()
    ensures OneRowPerMessage(RecentRows(db, ids, recent)) && AllDistinct(RecentRows(db, ids, recent))
  {
    var joined := JoinMessages(db.messages, db.links);
    JoinedOnce(db.messages, db.links);
    FilterDistinct(joined, RecentIn(ids, recent));
    FilterMembers(joined, RecentIn(ids, recent));
    hide Filter, JoinMessages;
  }
}
