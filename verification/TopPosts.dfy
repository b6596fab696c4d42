/**
 * Per-platform leaderboards and week-over-week deltas, built on the same totals as the
 * roll-up, and why they agree with it.
 */
module TopPosts {
  import opened Wrappers
  import opened JsMaps
  import opened Sorting
  import opened Aggregator
  import opened Rollup
  import opened Text

  datatype TopPost = TopPost(platform: string, externalId: string, engagement: real, publishedAt: Option<int>, rank: nat)

  const DEFAULT_TOP_LIMIT := 3.0

  /** The optional cap, truncated toward zero and clamped to 1..100. */
  function Limit(limit: Option<real>): (n: nat)
    ensures 1 <= n <= 100
    ensures limit == None ==> n == 3
    ensures limit.Some? && limit.value < 1.0 ==> n == 1
    ensures limit.Some? && 1.0 <= limit.value < 101.0 ==> n as real <= limit.value < (n + 1) as real
    ensures limit.Some? && limit.value >= 100.0 ==> n == 100
  {
    var asked := if limit.Some? then limit.value else DEFAULT_TOP_LIMIT;
    var whole := if asked >= 0.0 then asked.Floor else -(-asked).Floor;
    if whole < 1 then 1 else if whole > 100 then 100 else whole
  }

  // ---------------------------------------------------------------- what a leaderboard is

  /** The comparator of two posts: more engagement first, then by the collation of their ids. */
  predicate IsAhead(a: TopPost, b: TopPost, collate: (string, string) -> int) {
    a.engagement > b.engagement || (a.engagement == b.engagement && collate(a.externalId, b.externalId) < 0)
  }

  function Ahead(collate: (string, string) -> int): (TopPost, TopPost) -> bool { (a, b) => IsAhead(a, b, collate) }

  /** String collation is a consistent three-way comparison. */
  ghost predicate IsCollation(collate: (string, string) -> int) {
    && (forall x, y :: collate(x, y) < 0 ==> collate(y, x) >= 0)
    && (forall x, y, z :: collate(y, x) >= 0 && collate(z, y) >= 0 ==> collate(z, x) >= 0)
  }

  /** The publication instant of the last listed post with this key. */
  function LastPublished(posts: seq<PublishedPost>, key: string): Option<int> {
    if posts == [] then None
    else
      var p := posts[|posts| - 1];
      if Key(p.platform, p.externalId) == key then Some(p.publishedAt) else LastPublished(posts[..|posts| - 1], key)
  }

  function Entry(t: PostTotals, posts: seq<PublishedPost>): TopPost {
    TopPost(t.platform, t.objectId, t.engagement, LastPublished(posts, Key(t.platform, t.objectId)), 0)
  }

  /** The entries of one platform, in the order of the totals. */
  function Entries(totals: seq<PostTotals>, posts: seq<PublishedPost>, platform: string): seq<TopPost> {
    if totals == [] then []
    else
      var last := totals[|totals| - 1];
      Entries(totals[..|totals| - 1], posts, platform) + (if last.platform == platform then [Entry(last, posts)] else [])
  }

  function Ranked(entries: seq<TopPost>, limit: nat): seq<TopPost> {
    seq(if limit <= |entries| then limit else |entries|, i requires 0 <= i < |entries| => entries[i].(rank := i + 1))
  }

  function Board(totals: seq<PostTotals>, posts: seq<PublishedPost>, platform: string, limit: nat, collate: (string, string) -> int): seq<TopPost> {
    Ranked(Sort(Entries(totals, posts, platform), Ahead(collate)), limit)
  }

  function Boards(totals: seq<PostTotals>, posts: seq<PublishedPost>, names: seq<string>, limit: nat, collate: (string, string) -> int): seq<TopPost> {
    if names == [] then []
    else
      Boards(totals, posts, names[..|names| - 1], limit, collate) + Board(totals, posts, names[|names| - 1], limit, collate)
  }

  function TotalPlatforms(totals: seq<PostTotals>): seq<string> {
    if totals == [] then [] else AddName(TotalPlatforms(totals[..|totals| - 1]), totals[|totals| - 1].platform)
  }

  function IsWanted(platform: Option<string>): PostTotals -> bool {
    (t: PostTotals) => platform.None? || t.platform == platform.value
  }

  /** What `topPosts` returns: the boards of the wanted platforms, in ascending order of name. */
  function Leaderboard(totals: seq<PostTotals>, posts: seq<PublishedPost>, limit: nat, platform: Option<string>, collate: (string, string) -> int): seq<TopPost> {
    var wanted := Filter(totals, IsWanted(platform));
    Boards(wanted, posts, SortNames(TotalPlatforms(wanted)), limit, collate)
  }

  // ---------------------------------------------------------------- the computation

  ghost predicate IsIndex(index: map<string, int>, posts: seq<PublishedPost>) {
    forall key :: LastPublished(posts, key) == if key in index then Some(index[key]) else None
  }

  method PublishedAtIndex(posts: seq<PublishedPost>) returns (index: map<string, int>)
    ensures IsIndex(index, posts)
  {
    index := map[];
    for n := 0 to |posts|
      invariant IsIndex(index, posts[..n])
    {
      assert posts[..n + 1][..n] == posts[..n];
      index := index[Key(posts[n].platform, posts[n].externalId) := posts[n].publishedAt];
      hide Key;
    }
    assert posts[..|posts|] == posts;
  }

  ghost predicate IsGrouped(m: JsMap<seq<TopPost>>, totals: seq<PostTotals>, posts: seq<PublishedPost>) {
    && m.Valid() && m.order == TotalPlatforms(totals)
    && forall p :: Entries(totals, posts, p) == if p in m.entries then m.entries[p] else []
  }

  method GroupByPlatform(totals: seq<PostTotals>, posts: seq<PublishedPost>, publishedAt: map<string, int>)
    returns (byPlatform: JsMap<seq<TopPost>>)
    requires IsIndex(publishedAt, posts)
    ensures IsGrouped(byPlatform, totals, posts)
  {
    byPlatform := JsMap([], map[]);
    for n := 0 to |totals|
      invariant IsGrouped(byPlatform, totals[..n], posts)
    {
      var t := totals[n];
      var key := Key(t.platform, t.objectId);
      var list := if t.platform in byPlatform.entries then byPlatform.entries[t.platform] else [];
      list := list + [TopPost(t.platform, t.objectId, t.engagement, if key in publishedAt then Some(publishedAt[key]) else None, 0)];
      AddEntry(byPlatform, totals, n, posts, list);
      byPlatform := byPlatform.Put(t.platform, list);
      hide IsGrouped, Key;
    }
    assert totals[..|totals|] == totals;
  }

  lemma AddEntry(m: JsMap<seq<TopPost>>, totals: seq<PostTotals>, n: nat, posts: seq<PublishedPost>, list: seq<TopPost>)
    requires n < |totals| && IsGrouped(m, totals[..n], posts)
    requires list == (if totals[n].platform in m.entries then m.entries[totals[n].platform] else []) + [Entry(totals[n], posts)]
    ensures IsGrouped(m.Put(totals[n].platform, list), totals[..n + 1], posts)
  {
    var t, after := totals[n], m.Put(totals[n].platform, list);
    assert totals[..n + 1][..n] == totals[..n];
    assert t.platform in m.entries <==> t.platform in m.order;
    assert after.order == TotalPlatforms(totals[..n + 1]);
    forall p
      ensures Entries(totals[..n + 1], posts, p) == if p in after.entries then after.entries[p] else []
    {
      assert Entries(totals[..n], posts, p) == if p in m.entries then m.entries[p] else [];
      EntriesSnoc(totals, n, posts, p);
      hide Entry, TotalPlatforms, AllDistinct, Entries;
    }
    hide Entry, TotalPlatforms, AllDistinct, Entries;
  }

  lemma EntriesSnoc(totals: seq<PostTotals>, n: nat, posts: seq<PublishedPost>, p: string)
    requires n < |totals|
    ensures Entries(totals[..n + 1], posts, p)
         == if totals[n].platform == p then Entries(totals[..n], posts, p) + [Entry(totals[n], posts)] else Entries(totals[..n], posts, p)
  {
    assert totals[..n + 1] == totals[..n] + [totals[n]];
    EntriesOfSnoc(totals[..n], totals[n], posts, p);
  }

  lemma EntriesOfSnoc(totals: seq<PostTotals>, t: PostTotals, posts: seq<PublishedPost>, p: string)
    ensures Entries(totals + [t], posts, p) == if t.platform == p then Entries(totals, posts, p) + [Entry(t, posts)] else Entries(totals, posts, p)
  {
    assert (totals + [t])[..|totals|] == totals;
  }

  method FilterTotals(totals: seq<PostTotals>, platform: Option<string>) returns (wanted: seq<PostTotals>)
    ensures wanted == Filter(totals, IsWanted(platform))
  {
    wanted := [];
    for n := 0 to |totals|
      invariant wanted == Filter(totals[..n], IsWanted(platform))
    {
      assert totals[..n + 1][..n] == totals[..n];
      if platform.None? || totals[n].platform == platform.value {
        wanted := wanted + [totals[n]];
      }
    }
    assert totals[..|totals|] == totals;
  }

  method TopPosts(insights: seq<InsightRow>, posts: seq<PublishedPost>, now: int, days: int,
                  limit: Option<real>, platform: Option<string>, collate: (string, string) -> int)
    returns (result: seq<TopPost>)
    ensures result == Leaderboard(Totals(insights, now, days), posts, Limit(limit), platform, collate)
  {
    hide Totals, Limit, Key, Sort, Filter;
    var cap := Limit(limit);
    var publishedAt := PublishedAtIndex(posts);
    var all := AggregatePostMetrics(insights, now, days);
    var totals := FilterTotals(all, platform);
    var byPlatform := GroupByPlatform(totals, posts, publishedAt);
    result := ListBoards(byPlatform, totals, posts, SortNames(byPlatform.order), cap, collate);
  }

  /** The last loop: sort, cut and number each platform's list. */
  method ListBoards(byPlatform: JsMap<seq<TopPost>>, ghost totals: seq<PostTotals>, ghost posts: seq<PublishedPost>,
                    names: seq<string>, cap: nat, collate: (string, string) -> int)
    returns (result: seq<TopPost>)
    requires IsGrouped(byPlatform, totals, posts)
    ensures result == Boards(totals, posts, names, cap, collate)
  {
    hide Sort, Ahead, Entries, Ranked, TotalPlatforms;
    result := [];
    for n := 0 to |names|
      invariant result == Boards(totals, posts, names[..n], cap, collate)
    {
      assert names[..n + 1][..n] == names[..n];
      var entries := if names[n] in byPlatform.entries then byPlatform.entries[names[n]] else [];
      assert entries == Entries(totals, posts, names[n]);
      var board := RankPrefix(Sort(entries, Ahead(collate)), cap);
      result := result + board;
    }
    assert names[..|names|] == names;
  }

  /** `slice(0, limit)` and numbering from 1. */
  method RankPrefix(list: seq<TopPost>, limit: nat) returns (board: seq<TopPost>)
    ensures board == Ranked(list, limit)
  {
    board := [];
    for i := 0 to if limit <= |list| then limit else |list|
      invariant board == Ranked(list, limit)[..i]
    {
      board := board + [list[i].(rank := i + 1)];
    }
  }

  // ---------------------------------------------------------------- the order

  lemma AheadIsOrder(collate: (string, string) -> int)
    requires IsCollation(collate)
    ensures IsOrder(Ahead(collate))
  {
    forall x: TopPost, y: TopPost, z: TopPost | !IsAhead(y, x, collate) && !IsAhead(z, y, collate)
      ensures !IsAhead(z, x, collate)
    {
      if x.engagement == y.engagement == z.engagement {
        assert collate(z.externalId, x.externalId) >= 0;
      }
    }
    assert forall x: TopPost, y: TopPost :: IsAhead(x, y, collate) ==> !IsAhead(y, x, collate);
  }

  function Unranked(board: seq<TopPost>): seq<TopPost> {
    seq(|board|, i requires 0 <= i < |board| => board[i].(rank := 0))
  }

  /**
   * A platform's board is a ranked prefix: ranks 1, 2, .. up to the limit or the number of
   * its posts, in order; with the posts left out it makes up exactly the platform's posts,
   * and none of those left out is ahead of one listed.
   */
  lemma BoardIsRankedPrefix(totals: seq<PostTotals>, posts: seq<PublishedPost>, platform: string, limit: nat, collate: (string, string) -> int)
    returns (left: seq<TopPost>)
    requires IsCollation(collate)
    ensures var board, all := Board(totals, posts, platform, limit, collate), Entries(totals, posts, platform);
            && |board| == (if limit <= |all| then limit else |all|)
            && (forall i | 0 <= i < |board| :: board[i].rank == i + 1)
            && (forall i, j | 0 <= i < j < |board| :: !IsAhead(board[j], board[i], collate))
            && multiset(Unranked(board) + left) == multiset(all)
            && forall x, y | x in left && y in board :: !IsAhead(x, y, collate)
  {
    var all, before := Entries(totals, posts, platform), Ahead(collate);
    var sorted := Sort(all, before);
    AheadIsOrder(collate);
    SortInOrder(all, before);
    SortPermutes(all, before);
    EntriesUnranked(totals, posts, platform);
    SortMembers(all, before);
    hide Entries, Sort, IsCollation;
    left := RankedPrefix(sorted, limit, collate);
  }

  /** The comparator in its own terms. */
  ghost predicate NotBehind(a: TopPost, b: TopPost, collate: (string, string) -> int) {
    a.engagement > b.engagement || (a.engagement == b.engagement && collate(b.externalId, a.externalId) >= 0)
  }

  /** The entry shows this total and the publication time last listed for its post. */
  ghost predicate Shows(e: TopPost, t: PostTotals, posts: seq<PublishedPost>) {
    && e.platform == t.platform && e.externalId == t.objectId && e.engagement == t.engagement
    && IsLastPublished(posts, t.platform, t.objectId, e.publishedAt)
  }

  predicate IsOfPost(p: PublishedPost, platform: string, objectId: string) { Key(p.platform, p.externalId) == Key(platform, objectId) }

  ghost predicate IsLastPublished(posts: seq<PublishedPost>, platform: string, objectId: string, at: Option<int>) {
    match at
    case None => forall i | 0 <= i < |posts| :: !IsOfPost(posts[i], platform, objectId)
    case Some(t) =>
      exists i :: 0 <= i < |posts| && IsOfPost(posts[i], platform, objectId) && posts[i].publishedAt == t
                  && forall j | i < j < |posts| :: !IsOfPost(posts[j], platform, objectId)
  }

  lemma OtherPostKeepsLast(posts: seq<PublishedPost>, platform: string, objectId: string, at: Option<int>)
    requires posts != [] && IsLastPublished(posts[..|posts| - 1], platform, objectId, at)
    requires !IsOfPost(posts[|posts| - 1], platform, objectId)
    ensures IsLastPublished(posts, platform, objectId, at)
  {
    var n := |posts| - 1;
    var init := posts[..n];
    assert forall j | 0 <= j < n :: init[j] == posts[j];
    hide IsOfPost;
    if at.Some? {
      var i :| 0 <= i < n && IsOfPost(init[i], platform, objectId) && init[i].publishedAt == at.value
               && forall j | i < j < n :: !IsOfPost(init[j], platform, objectId);
      assert IsOfPost(posts[i], platform, objectId);
    }
  }

  lemma {:induction false} LastPublishedIsLast(posts: seq<PublishedPost>, platform: string, objectId: string)
    ensures IsLastPublished(posts, platform, objectId, LastPublished(posts, Key(platform, objectId)))
    decreases posts
  {
    hide Key;
    if posts != [] {
      var n := |posts| - 1;
      if IsOfPost(posts[n], platform, objectId) {
        assert LastPublished(posts, Key(platform, objectId)) == Some(posts[n].publishedAt);
      } else {
        LastPublishedIsLast(posts[..n], platform, objectId);
        OtherPostKeepsLast(posts, platform, objectId, LastPublished(posts[..n], Key(platform, objectId)));
      }
    }
  }

  /**
   * A board in engagements alone: they never rise down the ranks, ties stand in the collation's order,
   * nothing left out has more than anything listed, and each entry shows a total of the platform.
   */
  lemma BoardShowsMostEngaged(totals: seq<PostTotals>, posts: seq<PublishedPost>, platform: string, limit: nat, collate: (string, string) -> int)
    returns (left: seq<TopPost>)
    requires IsCollation(collate)
    ensures var board, all := Board(totals, posts, platform, limit, collate), Entries(totals, posts, platform);
            && multiset(Unranked(board) + left) == multiset(all)
            && (forall i, j | 0 <= i < j < |board| :: NotBehind(board[i], board[j], collate))
            && (forall x, y | x in left && y in board :: NotBehind(y, x, collate))
            && (forall e | e in board :: e.platform == platform && exists t :: t in totals && Shows(e, t, posts))
  {
    var board, all := Board(totals, posts, platform, limit, collate), Entries(totals, posts, platform);
    left := BoardIsRankedPrefix(totals, posts, platform, limit, collate);
    EntriesFromTotals(totals, posts, platform);
    EntriesUnranked(totals, posts, platform);
    hide Board, Entries, IsCollation, Entry;
    forall e | e in board
      ensures e.platform == platform && exists t :: t in totals && Shows(e, t, posts)
    {
      var t := EntryShown(board, left, all, e, platform, totals, posts);
    }
  }

  lemma EntryShown(board: seq<TopPost>, left: seq<TopPost>, all: seq<TopPost>, e: TopPost, platform: string, totals: seq<PostTotals>, posts: seq<PublishedPost>)
    returns (t: PostTotals)
    requires e in board && multiset(Unranked(board) + left) == multiset(all)
    requires forall a | a in all :: a.platform == platform && exists t :: t in totals && a == Entry(t, posts)
    ensures e.platform == platform && t in totals && Shows(e, t, posts)
  {
    var i :| 0 <= i < |board| && board[i] == e;
    var a := Unranked(board)[i];
    assert a in Unranked(board) + left;
    assert a in multiset(Unranked(board) + left);
    assert a in all;
    t :| t in totals && a == Entry(t, posts);
    LastPublishedIsLast(posts, t.platform, t.objectId);
    hide LastPublished, IsLastPublished;
  }

  lemma RankedPrefix(sorted: seq<TopPost>, limit: nat, collate: (string, string) -> int) returns (left: seq<TopPost>)
    requires InOrder(sorted, Ahead(collate)) && forall e | e in sorted :: e.rank == 0
    ensures var board := Ranked(sorted, limit);
            && |board| == (if limit <= |sorted| then limit else |sorted|)
            && (forall i | 0 <= i < |board| :: board[i].rank == i + 1)
            && (forall i, j | 0 <= i < j < |board| :: !IsAhead(board[j], board[i], collate))
            && Unranked(board) + left == sorted
            && forall x, y | x in left && y in board :: !IsAhead(x, y, collate)
  {
    var board, before := Ranked(sorted, limit), Ahead(collate);
    left := sorted[|board|..];
    UnrankedPrefix(sorted, limit);
    assert sorted == sorted[..|board|] + left;
    hide IsAhead;
    forall x, y | x in left && y in board
      ensures !IsAhead(x, y, collate)
    {
      var k :| 0 <= k < |left| && left[k] == x;
      var i :| 0 <= i < |board| && board[i] == y;
      assert !before(sorted[|board| + k], sorted[i]);
      RankIgnored(x, sorted[i], i + 1, collate);
    }
    forall i, j | 0 <= i < j < |board|
      ensures !IsAhead(board[j], board[i], collate)
    {
      assert !before(sorted[j], sorted[i]);
      RankIgnored(board[j], sorted[i], i + 1, collate);
      RankIgnored(sorted[i], sorted[j], j + 1, collate);
    }
  }

  lemma RankIgnored(x: TopPost, y: TopPost, rank: nat, collate: (string, string) -> int)
    ensures IsAhead(x, y.(rank := rank), collate) == IsAhead(x, y, collate)
    ensures IsAhead(y.(rank := rank), x, collate) == IsAhead(y, x, collate)
  {
  }

  lemma UnrankedPrefix(sorted: seq<TopPost>, limit: nat)
    requires forall e | e in sorted :: e.rank == 0
    ensures var board := Ranked(sorted, limit); Unranked(board) == sorted[..|board|]
  {
    var board := Ranked(sorted, limit);
    forall i | 0 <= i < |board|
      ensures Unranked(board)[i] == sorted[i]
    {
      assert sorted[i] in sorted;
    }
  }

  lemma {:induction false} EntriesUnranked(totals: seq<PostTotals>, posts: seq<PublishedPost>, platform: string)
    ensures forall e | e in Entries(totals, posts, platform) :: e.rank == 0 && e.platform == platform
    decreases totals
  {
    if totals != [] {
      EntriesUnranked(totals[..|totals| - 1], posts, platform);
    }
  }

  // ---------------------------------------------------------------- the boards together

  function OnPlatform(platform: string): TopPost -> bool { (e: TopPost) => e.platform == platform }

  lemma BoardOnPlatform(totals: seq<PostTotals>, posts: seq<PublishedPost>, name: string, limit: nat, collate: (string, string) -> int, platform: string)
    ensures var board := Board(totals, posts, name, limit, collate);
            Filter(board, OnPlatform(platform)) == if name == platform then board else []
  {
    var board := Board(totals, posts, name, limit, collate);
    EntriesUnranked(totals, posts, name);
    SortMembers(Entries(totals, posts, name), Ahead(collate));
    hide Entries;
    var sorted := Sort(Entries(totals, posts, name), Ahead(collate));
    hide Sort;
    forall e | e in board
      ensures e.platform == name
    {
      var i :| 0 <= i < |board| && board[i] == e;
      assert sorted[i] in sorted;
    }
    FilterAllOrNone(board, OnPlatform(platform), name == platform);
  }

  lemma {:induction false} FilterAllOrNone(s: seq<TopPost>, keep: TopPost -> bool, all: bool)
    requires forall e | e in s :: keep(e) == all
    ensures Filter(s, keep) == if all then s else []
    decreases s
  {
    if s != [] {
      assert s == s[..|s| - 1] + [s[|s| - 1]];
      FilterAllOrNone(s[..|s| - 1], keep, all);
    }
  }

  lemma {:induction false} BoardsByPlatform(totals: seq<PostTotals>, posts: seq<PublishedPost>, names: seq<string>, limit: nat, collate: (string, string) -> int, platform: string)
    requires AllDistinct(names)
    ensures Filter(Boards(totals, posts, names, limit, collate), OnPlatform(platform))
         == if platform in names then Board(totals, posts, platform, limit, collate) else []
    decreases names
  {
    if names != [] {
      var init, last := names[..|names| - 1], names[|names| - 1];
      assert names == init + [last];
      assert AllDistinct(init) && last !in init;
      BoardsByPlatform(totals, posts, init, limit, collate, platform);
      OneMoreBoard(totals, posts, init, last, limit, collate, platform);
      hide *;
    }
  }

  lemma OneMoreBoard(totals: seq<PostTotals>, posts: seq<PublishedPost>, init: seq<string>, last: string, limit: nat, collate: (string, string) -> int, platform: string)
    requires last !in init
    requires Filter(Boards(totals, posts, init, limit, collate), OnPlatform(platform))
          == if platform in init then Board(totals, posts, platform, limit, collate) else []
    ensures Filter(Boards(totals, posts, init + [last], limit, collate), OnPlatform(platform))
         == if platform in init + [last] then Board(totals, posts, platform, limit, collate) else []
  {
    hide *;
    var board := Board(totals, posts, last, limit, collate);
    BoardsSnoc(totals, posts, init, last, limit, collate);
    BoardOnPlatform(totals, posts, last, limit, collate, platform);
    FilterConcat(Boards(totals, posts, init, limit, collate), board, OnPlatform(platform));
    if platform == last {
      assert platform in init + [last] && [] + board == board;
    } else {
      assert platform in init + [last] <==> platform in init;
    }
  }

  lemma BoardsSnoc(totals: seq<PostTotals>, posts: seq<PublishedPost>, names: seq<string>, last: string, limit: nat, collate: (string, string) -> int)
    ensures Boards(totals, posts, names + [last], limit, collate)
         == Boards(totals, posts, names, limit, collate) + Board(totals, posts, last, limit, collate)
  {
    assert (names + [last])[..|names|] == names;
  }

  ghost predicate HasPost(totals: seq<PostTotals>, platform: string) { exists t :: t in totals && t.platform == platform }

  lemma {:induction false} TotalPlatformsAre(totals: seq<PostTotals>)
    ensures AllDistinct(TotalPlatforms(totals))
    ensures forall p :: p in TotalPlatforms(totals) <==> HasPost(totals, p)
    decreases totals
  {
    if totals != [] {
      var n := |totals| - 1;
      TotalPlatformsAre(totals[..n]);
      assert totals == totals[..n] + [totals[n]];
      forall p
        ensures HasPost(totals, p) <==> HasPost(totals[..n], p) || totals[n].platform == p
      {
        if HasPost(totals[..n], p) {
          var t :| t in totals[..n] && t.platform == p;
          assert t in totals;
        }
      }
      hide HasPost;
    }
  }

  lemma {:induction false} EntriesOfAbsent(totals: seq<PostTotals>, posts: seq<PublishedPost>, platform: string)
    requires forall t | t in totals :: t.platform != platform
    ensures Entries(totals, posts, platform) == []
    decreases totals
  {
    if totals != [] {
      EntriesOfAbsent(totals[..|totals| - 1], posts, platform);
      assert totals[|totals| - 1] in totals;
    }
  }

  lemma {:induction false} EntriesOfWanted(totals: seq<PostTotals>, posts: seq<PublishedPost>, only: Option<string>, platform: string)
    ensures Entries(Filter(totals, IsWanted(only)), posts, platform)
         == if only.None? || only.value == platform then Entries(totals, posts, platform) else []
    decreases totals
  {
    hide Filter, Entries, Entry;
    if totals == [] {
      NothingWanted(posts, only, platform);
    } else {
      var n := |totals| - 1;
      var init, last := totals[..n], totals[n];
      EntriesOfWanted(init, posts, only, platform);
      assert totals == init + [last];
      FilterSnoc(init, last, IsWanted(only));
      EntriesOfSnoc(init, last, posts, platform);
      EntriesOfSnoc(Filter(init, IsWanted(only)), last, posts, platform);
    }
  }

  lemma NothingWanted(posts: seq<PublishedPost>, only: Option<string>, platform: string)
    ensures Entries(Filter([], IsWanted(only)), posts, platform) == [] && Entries([], posts, platform) == []
  {
  }

  /**
   * The leaderboard restricted to a platform is that platform's board over all totals, whether
   * the caller asked for one platform or for all of them; names ascend.
   */
  lemma LeaderboardByPlatform(totals: seq<PostTotals>, posts: seq<PublishedPost>, limit: nat, only: Option<string>, collate: (string, string) -> int, platform: string)
    ensures Filter(Leaderboard(totals, posts, limit, only, collate), OnPlatform(platform))
         == if only.None? || only.value == platform then Board(totals, posts, platform, limit, collate) else []
  {
    var wanted := Filter(totals, IsWanted(only));
    TotalPlatformsAre(wanted);
    var names := SortNames(TotalPlatforms(wanted));
    SortDistinct(TotalPlatforms(wanted), Before);
    SortMembers(TotalPlatforms(wanted), Before);
    BoardsByPlatform(wanted, posts, names, limit, collate, platform);
    EntriesOfWanted(totals, posts, only, platform);
    if platform !in names {
      assert !HasPost(wanted, platform);
      EntriesOfAbsent(wanted, posts, platform);
    }
    EmptyBoard(totals, posts, platform, limit, collate);
    hide Entries, Sort, Boards, Filter, TotalPlatforms;
  }

  /** By platform, then by rank. */
  ghost predicate ByPlatformAndRank(s: seq<TopPost>) {
    forall i, j | 0 <= i < j < |s| ::
      Before(s[i].platform, s[j].platform) || (s[i].platform == s[j].platform && s[i].rank < s[j].rank)
  }

  lemma BoardRanks(totals: seq<PostTotals>, posts: seq<PublishedPost>, name: string, limit: nat, collate: (string, string) -> int)
    ensures var board := Board(totals, posts, name, limit, collate);
            forall i | 0 <= i < |board| :: board[i].platform == name && board[i].rank == i + 1
  {
    var entries, before := Entries(totals, posts, name), Ahead(collate);
    EntriesUnranked(totals, posts, name);
    SortMembers(entries, before);
    var sorted := Sort(entries, before);
    hide Entries, Sort, Ahead;
    assert forall i | 0 <= i < |sorted| :: sorted[i] in sorted;
  }

  lemma AppendBoard(before: seq<TopPost>, board: seq<TopPost>, names: seq<string>, name: string)
    requires ByPlatformAndRank(before) && (forall e | e in before :: e.platform in names)
    requires forall i | 0 <= i < |board| :: board[i].platform == name && board[i].rank == i + 1
    requires forall n | n in names :: Before(n, name)
    ensures ByPlatformAndRank(before + board) && forall e | e in before + board :: e.platform in names + [name]
  {
    assert forall i | 0 <= i < |before| :: before[i] in before;
  }

  lemma {:induction false} BoardsInOrder(totals: seq<PostTotals>, posts: seq<PublishedPost>, names: seq<string>, limit: nat, collate: (string, string) -> int)
    requires Ascending(names)
    ensures ByPlatformAndRank(Boards(totals, posts, names, limit, collate))
    ensures forall e | e in Boards(totals, posts, names, limit, collate) :: e.platform in names
    decreases names
  {
    if names != [] {
      var init, last := names[..|names| - 1], names[|names| - 1];
      assert names == init + [last];
      BoardsInOrder(totals, posts, init, limit, collate);
      BoardRanks(totals, posts, last, limit, collate);
      AppendBoard(Boards(totals, posts, init, limit, collate), Board(totals, posts, last, limit, collate), init, last);
      hide Board, ByPlatformAndRank;
    }
  }

  /** The leaderboard is ordered by platform and then by rank. */
  lemma LeaderboardInOrder(totals: seq<PostTotals>, posts: seq<PublishedPost>, limit: nat, only: Option<string>, collate: (string, string) -> int)
    ensures ByPlatformAndRank(Leaderboard(totals, posts, limit, only, collate))
  {
    var wanted := Filter(totals, IsWanted(only));
    NamesOfTotals(wanted);
    BoardsInOrder(wanted, posts, SortNames(TotalPlatforms(wanted)), limit, collate);
    hide Filter, SortNames, TotalPlatforms, Boards;
  }

  lemma EmptyBoard(totals: seq<PostTotals>, posts: seq<PublishedPost>, platform: string, limit: nat, collate: (string, string) -> int)
    ensures Entries(totals, posts, platform) == [] ==> Board(totals, posts, platform, limit, collate) == []
  {
  }

  // ---------------------------------------------------------------- agreement with the roll-up

  function SumEngagement(board: seq<TopPost>): real {
    if board == [] then 0.0 else SumEngagement(board[..|board| - 1]) + board[|board| - 1].engagement
  }

  lemma {:induction false} SumOfInsert(x: TopPost, s: seq<TopPost>, before: (TopPost, TopPost) -> bool)
    ensures SumEngagement(Insert(x, s, before)) == SumEngagement(s) + x.engagement
    decreases s
  {
    if s != [] {
      SumOfInsert(x, s[..|s| - 1], before);
    }
  }

  lemma {:induction false} SumOfSort(s: seq<TopPost>, before: (TopPost, TopPost) -> bool)
    ensures SumEngagement(Sort(s, before)) == SumEngagement(s)
    decreases s
  {
    if s != [] {
      SumOfSort(s[..|s| - 1], before);
      SumOfInsert(s[|s| - 1], Sort(s[..|s| - 1], before), before);
    }
  }

  lemma SumOfSnoc(board: seq<TopPost>, e: TopPost)
    ensures SumEngagement(board + [e]) == SumEngagement(board) + e.engagement
  {
    assert (board + [e])[..|board|] == board;
  }

  lemma {:induction false} SumOfEntries(totals: seq<PostTotals>, posts: seq<PublishedPost>, platform: string)
    ensures SumEngagement(Entries(totals, posts, platform)) == SumFor(totals, platform, Engagement)
    ensures |Entries(totals, posts, platform)| as real == SumFor(totals, platform, Posts)
    decreases totals
  {
    if totals != [] {
      var n := |totals| - 1;
      SumOfEntries(totals[..n], posts, platform);
      var before := Entries(totals[..n], posts, platform);
      assert before + [] == before;
      SumOfSnoc(before, Entry(totals[n], posts));
    }
  }

  lemma {:induction false} SumOfRanked(list: seq<TopPost>, limit: nat)
    requires limit <= |list|
    ensures SumEngagement(Ranked(list, limit)) == SumEngagement(list[..limit])
    decreases limit
  {
    if limit > 0 {
      SumOfRanked(list, limit - 1);
      assert Ranked(list, limit)[..limit - 1] == Ranked(list, limit - 1);
      assert list[..limit][..limit - 1] == list[..limit - 1];
    }
  }

  lemma {:induction false} SumOfPrefix(list: seq<TopPost>, limit: nat)
    requires limit <= |list| && forall e | e in list :: e.engagement >= 0.0
    ensures SumEngagement(list[..limit]) <= SumEngagement(list)
    decreases |list| - limit
  {
    if limit == |list| {
      assert list[..limit] == list;
    } else {
      SumOfPrefix(list, limit + 1);
      assert list[..limit + 1][..limit] == list[..limit];
      assert list[limit] in list;
    }
  }

  /**
   * The board has as many entries as the roll-up counts posts, up to the limit, and sums to
   * the roll-up's engagement when the limit does not bind; for non-negative readings it never
   * sums to more.
   */
  lemma BoardAgreesWithRollup(insights: seq<InsightRow>, posts: seq<PublishedPost>, now: int, days: int, platform: string, limit: nat, collate: (string, string) -> int)
    ensures var board := Board(Totals(insights, now, days), posts, platform, limit, collate);
            var count := Value(insights, now, days, platform, OfPosts(Posts));
            && |board| as real == (if limit as real <= count then limit as real else count)
            && (limit as real >= count ==> SumEngagement(board) == Value(insights, now, days, platform, OfPosts(Engagement)))
            && (NonNegative(insights) ==> SumEngagement(board) <= Value(insights, now, days, platform, OfPosts(Engagement)))
  {
    var totals := Totals(insights, now, days);
    var entries := Entries(totals, posts, platform);
    var sorted := Sort(entries, Ahead(collate));
    SumOfEntries(totals, posts, platform);
    SumOfSort(entries, Ahead(collate));
    SortPermutes(entries, Ahead(collate));
    var shown := if limit <= |sorted| then limit else |sorted|;
    SumOfRanked(sorted, shown);
    assert Ranked(sorted, shown) == Ranked(sorted, limit);
    if NonNegative(insights) {
      forall e | e in sorted
        ensures e.engagement >= 0.0
      {
        SortMembers(entries, Ahead(collate));
        EntriesNonNegative(insights, now, days, posts, platform);
      }
      SumOfPrefix(sorted, shown);
    }
    assert sorted[..|sorted|] == sorted;
    hide Sort, Entries, Totals, SumEngagement, SumFor, NonNegative, Ranked;
  }

  lemma EntriesNonNegative(insights: seq<InsightRow>, now: int, days: int, posts: seq<PublishedPost>, platform: string)
    requires NonNegative(insights)
    ensures forall e | e in Entries(Totals(insights, now, days), posts, platform) :: e.engagement >= 0.0
  {
    var totals := Totals(insights, now, days);
    forall t | t in totals
      ensures t.engagement >= 0.0
    {
      SumOfMaxGrows(EngagementMetrics(), insights, now, days, days, Key(t.platform, t.objectId));
    }
    EntriesFromTotals(totals, posts, platform);
    hide Totals, Entries;
  }

  lemma {:induction false} EntriesFromTotals(totals: seq<PostTotals>, posts: seq<PublishedPost>, platform: string)
    ensures forall e | e in Entries(totals, posts, platform) :: exists t :: t in totals && e == Entry(t, posts)
    decreases totals
  {
    if totals != [] {
      var n := |totals| - 1;
      EntriesFromTotals(totals[..n], posts, platform);
      assert totals == totals[..n] + [totals[n]];
      forall e | e in Entries(totals, posts, platform)
        ensures exists t :: t in totals && e == Entry(t, posts)
      {
        if e in Entries(totals[..n], posts, platform) {
          var t :| t in totals[..n] && e == Entry(t, posts);
          assert t in totals;
        } else {
          assert totals[n] in totals && e == Entry(totals[n], posts);
        }
      }
    }
  }

  // ---------------------------------------------------------------- week over week

  datatype Delta = Delta(platform: string, thisWeek: real, lastWeek: real, delta: real, pctChange: Option<real>)

  function Change(platform: string, thisWeek: real, lastWeek: real): Delta {
    Delta(platform, thisWeek, lastWeek, thisWeek - lastWeek,
          if lastWeek == 0.0 then None else Some((thisWeek - lastWeek) / lastWeek * 100.0))
  }

  function DeltaNames(these: seq<PostTotals>, last: seq<PostTotals>): seq<string> { SortNames(TotalPlatforms(these + last)) }

  function Deltas(insights: seq<InsightRow>, now: int): seq<Delta> {
    var names := DeltaNames(Totals(insights, now, 7), Totals(insights, now - 7 * DAY_MS, 7));
    seq(|names|, i requires 0 <= i < |names| =>
      Change(names[i], Value(insights, now, 7, names[i], OfPosts(Engagement)),
             Value(insights, now - 7 * DAY_MS, 7, names[i], OfPosts(Engagement))))
  }

  function TotalsOn(platform: string): PostTotals -> bool { (t: PostTotals) => t.platform == platform }

  ghost predicate IsSplit(m: map<string, seq<PostTotals>>, totals: seq<PostTotals>) {
    forall p :: Filter(totals, TotalsOn(p)) == if p in m then m[p] else []
  }

  method SplitByPlatform(totals: seq<PostTotals>, before: seq<PostTotals>, platforms: seq<string>)
    returns (byPlatform: map<string, seq<PostTotals>>, more: seq<string>)
    requires platforms == TotalPlatforms(before)
    ensures IsSplit(byPlatform, totals) && more == TotalPlatforms(before + totals)
  {
    byPlatform, more := map[], platforms;
    assert before + [] == before;
    for n := 0 to |totals|
      invariant IsSplit(byPlatform, totals[..n]) && more == TotalPlatforms(before + totals[..n])
    {
      var t := totals[n];
      PlatformsSnoc(before, totals, n);
      more := AddName(more, t.platform);
      AddSplit(byPlatform, totals, n);
      byPlatform := byPlatform[t.platform := (if t.platform in byPlatform then byPlatform[t.platform] else []) + [t]];
      hide IsSplit, TotalPlatforms, AddName;
    }
    assert totals[..|totals|] == totals;
  }

  lemma PlatformsSnoc(before: seq<PostTotals>, totals: seq<PostTotals>, n: nat)
    requires n < |totals|
    ensures TotalPlatforms(before + totals[..n + 1]) == AddName(TotalPlatforms(before + totals[..n]), totals[n].platform)
  {
    assert (before + totals[..n + 1])[..|before| + n] == before + totals[..n];
  }

  lemma AddSplit(m: map<string, seq<PostTotals>>, totals: seq<PostTotals>, n: nat)
    requires n < |totals| && IsSplit(m, totals[..n])
    ensures var t := totals[n];
            IsSplit(m[t.platform := (if t.platform in m then m[t.platform] else []) + [t]], totals[..n + 1])
  {
    assert totals[..n + 1] == totals[..n] + [totals[n]];
    forall p
      ensures Filter(totals[..n + 1], TotalsOn(p)) == if totals[n].platform == p then Filter(totals[..n], TotalsOn(p)) + [totals[n]] else Filter(totals[..n], TotalsOn(p))
    {
      FilterSnoc(totals[..n], totals[n], TotalsOn(p));
    }
    hide Filter;
    forall p
      ensures var t, after := totals[n], m[totals[n].platform := (if totals[n].platform in m then m[totals[n].platform] else []) + [totals[n]]];
              Filter(totals[..n + 1], TotalsOn(p)) == if p in after then after[p] else []
    {
      assert Filter(totals[..n], TotalsOn(p)) == if p in m then m[p] else [];
    }
  }

  /** The reduce over one platform's totals. */
  method TotalEngagement(totals: seq<PostTotals>, all: seq<PostTotals>, platform: string) returns (sum: real)
    requires totals == Filter(all, TotalsOn(platform))
    ensures sum == SumFor(all, platform, Engagement)
  {
    sum := 0.0;
    for n := 0 to |totals|
      invariant sum == SumAll(totals[..n])
    {
      assert totals[..n + 1][..n] == totals[..n];
      sum := sum + totals[n].engagement;
    }
    assert totals[..|totals|] == totals;
    SumOfPlatform(all, platform);
  }

  function SumAll(totals: seq<PostTotals>): real {
    if totals == [] then 0.0 else SumAll(totals[..|totals| - 1]) + totals[|totals| - 1].engagement
  }

  lemma {:induction false} SumOfPlatform(all: seq<PostTotals>, platform: string)
    ensures SumAll(Filter(all, TotalsOn(platform))) == SumFor(all, platform, Engagement)
    decreases all
  {
    if all != [] {
      var init, last := all[..|all| - 1], all[|all| - 1];
      var kept := Filter(init, TotalsOn(platform));
      SumOfPlatform(init, platform);
      assert all == init + [last];
      FilterSnoc(init, last, TotalsOn(platform));
      assert (kept + [last])[..|kept|] == kept;
    }
  }

  method WeekOverWeekDeltas(insights: seq<InsightRow>, now: int) returns (deltas: seq<Delta>)
    ensures deltas == Deltas(insights, now)
  {
    hide Totals, SumFor, Filter, Sort, TotalPlatforms;
    var these := AggregatePostMetrics(insights, now, 7);
    var last := AggregatePostMetrics(insights, now - 7 * DAY_MS, 7);
    NoPlatforms();
    var thisByPlatform, some := SplitByPlatform(these, [], []);
    assert [] + these == these;
    var lastByPlatform, platforms := SplitByPlatform(last, these, some);
    var names := SortNames(platforms);
    deltas := [];
    for n := 0 to |names|
      invariant deltas == Deltas(insights, now)[..n]
    {
      var p := names[n];
      assert IsSplit(thisByPlatform, these) && IsSplit(lastByPlatform, last);
      var thisWeek := TotalEngagement(if p in thisByPlatform then thisByPlatform[p] else [], these, p);
      var lastWeek := TotalEngagement(if p in lastByPlatform then lastByPlatform[p] else [], last, p);
      deltas := deltas + [Change(p, thisWeek, lastWeek)];
    }
  }

  lemma NoPlatforms()
    ensures TotalPlatforms([]) == []
  {
  }

  /** Every total comes from an insight row of its platform. */
  lemma TotalsMention(insights: seq<InsightRow>, now: int, days: int, t: PostTotals)
    requires t in Totals(insights, now, days)
    ensures Mentions(insights, [], t.platform)
  {
    FirstRowsListPosts(insights, now, days);
    var firsts := FirstRows(insights, now, days);
    hide FirstRows, SumOfMax;
    var i :| 0 <= i < |firsts| && t.platform == firsts[i].platform;
    assert firsts[i] in firsts;
  }

  /**
   * The report and the roll-up agree: a delta's thisWeek is the engagement row of the same
   * platform in any roll-up at the same instant that includes the 7-day window.
   */
  lemma ThisWeekIsRollupRow(insights: seq<InsightRow>, posts: seq<PublishedPost>, now: int, windows: seq<int>, capturedFor: string, d: Delta)
    requires d in Deltas(insights, now) && 7 in windows
    ensures RollupRow(d.platform, 7, "engagement", d.thisWeek, capturedFor)
         in RollupRows(insights, PlatformNames(insights, posts), now, windows, capturedFor)
  {
    var these, last := Totals(insights, now, 7), Totals(insights, now - 7 * DAY_MS, 7);
    var names := DeltaNames(these, last);
    var i :| 0 <= i < |names| && d == Deltas(insights, now)[i];
    DeltaPlatform(insights, posts, now, d.platform, names);
    var r := RollupRow(d.platform, 7, "engagement", d.thisWeek, capturedFor);
    RollupIsComplete(insights, PlatformNames(insights, posts), now, windows, capturedFor, r);
    hide Totals, PlatformNames, RollupRows, Value;
    assert METRICS[0] == OfPosts(Engagement) && MetricName(OfPosts(Engagement)) == "engagement";
    assert IsRowOf(r, insights, PlatformNames(insights, posts), now, windows, capturedFor);
  }

  lemma DeltaPlatform(insights: seq<InsightRow>, posts: seq<PublishedPost>, now: int, platform: string, names: seq<string>)
    requires names == DeltaNames(Totals(insights, now, 7), Totals(insights, now - 7 * DAY_MS, 7)) && platform in names
    ensures platform in PlatformNames(insights, posts)
  {
    var these, last := Totals(insights, now, 7), Totals(insights, now - 7 * DAY_MS, 7);
    hide Totals;
    TotalPlatformsAre(these + last);
    SortMembers(TotalPlatforms(these + last), Before);
    hide Sort, TotalPlatforms;
    assert HasPost(these + last, platform);
    var t: PostTotals :| t in these + last && t.platform == platform;
    if t in these {
      TotalsMention(insights, now, 7, t);
    } else {
      TotalsMention(insights, now - 7 * DAY_MS, 7, t);
    }
    PlatformNamesList(insights, posts);
  }

  /**
   * The two weeks together are the trailing fourteen days, but they are not disjoint: a
   * reading captured exactly seven days before now is in both.
   */
  lemma WeeksShareOneInstant(capturedFor: string, now: int)
    ensures var recent, earlier := WithinWindow(capturedFor, now, 7), WithinWindow(capturedFor, now - 7 * DAY_MS, 7);
            && (recent && earlier <==> ParseDayKeyMs(capturedFor) == Some(now - 7 * DAY_MS))
            && (recent || earlier <==> WithinWindow(capturedFor, now, 14))
  {
    hide ParseDayKeyMs;
  }

  /** Movement in its own terms: what came on top of last week, and its share of last week if there was any. */
  ghost predicate IsMovement(d: Delta) {
    && d.thisWeek == d.lastWeek + d.delta
    && (d.pctChange.None? <==> d.lastWeek == 0.0)
    && (d.pctChange.Some? ==> d.pctChange.value * d.lastWeek == d.delta * 100.0)
    && (d.pctChange.Some? && d.lastWeek > 0.0 ==> (d.pctChange.value > 0.0 <==> d.thisWeek > d.lastWeek))
  }

  lemma ChangeIsMovement(platform: string, thisWeek: real, lastWeek: real)
    ensures IsMovement(Change(platform, thisWeek, lastWeek))
  {
    if lastWeek != 0.0 {
      var q := (thisWeek - lastWeek) / lastWeek;
      assert q * lastWeek == thisWeek - lastWeek;
      assert q * 100.0 * lastWeek == q * lastWeek * 100.0;
      if lastWeek > 0.0 {
        SameSign(q, lastWeek);
      }
    }
  }

  lemma SameSign(q: real, c: real)
    requires c > 0.0
    ensures q > 0.0 <==> q * c > 0.0
  {
  }

  /** Every reported change is a movement between two roll-up rows: this week's, and that of the same roll-up seven days ago. */
  lemma DeltaMovesBetweenRollups(insights: seq<InsightRow>, posts: seq<PublishedPost>, now: int, windows: seq<int>, today: string, before: string, d: Delta)
    requires d in Deltas(insights, now) && 7 in windows
    ensures IsMovement(d)
    ensures RollupRow(d.platform, 7, "engagement", d.thisWeek, today)
         in RollupRows(insights, PlatformNames(insights, posts), now, windows, today)
    ensures RollupRow(d.platform, 7, "engagement", d.lastWeek, before)
         in RollupRows(insights, PlatformNames(insights, posts), now - 7 * DAY_MS, windows, before)
  {
    ThisWeekIsRollupRow(insights, posts, now, windows, today, d);
    var names := DeltaNames(Totals(insights, now, 7), Totals(insights, now - 7 * DAY_MS, 7));
    var i :| 0 <= i < |names| && d == Deltas(insights, now)[i];
    DeltaPlatform(insights, posts, now, d.platform, names);
    ChangeIsMovement(d.platform, d.thisWeek, d.lastWeek);
    var r := RollupRow(d.platform, 7, "engagement", d.lastWeek, before);
    RollupIsComplete(insights, PlatformNames(insights, posts), now - 7 * DAY_MS, windows, before, r);
    hide Totals, PlatformNames, RollupRows, Value, IsMovement;
    assert METRICS[0] == OfPosts(Engagement) && MetricName(OfPosts(Engagement)) == "engagement";
    assert IsRowOf(r, insights, PlatformNames(insights, posts), now - 7 * DAY_MS, windows, before);
  }

  /** A change is reported for exactly the platforms with a counted post in either week, once each, by name. */
  lemma DeltasListPlatforms(insights: seq<InsightRow>, now: int, platform: string)
    ensures var these, last, deltas := Totals(insights, now, 7), Totals(insights, now - 7 * DAY_MS, 7), Deltas(insights, now);
            && ((exists i :: 0 <= i < |deltas| && deltas[i].platform == platform) <==> HasPost(these, platform) || HasPost(last, platform))
            && forall i, j | 0 <= i < j < |deltas| :: Before(deltas[i].platform, deltas[j].platform)
  {
    var these, last, deltas := Totals(insights, now, 7), Totals(insights, now - 7 * DAY_MS, 7), Deltas(insights, now);
    var names := DeltaNames(these, last);
    assert |deltas| == |names| && forall i | 0 <= i < |names| :: deltas[i].platform == names[i];
    hide Totals, Deltas, Value;
    NamesOfTotals(these + last);
    assert platform in names <==> exists i :: 0 <= i < |names| && names[i] == platform;
    EitherHasPost(these, last, platform);
    hide DeltaNames, HasPost;
  }

  lemma NamesOfTotals(totals: seq<PostTotals>)
    ensures var names := SortNames(TotalPlatforms(totals));
            Ascending(names) && forall p :: p in names <==> HasPost(totals, p)
  {
    TotalPlatformsAre(totals);
    SortNamesSorts(TotalPlatforms(totals));
    hide TotalPlatforms, SortNames, HasPost;
  }

  lemma EitherHasPost(a: seq<PostTotals>, b: seq<PostTotals>, platform: string)
    ensures HasPost(a + b, platform) <==> HasPost(a, platform) || HasPost(b, platform)
  {
    if HasPost(a + b, platform) {
      var t :| t in a + b && t.platform == platform;
      assert t in a || t in b;
    }
    if HasPost(a, platform) {
      var t :| t in a && t.platform == platform;
      assert t in a + b;
    }
    if HasPost(b, platform) {
      var t :| t in b && t.platform == platform;
      assert t in a + b;
    }
  }
}
