/**
 * The roll-up: per window and platform the summed engagement, post count, summed
 * impressions and largest follower reading, and how those values move with the window.
 */
module Rollup {
  import opened Wrappers
  import opened Aggregator
  import opened Sorting
  import opened Text

  datatype PublishedPost = PublishedPost(platform: string, externalId: string, publishedAt: int)

  datatype RollupRow = RollupRow(platform: string, windowDays: int, metric: string, value: real, capturedFor: string)

  const ROLLUP_WINDOWS: seq<int> := [7, 30, 90]

  // ---------------------------------------------------------------- the values of a platform

  predicate ReadsFollowers(r: InsightRow, now: int, days: int, platform: string) {
    Lower(r.metric) == FOLLOWERS && WithinWindow(r.capturedFor, now, days) && r.platform == platform
  }

  function MaxFollowers(rows: seq<InsightRow>, now: int, days: int, platform: string): Option<real> {
    if rows == [] then None
    else
      var before, r := MaxFollowers(rows[..|rows| - 1], now, days, platform), rows[|rows| - 1];
      if ReadsFollowers(r, now, days, platform) && (before.None? || r.value > before.value) then Some(r.value) else before
  }

  datatype Measure = Engagement | Impressions | Posts

  function Measured(t: PostTotals, f: Measure): real {
    match f
    case Engagement => t.engagement
    case Impressions => t.impressions
    case Posts => 1.0
  }

  /** The sum of a measure over the posts of one platform. */
  function SumFor(totals: seq<PostTotals>, platform: string, f: Measure): real {
    if totals == [] then 0.0
    else
      var last := totals[|totals| - 1];
      SumFor(totals[..|totals| - 1], platform, f) + (if last.platform == platform then Measured(last, f) else 0.0)
  }

  datatype RollupMetric = OfPosts(f: Measure) | Followers

  const METRICS: seq<RollupMetric> := [OfPosts(Engagement), OfPosts(Posts), OfPosts(Impressions), Followers]

  function MetricName(m: RollupMetric): string {
    match m
    case OfPosts(Engagement) => "engagement"
    case OfPosts(Posts) => "posts"
    case OfPosts(Impressions) => "impressions"
    case Followers => "followers"
  }

  /** What a roll-up row of this platform, window and metric says. */
  function Value(insights: seq<InsightRow>, now: int, days: int, platform: string, m: RollupMetric): real {
    match m
    case OfPosts(f) => SumFor(Totals(insights, now, days), platform, f)
    case Followers =>
      var most := MaxFollowers(insights, now, days, platform);
      if most.Some? then most.value else 0.0
  }

  // ---------------------------------------------------------------- sorted platform names

  ghost predicate Ascending(names: seq<string>) { forall i, j | 0 <= i < j < |names| :: Before(names[i], names[j]) }

  function SortNames(names: seq<string>): seq<string> { Sort(names, Before) }

  /** A `Set` of strings, in insertion order. */
  function AddName(names: seq<string>, name: string): seq<string> {
    if name in names then names else names + [name]
  }

  function InsightPlatforms(insights: seq<InsightRow>): seq<string> {
    if insights == [] then []
    else AddName(InsightPlatforms(insights[..|insights| - 1]), insights[|insights| - 1].platform)
  }

  function AllPlatforms(insights: seq<InsightRow>, posts: seq<PublishedPost>): seq<string> {
    if posts == [] then InsightPlatforms(insights)
    else AddName(AllPlatforms(insights, posts[..|posts| - 1]), posts[|posts| - 1].platform)
  }

  /** The platforms of the insights and the posts, sorted. */
  function PlatformNames(insights: seq<InsightRow>, posts: seq<PublishedPost>): seq<string> {
    SortNames(AllPlatforms(insights, posts))
  }

  // ---------------------------------------------------------------- the rows

  function PlatformRows(insights: seq<InsightRow>, name: string, now: int, days: int, capturedFor: string): seq<RollupRow> {
    seq(4, i requires 0 <= i < 4 =>
      RollupRow(name, days, MetricName(METRICS[i]), Value(insights, now, days, name, METRICS[i]), capturedFor))
  }

  function WindowRows(insights: seq<InsightRow>, names: seq<string>, now: int, days: int, capturedFor: string): seq<RollupRow> {
    if names == [] then []
    else
      WindowRows(insights, names[..|names| - 1], now, days, capturedFor)
      + PlatformRows(insights, names[|names| - 1], now, days, capturedFor)
  }

  function RollupRows(insights: seq<InsightRow>, names: seq<string>, now: int, windows: seq<int>, capturedFor: string): seq<RollupRow> {
    if windows == [] then []
    else
      RollupRows(insights, names, now, windows[..|windows| - 1], capturedFor)
      + WindowRows(insights, names, now, windows[|windows| - 1], capturedFor)
  }

  // ---------------------------------------------------------------- the computation

  ghost predicate HoldsFollowers(m: map<string, real>, rows: seq<InsightRow>, now: int, days: int) {
    forall p :: MaxFollowers(rows, now, days, p) == if p in m then Some(m[p]) else None
  }

  method FollowersByPlatform(insights: seq<InsightRow>, now: int, days: int) returns (followers: map<string, real>)
    ensures HoldsFollowers(followers, insights, now, days)
  {
    followers := map[];
    for n := 0 to |insights|
      invariant HoldsFollowers(followers, insights[..n], now, days)
    {
      var row := insights[n];
      assert insights[..n + 1][..n] == insights[..n];
      if Lower(row.metric) != FOLLOWERS || !WithinWindow(row.capturedFor, now, days) {
        continue;
      }
      if row.platform !in followers || row.value > followers[row.platform] {
        followers := followers[row.platform := row.value];
      }
    }
    assert insights[..|insights|] == insights;
  }

  function Get(m: map<string, real>, p: string): real { if p in m then m[p] else 0.0 }

  ghost predicate HoldsSums(m: map<string, real>, totals: seq<PostTotals>, f: Measure) {
    forall p :: Get(m, p) == SumFor(totals, p, f)
  }

  method SumByPlatform(totals: seq<PostTotals>)
    returns (engagement: map<string, real>, impressions: map<string, real>, posts: map<string, real>)
    ensures HoldsSums(engagement, totals, Engagement)
    ensures HoldsSums(impressions, totals, Impressions)
    ensures HoldsSums(posts, totals, Posts)
  {
    engagement, impressions, posts := map[], map[], map[];
    for n := 0 to |totals|
      invariant HoldsSums(engagement, totals[..n], Engagement)
      invariant HoldsSums(impressions, totals[..n], Impressions)
      invariant HoldsSums(posts, totals[..n], Posts)
    {
      var t := totals[n];
      AddTotal(engagement, totals, n, Engagement);
      AddTotal(impressions, totals, n, Impressions);
      AddTotal(posts, totals, n, Posts);
      engagement := engagement[t.platform := Get(engagement, t.platform) + t.engagement];
      impressions := impressions[t.platform := Get(impressions, t.platform) + t.impressions];
      posts := posts[t.platform := Get(posts, t.platform) + 1.0];
      hide HoldsSums, Get;
    }
    assert totals[..|totals|] == totals;
  }

  lemma AddTotal(m: map<string, real>, totals: seq<PostTotals>, n: nat, f: Measure)
    requires n < |totals| && HoldsSums(m, totals[..n], f)
    ensures var t := totals[n];
            HoldsSums(m[t.platform := Get(m, t.platform) + Measured(t, f)], totals[..n + 1], f)
  {
    var t, after := totals[n], m[totals[n].platform := Get(m, totals[n].platform) + Measured(totals[n], f)];
    assert totals[..n + 1][..n] == totals[..n];
    forall p
      ensures Get(after, p) == SumFor(totals[..n + 1], p, f)
    {
      assert Get(m, p) == SumFor(totals[..n], p, f);
    }
  }

  method CollectPlatforms(insights: seq<InsightRow>, posts: seq<PublishedPost>) returns (platforms: seq<string>)
    ensures platforms == AllPlatforms(insights, posts)
  {
    platforms := [];
    for n := 0 to |insights|
      invariant platforms == InsightPlatforms(insights[..n])
    {
      assert insights[..n + 1][..n] == insights[..n];
      platforms := AddName(platforms, insights[n].platform);
    }
    assert insights[..|insights|] == insights;
    for n := 0 to |posts|
      invariant platforms == AllPlatforms(insights, posts[..n])
    {
      assert posts[..n + 1][..n] == posts[..n];
      platforms := AddName(platforms, posts[n].platform);
    }
    assert posts[..|posts|] == posts;
  }

  /** The rows of one window. */
  method RollupWindow(insights: seq<InsightRow>, names: seq<string>, now: int, days: int, capturedFor: string)
    returns (rows: seq<RollupRow>)
    ensures rows == WindowRows(insights, names, now, days, capturedFor)
  {
    var totals := AggregatePostMetrics(insights, now, days);
    var followers := FollowersByPlatform(insights, now, days);
    var engagement, impressions, posts := SumByPlatform(totals);
    rows := [];
    for n := 0 to |names|
      invariant rows == WindowRows(insights, names[..n], now, days, capturedFor)
    {
      assert names[..n + 1][..n] == names[..n];
      var name := names[n];
      var four := [
        RollupRow(name, days, "engagement", Get(engagement, name), capturedFor),
        RollupRow(name, days, "posts", Get(posts, name), capturedFor),
        RollupRow(name, days, "impressions", Get(impressions, name), capturedFor),
        RollupRow(name, days, "followers", Get(followers, name), capturedFor)
      ];
      FourRows(insights, name, now, days, capturedFor, Get(engagement, name), Get(posts, name), Get(impressions, name), Get(followers, name));
      rows := rows + four;
    }
    assert names[..|names|] == names;
  }

  lemma FourRows(insights: seq<InsightRow>, name: string, now: int, days: int, capturedFor: string, e: real, p: real, i: real, f: real)
    requires e == Value(insights, now, days, name, OfPosts(Engagement)) && p == Value(insights, now, days, name, OfPosts(Posts))
    requires i == Value(insights, now, days, name, OfPosts(Impressions)) && f == Value(insights, now, days, name, Followers)
    ensures PlatformRows(insights, name, now, days, capturedFor)
         == [RollupRow(name, days, "engagement", e, capturedFor), RollupRow(name, days, "posts", p, capturedFor),
             RollupRow(name, days, "impressions", i, capturedFor), RollupRow(name, days, "followers", f, capturedFor)]
  {
    hide Value;
    assert METRICS[0] == OfPosts(Engagement) && METRICS[1] == OfPosts(Posts) && METRICS[2] == OfPosts(Impressions);
  }

  method RollupEngagement(insights: seq<InsightRow>, posts: seq<PublishedPost>, now: int, windows: seq<int>, capturedFor: string)
    returns (rows: seq<RollupRow>)
    ensures rows == RollupRows(insights, PlatformNames(insights, posts), now, windows, capturedFor)
  {
    var platforms := CollectPlatforms(insights, posts);
    var names := SortNames(platforms);
    rows := [];
    for w := 0 to |windows|
      invariant rows == RollupRows(insights, names, now, windows[..w], capturedFor)
    {
      assert windows[..w + 1][..w] == windows[..w];
      var more := RollupWindow(insights, names, now, windows[w], capturedFor);
      rows := rows + more;
    }
    assert windows[..|windows|] == windows;
  }

  // ---------------------------------------------------------------- the platform listing

  lemma SortNamesSorts(names: seq<string>)
    requires AllDistinct(names)
    ensures Ascending(SortNames(names))
    ensures forall x :: x in SortNames(names) <==> x in names
  {
    BeforeIsOrder();
    SortInOrder(names, Before);
    SortDistinct(names, Before);
    SortMembers(names, Before);
    var s := SortNames(names);
    hide Sort;
    forall i, j | 0 <= i < j < |s|
      ensures Before(s[i], s[j])
    {
      BeforeIsTotal(s[i], s[j]);
    }
  }

  /** There is only one ascending listing of a set of names, whatever way it was sorted. */
  lemma {:induction false} AscendingIsUnique(a: seq<string>, b: seq<string>)
    requires Ascending(a) && Ascending(b) && forall x :: x in a <==> x in b
    ensures a == b
    decreases |a|
  {
    EmptyTogether(a, b);
    if a != [] {
      var m, n := |a| - 1, |b| - 1;
      LastIsGreatest(a, b);
      assert a == a[..m] + [a[m]] && b == b[..n] + [b[n]];
      assert Ascending(a[..m]) && Ascending(b[..n]);
      forall x
        ensures x in a[..m] <==> x in b[..n]
      {
        LastOnce(a, x);
        LastOnce(b, x);
      }
      hide Ascending;
      AscendingIsUnique(a[..m], b[..n]);
    }
  }

  lemma EmptyTogether(a: seq<string>, b: seq<string>)
    requires forall x :: x in a <==> x in b
    ensures a == [] <==> b == []
  {
    assert |a| > 0 ==> a[0] in a;
    assert |b| > 0 ==> b[0] in b;
  }

  lemma LastOnce(a: seq<string>, x: string)
    requires Ascending(a) && a != []
    ensures x in a[..|a| - 1] <==> x in a && x != a[|a| - 1]
  {
    assert a == a[..|a| - 1] + [a[|a| - 1]];
    BeforeIsTotal(x, x);
  }

  lemma LastIsGreatest(a: seq<string>, b: seq<string>)
    requires Ascending(a) && Ascending(b) && a != [] && b != [] && forall x :: x in a <==> x in b
    ensures a[|a| - 1] == b[|b| - 1]
  {
    var x, y := a[|a| - 1], b[|b| - 1];
    assert x in a && y in b;
    var i :| 0 <= i < |b| && b[i] == x;
    var j :| 0 <= j < |a| && a[j] == y;
    BeforeIsTotal(x, y);
    hide Before;
  }

  ghost predicate Mentions(insights: seq<InsightRow>, posts: seq<PublishedPost>, platform: string) {
    (exists r :: r in insights && r.platform == platform) || (exists p :: p in posts && p.platform == platform)
  }

  lemma {:induction false} InsightPlatformsAre(insights: seq<InsightRow>)
    ensures AllDistinct(InsightPlatforms(insights))
    ensures forall x :: x in InsightPlatforms(insights) <==> Mentions(insights, [], x)
    decreases insights
  {
    if insights != [] {
      var n := |insights| - 1;
      InsightPlatformsAre(insights[..n]);
      assert insights == insights[..n] + [insights[n]];
      forall x
        ensures Mentions(insights, [], x) <==> Mentions(insights[..n], [], x) || insights[n].platform == x
      {
      }
    }
  }

  lemma {:induction false} AllPlatformsAre(insights: seq<InsightRow>, posts: seq<PublishedPost>)
    ensures AllDistinct(AllPlatforms(insights, posts))
    ensures forall x :: x in AllPlatforms(insights, posts) <==> Mentions(insights, posts, x)
    decreases posts
  {
    if posts == [] {
      InsightPlatformsAre(insights);
    } else {
      var n := |posts| - 1;
      AllPlatformsAre(insights, posts[..n]);
      assert posts == posts[..n] + [posts[n]];
      forall x
        ensures Mentions(insights, posts, x) <==> Mentions(insights, posts[..n], x) || posts[n].platform == x
      {
      }
    }
  }

  /** The platforms of a roll-up are exactly those of an insight or a post, once each, in ascending order. */
  lemma PlatformNamesList(insights: seq<InsightRow>, posts: seq<PublishedPost>)
    ensures Ascending(PlatformNames(insights, posts))
    ensures forall x :: x in PlatformNames(insights, posts) <==> Mentions(insights, posts, x)
  {
    AllPlatformsAre(insights, posts);
    SortNamesSorts(AllPlatforms(insights, posts));
  }

  // ---------------------------------------------------------------- the rows as a whole

  ghost predicate IsRowOf(r: RollupRow, insights: seq<InsightRow>, names: seq<string>, now: int, windows: seq<int>, capturedFor: string) {
    && r.platform in names && r.windowDays in windows && r.capturedFor == capturedFor
    && exists m :: m in METRICS && r.metric == MetricName(m) && r.value == Value(insights, now, r.windowDays, r.platform, m)
  }

  lemma PlatformRowsAre(insights: seq<InsightRow>, name: string, now: int, days: int, capturedFor: string, r: RollupRow)
    ensures r in PlatformRows(insights, name, now, days, capturedFor) <==> IsRowOf(r, insights, [name], now, [days], capturedFor)
  {
    hide Value, MetricName;
    var rows := PlatformRows(insights, name, now, days, capturedFor);
    if IsRowOf(r, insights, [name], now, [days], capturedFor) {
      var m :| m in METRICS && r.metric == MetricName(m) && r.value == Value(insights, now, days, name, m);
      var i :| 0 <= i < 4 && METRICS[i] == m;
      assert rows[i] == r;
    }
    if r in rows {
      var i :| 0 <= i < |rows| && rows[i] == r;
      assert METRICS[i] in METRICS;
    }
  }

  lemma {:induction false} WindowRowsAre(insights: seq<InsightRow>, names: seq<string>, now: int, days: int, capturedFor: string, r: RollupRow)
    ensures r in WindowRows(insights, names, now, days, capturedFor) <==> IsRowOf(r, insights, names, now, [days], capturedFor)
    ensures |WindowRows(insights, names, now, days, capturedFor)| == 4 * |names|
    decreases names
  {
    hide Value, MetricName;
    if names != [] {
      var n := |names| - 1;
      WindowRowsAre(insights, names[..n], now, days, capturedFor, r);
      PlatformRowsAre(insights, names[n], now, days, capturedFor, r);
      assert names == names[..n] + [names[n]];
      assert |PlatformRows(insights, names[n], now, days, capturedFor)| == 4;
    }
  }

  /** The roll-up has one row for every platform, window and metric, zero ones too, and no other row. */
  lemma {:induction false} RollupIsComplete(insights: seq<InsightRow>, names: seq<string>, now: int, windows: seq<int>, capturedFor: string, r: RollupRow)
    ensures r in RollupRows(insights, names, now, windows, capturedFor) <==> IsRowOf(r, insights, names, now, windows, capturedFor)
    ensures |RollupRows(insights, names, now, windows, capturedFor)| == Times(4 * |names|, |windows|)
    decreases windows
  {
    hide Value, MetricName;
    if windows != [] {
      var n := |windows| - 1;
      RollupIsComplete(insights, names, now, windows[..n], capturedFor, r);
      WindowRowsAre(insights, names, now, windows[n], capturedFor, r);
      assert windows == windows[..n] + [windows[n]];
    }
  }

  function Times(a: nat, b: nat): nat { if b == 0 then 0 else Times(a, b - 1) + a }

  // ---------------------------------------------------------------- growing windows

  ghost predicate NonNegative(rows: seq<InsightRow>) { forall r | r in rows :: r.value >= 0.0 }

  lemma WindowGrows(capturedFor: string, now: int, small: int, large: int)
    requires small <= large && WithinWindow(capturedFor, now, small)
    ensures WithinWindow(capturedFor, now, large)
  {
  }

  lemma {:induction false} MaxReadingGrows(rows: seq<InsightRow>, now: int, small: int, large: int, key: string, metric: string)
    requires small <= large && NonNegative(rows)
    ensures var a, b := MaxReading(rows, now, small, key, metric), MaxReading(rows, now, large, key, metric);
            && (a.Some? ==> b.Some? && a.value <= b.value)
            && (b.Some? ==> b.value >= 0.0)
    decreases rows
  {
    if rows != [] {
      var n := |rows| - 1;
      MaxReadingGrows(rows[..n], now, small, large, key, metric);
      if Reads(rows[n], now, small, key, metric) {
        WindowGrows(rows[n].capturedFor, now, small, large);
      }
      assert rows[n] in rows;
      hide WithinWindow, Lower, Key;
    }
  }

  lemma {:induction false} SumOfMaxGrows(metrics: seq<string>, rows: seq<InsightRow>, now: int, small: int, large: int, key: string)
    requires small <= large && NonNegative(rows)
    ensures 0.0 <= SumOfMax(metrics, rows, now, small, key) <= SumOfMax(metrics, rows, now, large, key)
    decreases metrics
  {
    if metrics != [] {
      var n := |metrics| - 1;
      SumOfMaxGrows(metrics[..n], rows, now, small, large, key);
      MaxReadingGrows(rows, now, small, large, key, metrics[n]);
      MaxReadingGrows(rows, now, small, small, key, metrics[n]);
    }
  }

  lemma {:induction false} FollowersGrow(rows: seq<InsightRow>, now: int, small: int, large: int, platform: string)
    requires small <= large && NonNegative(rows)
    ensures Value(rows, now, small, platform, Followers) <= Value(rows, now, large, platform, Followers)
    ensures 0.0 <= Value(rows, now, small, platform, Followers)
    ensures MaxFollowers(rows, now, small, platform).Some? ==> MaxFollowers(rows, now, large, platform).Some?
    decreases rows
  {
    if rows != [] {
      var n := |rows| - 1;
      FollowersGrow(rows[..n], now, small, large, platform);
      if ReadsFollowers(rows[n], now, small, platform) {
        WindowGrows(rows[n].capturedFor, now, small, large);
      }
      assert rows[n] in rows;
      hide WithinWindow, Lower;
    }
  }

  ghost predicate SamePost(a: PostTotals, b: PostTotals) { a.platform == b.platform && a.objectId == b.objectId }

  ghost predicate DistinctPosts(totals: seq<PostTotals>) {
    forall i, j | 0 <= i < j < |totals| :: !SamePost(totals[i], totals[j])
  }

  ghost predicate HasAtLeast(t: PostTotals, totals: seq<PostTotals>, f: Measure) {
    exists j :: 0 <= j < |totals| && SamePost(t, totals[j]) && Measured(t, f) <= Measured(totals[j], f)
  }

  lemma {:induction false} SumForConcat(a: seq<PostTotals>, b: seq<PostTotals>, platform: string, f: Measure)
    ensures SumFor(a + b, platform, f) == SumFor(a, platform, f) + SumFor(b, platform, f)
    decreases b
  {
    if b == [] {
      assert a + b == a;
    } else {
      var n := |b| - 1;
      SumForConcat(a, b[..n], platform, f);
      assert (a + b)[..|a + b| - 1] == a + b[..n];
    }
  }

  lemma SumForWithout(totals: seq<PostTotals>, j: nat, platform: string, f: Measure)
    requires j < |totals|
    ensures SumFor(totals, platform, f)
         == SumFor(totals[..j] + totals[j + 1..], platform, f) + SumFor([totals[j]], platform, f)
  {
    assert totals == (totals[..j] + [totals[j]]) + totals[j + 1..];
    SumForConcat(totals[..j] + [totals[j]], totals[j + 1..], platform, f);
    SumForConcat(totals[..j], [totals[j]], platform, f);
    SumForConcat(totals[..j], totals[j + 1..], platform, f);
  }

  lemma {:induction false} SumForNonNegative(totals: seq<PostTotals>, platform: string, f: Measure)
    requires forall t | t in totals :: Measured(t, f) >= 0.0
    ensures SumFor(totals, platform, f) >= 0.0
    decreases totals
  {
    if totals != [] {
      SumForNonNegative(totals[..|totals| - 1], platform, f);
      assert totals[|totals| - 1] in totals;
    }
  }

  /** A list that has every post of another with at least its measure sums to at least as much. */
  lemma {:induction false} SumForCovers(a: seq<PostTotals>, b: seq<PostTotals>, platform: string, f: Measure)
    requires DistinctPosts(a) && forall t | t in a :: HasAtLeast(t, b, f)
    requires forall t | t in b :: Measured(t, f) >= 0.0
    ensures SumFor(a, platform, f) <= SumFor(b, platform, f)
    decreases a
  {
    if a == [] {
      SumForNonNegative(b, platform, f);
    } else {
      var n := |a| - 1;
      var last := a[n];
      assert last in a;
      var j :| 0 <= j < |b| && SamePost(last, b[j]) && Measured(last, f) <= Measured(b[j], f);
      var rest := b[..j] + b[j + 1..];
      forall t | t in a[..n]
        ensures HasAtLeast(t, rest, f)
      {
        StillThere(a, n, t, b, j, f);
      }
      SumForCovers(a[..n], rest, platform, f);
      SumForWithout(b, j, platform, f);
      OneSum(b[j], platform, f);
    }
  }

  lemma StillThere(a: seq<PostTotals>, n: nat, t: PostTotals, b: seq<PostTotals>, j: nat, f: Measure)
    requires DistinctPosts(a) && n == |a| - 1 && t in a[..n] && j < |b| && SamePost(a[n], b[j]) && HasAtLeast(t, b, f)
    ensures HasAtLeast(t, b[..j] + b[j + 1..], f)
  {
    var i :| 0 <= i < n && a[i] == t;
    assert !SamePost(a[i], a[n]);
    var k :| 0 <= k < |b| && SamePost(t, b[k]) && Measured(t, f) <= Measured(b[k], f);
    var rest := b[..j] + b[j + 1..];
    assert rest[if k < j then k else k - 1] == b[k];
  }

  /** Posts as (platform, object id) pairs. */
  ghost predicate Over(rows: seq<InsightRow>, ids: set<(string, string)>) {
    forall r | r in rows :: (r.platform, r.objectId) in ids
  }

  /** No two posts share a map key. */
  ghost predicate KeysTellApart(ids: set<(string, string)>) {
    forall x, y | x in ids && y in ids && Key(x.0, x.1) == Key(y.0, y.1) :: x == y
  }

  lemma PlainPlatformsTellApart(ids: set<(string, string)>)
    requires forall x | x in ids :: '\0' !in x.0
    ensures KeysTellApart(ids)
  {
    forall x, y | x in ids && y in ids && Key(x.0, x.1) == Key(y.0, y.1)
      ensures x == y
    {
      KeyIdentifiesPost(x.0, x.1, y.0, y.1);
    }
  }

  lemma TotalsAreDistinct(rows: seq<InsightRow>, now: int, days: int)
    ensures DistinctPosts(Totals(rows, now, days))
  {
    var firsts := FirstRows(rows, now, days);
    FirstRowsListPosts(rows, now, days);
    hide FirstRows, SumOfMax, Key;
    forall i, j | 0 <= i < j < |firsts|
      ensures !SamePost(Totals(rows, now, days)[i], Totals(rows, now, days)[j])
    {
      assert Keys(firsts)[i] != Keys(firsts)[j];
    }
  }

  /** A row's post is among the totals of every window the row counts in. */
  lemma PostIsTotalled(rows: seq<InsightRow>, now: int, days: int, r: InsightRow, ids: set<(string, string)>) returns (j: nat)
    requires r in rows && Counts(r, now, days) && Over(rows, ids) && KeysTellApart(ids)
    ensures j < |Totals(rows, now, days)| && Totals(rows, now, days)[j] == TotalsOf(rows, now, days, r.platform, r.objectId)
  {
    var firsts := FirstRows(rows, now, days);
    FirstRowsListPosts(rows, now, days);
    hide FirstRows, Counts, SumOfMax;
    var key := Key(r.platform, r.objectId);
    assert key in PostKeys(rows, now, days);
    j :| 0 <= j < |Keys(firsts)| && Keys(firsts)[j] == key;
    assert firsts[j] in firsts;
  }

  lemma TotalsGrow(rows: seq<InsightRow>, now: int, small: int, large: int, ids: set<(string, string)>, f: Measure, t: PostTotals)
    requires small <= large && NonNegative(rows) && Over(rows, ids) && KeysTellApart(ids) && t in Totals(rows, now, small)
    ensures HasAtLeast(t, Totals(rows, now, large), f) && Measured(t, f) >= 0.0
  {
    var firsts := FirstRows(rows, now, small);
    var i :| 0 <= i < |firsts| && t == TotalsOf(rows, now, small, firsts[i].platform, firsts[i].objectId);
    var r := firsts[i];
    FirstRowsListPosts(rows, now, small);
    assert r in firsts && Counts(r, now, small);
    WindowGrows(r.capturedFor, now, small, large);
    var j := PostIsTotalled(rows, now, large, r, ids);
    SumOfMaxGrows(EngagementMetrics(), rows, now, small, large, Key(r.platform, r.objectId));
    SumOfMaxGrows(ImpressionMetrics(), rows, now, small, large, Key(r.platform, r.objectId));
    hide Totals, SumOfMax, FirstRows, Counts, Key;
    assert SamePost(t, Totals(rows, now, large)[j]);
  }

  /** Non-negative readings: no value of a platform falls when the window grows. */
  lemma ValuesGrow(rows: seq<InsightRow>, now: int, small: int, large: int, ids: set<(string, string)>, platform: string, m: RollupMetric)
    requires small <= large && NonNegative(rows) && Over(rows, ids) && KeysTellApart(ids)
    ensures Value(rows, now, small, platform, m) <= Value(rows, now, large, platform, m)
  {
    match m
    case Followers => FollowersGrow(rows, now, small, large, platform);
    case OfPosts(f) =>
      var a, b := Totals(rows, now, small), Totals(rows, now, large);
      TotalsAreDistinct(rows, now, small);
      forall t | t in a ensures HasAtLeast(t, b, f) { TotalsGrow(rows, now, small, large, ids, f, t); }
      forall t | t in b ensures Measured(t, f) >= 0.0 { TotalsGrow(rows, now, large, large, ids, f, t); }
      SumForCovers(a, b, platform, f);
  }

  ghost predicate GrowsFor(rows: seq<InsightRow>, now: int, small: int, large: int, platform: string, m: RollupMetric) {
    Value(rows, now, small, platform, m) <= Value(rows, now, large, platform, m)
  }

  /** A pair of roll-up windows: 7, 30 or 90 days, the first no longer than the second. */
  ghost predicate WindowPair(small: int, large: int) {
    small in ROLLUP_WINDOWS && large in ROLLUP_WINDOWS && small <= large
  }

  /** Over these posts, no readings make a value fall from one roll-up window to a longer one. */
  ghost predicate AlwaysGrows(ids: set<(string, string)>) {
    forall rows, now, small, large, platform, m | WindowPair(small, large) && NonNegative(rows) && Over(rows, ids) ::
      GrowsFor(rows, now, small, large, platform, m)
  }

  /**
   * Monotone in the window, exactly when no two posts share a map key. Otherwise the longer
   * window can file a post under the other one's platform.
   */
  lemma GrowsIffKeysTellApart(ids: set<(string, string)>)
    ensures AlwaysGrows(ids) <==> KeysTellApart(ids)
  {
    if KeysTellApart(ids) {
      forall rows, now, small, large, platform, m | WindowPair(small, large) && NonNegative(rows) && Over(rows, ids)
        ensures GrowsFor(rows, now, small, large, platform, m)
      {
        ValuesGrow(rows, now, small, large, ids, platform, m);
      }
    } else {
      var x, y :| x in ids && y in ids && Key(x.0, x.1) == Key(y.0, y.1) && x != y;
      var rows, now := SharedKeyShrinks(x, y);
      assert Over(rows, ids);
      assert ROLLUP_WINDOWS[0] == 7 && ROLLUP_WINDOWS[1] == 30;
      assert WindowPair(7, 30);
    }
  }

  /** In particular it holds for all posts of platforms without a NUL in their names. */
  lemma PlainPlatformsGrow(ids: set<(string, string)>)
    requires forall x | x in ids :: '\0' !in x.0
    ensures AlwaysGrows(ids)
  {
    PlainPlatformsTellApart(ids);
    GrowsIffKeysTellApart(ids);
  }

  const OLD_DAY := "2024-01-01"
  const NEW_DAY := "2024-01-31"

  function LikeOn(post: (string, string), day: string): InsightRow {
    InsightRow(post.0, "post", post.1, "likes", 0.0, day)
  }

  /** The first post was read 30 days ago, the second today. */
  lemma SharedKeyShrinks(x: (string, string), y: (string, string)) returns (rows: seq<InsightRow>, now: int)
    requires Key(x.0, x.1) == Key(y.0, y.1) && x != y
    ensures NonNegative(rows) && forall r | r in rows :: (r.platform, r.objectId) in {x, y}
    ensures !GrowsFor(rows, now, 7, 30, y.0, OfPosts(Posts))
  {
    var a, b := LikeOn(x, OLD_DAY), LikeOn(y, NEW_DAY);
    rows := [a, b];
    now := LikesCount(x, y);
    LikeIsOf(x, OLD_DAY);
    LikeIsOf(y, NEW_DAY);
    hide LikeOn, Counts, Value;
    if x.0 == y.0 {
      SameTail(x.0, x.1, y.1);
    }
    hide Key;
    TwoFirsts(a, b, now);
    hide FirstRows;
    OnePost(rows, now, 7, b, y.0);
    OnePost(rows, now, 30, a, y.0);
  }

  lemma LikeIsOf(post: (string, string), day: string)
    ensures var r := LikeOn(post, day); r.platform == post.0 && r.objectId == post.1 && r.value == 0.0
  {
  }

  lemma OnePost(rows: seq<InsightRow>, now: int, days: int, r: InsightRow, platform: string)
    requires FirstRows(rows, now, days) == [r]
    ensures Value(rows, now, days, platform, OfPosts(Posts)) == if r.platform == platform then 1.0 else 0.0
  {
    hide FirstRows, SumOfMax;
    var totals := Totals(rows, now, days);
    assert totals == [TotalsOf(rows, now, days, r.platform, r.objectId)];
    OneSum(totals[0], platform, Posts);
  }

  lemma OneSum(t: PostTotals, platform: string, f: Measure)
    ensures SumFor([t], platform, f) == if t.platform == platform then Measured(t, f) else 0.0
  {
    assert [t][..0] == [];
  }

  lemma SameTail(p: string, a: string, b: string)
    requires Key(p, a) == Key(p, b)
    ensures a == b
  {
    assert a == Key(p, a)[|p| + 1..];
    assert b == Key(p, b)[|p| + 1..];
  }

  lemma LikesCount(x: (string, string), y: (string, string)) returns (now: int)
    ensures var a, b := LikeOn(x, OLD_DAY), LikeOn(y, NEW_DAY);
            !Counts(a, now, 7) && Counts(a, now, 30) && Counts(b, now, 7) && Counts(b, now, 30)
  {
    now := DateUtc(2024, 0, 31);
    JanuaryKeys();
    assert DateUtc(2024, 0, 31) == DateUtc(2024, 0, 1) + 30 * DAY_MS;
    hide ParseDayKeyMs, DateUtc;
    assert !WithinWindow(OLD_DAY, now, 7) && WithinWindow(OLD_DAY, now, 30);
    assert WithinWindow(NEW_DAY, now, 7) && WithinWindow(NEW_DAY, now, 30);
    hide WithinWindow;
    LikesAreEngagement();
    hide Lower;
  }

  lemma LikesAreEngagement()
    ensures Lower("likes") in EngagementMetrics() && "post" in PostLikeTypes()
  {
    assert Lower("likes") == "likes";
    assert EngagementMetrics()[0] == "likes";
  }

  lemma JanuaryKeys()
    ensures ParseDayKeyMs(OLD_DAY) == Some(DateUtc(2024, 0, 1)) && ParseDayKeyMs(NEW_DAY) == Some(DateUtc(2024, 0, 31))
  {
    hide DateUtc, Number;
    DayKey(OLD_DAY, "2024", "01", "01");
    DayKey(NEW_DAY, "2024", "01", "31");
    SmallNumbers();
  }

  lemma DayKey(key: string, year: string, month: string, day: string)
    requires |year| == 4 && |month| == 2 && |day| == 2 && key == year + "-" + month + "-" + day
    requires forall c | c in year + month + day :: IsDigit(c)
    ensures (forall c | c in year :: IsDigit(c)) && (forall c | c in month :: IsDigit(c)) && (forall c | c in day :: IsDigit(c))
    ensures ParseDayKeyMs(key) == Some(DateUtc(Number(year), Number(month) - 1, Number(day)))
  {
    hide *;
    DigitsOfParts(year, month, day);
    KeyParts(key, year, month, day);
    ParsedKey(key, year, month, day);
  }

  lemma ParsedKey(key: string, year: string, month: string, day: string)
    requires |key| == 10 && key[..4] == year && key[4] == '-' && key[5..7] == month && key[7] == '-' && key[8..] == day
    requires forall c | c in year + month + day :: IsDigit(c)
    requires (forall c | c in year :: IsDigit(c)) && (forall c | c in month :: IsDigit(c)) && (forall c | c in day :: IsDigit(c))
    ensures ParseDayKeyMs(key) == Some(DateUtc(Number(year), Number(month) - 1, Number(day)))
  {
    IsDayKeyOf(key, year, month, day);
    hide DateUtc, Number, IsDigit, IsDayKey;
  }

  lemma IsDayKeyOf(key: string, year: string, month: string, day: string)
    requires |key| == 10 && key[..4] == year && key[4] == '-' && key[5..7] == month && key[7] == '-' && key[8..] == day
    requires forall c | c in year + month + day :: IsDigit(c)
    ensures IsDayKey(key)
  {
    hide IsDigit;
    assert key[..4] + key[5..7] + key[8..] == year + month + day;
  }

  lemma KeyParts(key: string, year: string, month: string, day: string)
    requires |year| == 4 && |month| == 2 && |day| == 2 && key == year + "-" + month + "-" + day
    ensures |key| == 10 && key[..4] == year && key[4] == '-' && key[5..7] == month && key[7] == '-' && key[8..] == day
  {
  }

  lemma DigitsOfParts(year: string, month: string, day: string)
    requires forall c | c in year + month + day :: IsDigit(c)
    ensures (forall c | c in year :: IsDigit(c)) && (forall c | c in month :: IsDigit(c)) && (forall c | c in day :: IsDigit(c))
  {
    hide IsDigit;
    forall c | c in year || c in month || c in day
      ensures IsDigit(c)
    {
      assert c in year + month + day;
    }
  }

  lemma SmallNumbers()
    ensures Number("2024") == 2024 && Number("01") == 1 && Number("31") == 31
  {
    assert "2024"[..3] == "202" && "202"[..2] == "20" && "20"[..1] == "2" && "2"[..0] == "";
    assert Number("2") == 2 && Number("20") == 20 && Number("202") == 202;
    assert "01"[..1] == "0" && "0"[..0] == "" && Number("0") == 0;
    assert "31"[..1] == "3" && "3"[..0] == "" && Number("3") == 3;
  }

  lemma TwoFirsts(a: InsightRow, b: InsightRow, now: int)
    requires Key(a.platform, a.objectId) == Key(b.platform, b.objectId)
    requires !Counts(a, now, 7) && Counts(a, now, 30) && Counts(b, now, 7) && Counts(b, now, 30)
    ensures FirstRows([a, b], now, 7) == [b] && FirstRows([a, b], now, 30) == [a]
  {
    hide Counts, Key;
    assert [a, b][..1] == [a] && [a][..0] == [];
    assert FirstRows([a], now, 7) == [] && FirstRows([a], now, 30) == [a];
    assert Keys([a])[0] == Key(a.platform, a.objectId);
  }
}
