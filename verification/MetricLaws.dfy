/** Which readings count, how they add up, and what the roll-up's rows are called and say. */
module MetricLaws {
  import opened Wrappers
  import opened Aggregator
  import opened Rollup
  import opened Sorting

  predicate IsPostLike(objectType: string) { objectType in {"post", "media", "pin", "video", "tweet", "reel"} }

  predicate IsEngagement(metric: string) {
    metric in {"likes", "comments", "replies", "retweets", "reposts", "quotes", "shares", "reactions", "saves", "saved", "bookmarks"}
  }

  predicate IsImpression(metric: string) {
    metric in {"impressions", "page_impressions", "views", "reach", "video_views", "impression_count"}
  }

  // ---------------------------------------------------------------- names without case

  predicate IsLetter(c: char) { 'a' <= c <= 'z' || 'A' <= c <= 'Z' }

  predicate SameLetter(c: char, d: char) {
    c == d || (IsLetter(c) && IsLetter(d) && (c as int == d as int + 32 || d as int == c as int + 32))
  }

  /** Metric names agree in lower case exactly when they differ at most in the case of their letters. */
  lemma LowerIgnoresCase(a: string, b: string)
    ensures Lower(a) == Lower(b) <==> |a| == |b| && forall i | 0 <= i < |a| :: SameLetter(a[i], b[i])
  {
    if Lower(a) == Lower(b) {
      forall i | 0 <= i < |a|
        ensures SameLetter(a[i], b[i])
      {
        assert Lower(a)[i] == Lower(b)[i];
        LowerCharIgnoresCase(a[i], b[i]);
      }
    }
    if |a| == |b| && forall i | 0 <= i < |a| :: SameLetter(a[i], b[i]) {
      forall i | 0 <= i < |a|
        ensures LowerChar(a[i]) == LowerChar(b[i])
      {
        LowerCharIgnoresCase(a[i], b[i]);
      }
    }
    hide SameLetter, LowerChar;
  }

  lemma LowerCharIgnoresCase(c: char, d: char)
    ensures LowerChar(c) == LowerChar(d) <==> SameLetter(c, d)
  {
  }

  // ---------------------------------------------------------------- one reading

  lemma {:induction false} SumOfOne(metrics: seq<string>, r: InsightRow, now: int, days: int)
    requires AllDistinct(metrics) && Counts(r, now, days)
    ensures SumOfMax(metrics, [r], now, days, Key(r.platform, r.objectId)) == if Lower(r.metric) in metrics then r.value else 0.0
    decreases metrics
  {
    if metrics != [] {
      var n := |metrics| - 1;
      SumOfOne(metrics[..n], r, now, days);
      assert metrics == metrics[..n] + [metrics[n]];
      OneReading(r, now, days, metrics[n]);
      hide Counts, Key, Lower, MaxReading;
    }
  }

  lemma OneReading(r: InsightRow, now: int, days: int, metric: string)
    requires Counts(r, now, days)
    ensures MaxReading([r], now, days, Key(r.platform, r.objectId), metric) == if Lower(r.metric) == metric then Some(r.value) else None
  {
    assert [r][..0] == [];
    hide Counts, Key, Lower;
  }

  lemma FirstOfOne(r: InsightRow, now: int, days: int)
    ensures FirstRows([r], now, days) == if Counts(r, now, days) then [r] else []
  {
    assert [r][..0] == [];
    hide Counts, Key;
  }

  lemma NamesAre(metric: string, objectType: string)
    ensures metric in EngagementMetrics() <==> IsEngagement(metric)
    ensures metric in ImpressionMetrics() <==> IsImpression(metric)
    ensures objectType in PostLikeTypes() <==> IsPostLike(objectType)
  {
  }

  /** A single reading counts for what its metric's name says, if it is a post's and in the window. */
  lemma OneRowTotals(r: InsightRow, now: int, days: int)
    ensures var counted, name := IsPostLike(r.objectType) && WithinWindow(r.capturedFor, now, days), Lower(r.metric);
            Totals([r], now, days) ==
              if counted && IsEngagement(name) then [PostTotals(r.platform, r.objectId, r.value, 0.0)]
              else if counted && IsImpression(name) then [PostTotals(r.platform, r.objectId, 0.0, r.value)]
              else []
  {
    NamesAre(Lower(r.metric), r.objectType);
    MetricListsAreDisjoint();
    FirstOfOne(r, now, days);
    if Counts(r, now, days) {
      SumOfOne(EngagementMetrics(), r, now, days);
      SumOfOne(ImpressionMetrics(), r, now, days);
    }
    hide EngagementMetrics, ImpressionMetrics, PostLikeTypes, IsEngagement, IsImpression, IsPostLike, WithinWindow, Lower, Key,
         SumOfMax, FirstRows, AllDistinct;
  }

  // ---------------------------------------------------------------- several readings

  function Larger(a: Option<real>, b: Option<real>): Option<real> {
    if a.None? then b else if b.None? || a.value >= b.value then a else b
  }

  lemma {:induction false} MaxReadingConcat(a: seq<InsightRow>, b: seq<InsightRow>, now: int, days: int, key: string, metric: string)
    ensures MaxReading(a + b, now, days, key, metric) == Larger(MaxReading(a, now, days, key, metric), MaxReading(b, now, days, key, metric))
    decreases b
  {
    hide Reads;
    if b == [] {
      assert a + b == a;
    } else {
      var n := |b| - 1;
      MaxReadingConcat(a, b[..n], now, days, key, metric);
      assert (a + b)[..|a + b| - 1] == a + b[..n];
    }
  }

  /** No metric of the post is read in both lists. */
  ghost predicate ReadApart(a: seq<InsightRow>, b: seq<InsightRow>, now: int, days: int, key: string) {
    forall i, j | 0 <= i < |a| && 0 <= j < |b| :: !ReadsAlike(a[i], b[j], now, days, key)
  }

  ghost predicate ReadsAlike(x: InsightRow, y: InsightRow, now: int, days: int, key: string) {
    Lower(x.metric) == Lower(y.metric) && Reads(x, now, days, key, Lower(x.metric)) && Reads(y, now, days, key, Lower(y.metric))
  }

  lemma ApartOnMetric(a: seq<InsightRow>, b: seq<InsightRow>, now: int, days: int, key: string, metric: string)
    requires ReadApart(a, b, now, days, key)
    ensures MaxReading(a, now, days, key, metric).None? || MaxReading(b, now, days, key, metric).None?
  {
    MaxReadingIsMax(a, now, days, key, metric);
    MaxReadingIsMax(b, now, days, key, metric);
    forall i, j | 0 <= i < |a| && 0 <= j < |b|
      ensures !(Reads(a[i], now, days, key, metric) && Reads(b[j], now, days, key, metric))
    {
      assert !ReadsAlike(a[i], b[j], now, days, key);
    }
  }

  lemma {:induction false} SumsAdd(metrics: seq<string>, a: seq<InsightRow>, b: seq<InsightRow>, now: int, days: int, key: string)
    requires ReadApart(a, b, now, days, key)
    ensures SumOfMax(metrics, a + b, now, days, key) == SumOfMax(metrics, a, now, days, key) + SumOfMax(metrics, b, now, days, key)
    decreases metrics
  {
    if metrics != [] {
      var n := |metrics| - 1;
      SumsAdd(metrics[..n], a, b, now, days, key);
      MaxReadingConcat(a, b, now, days, key, metrics[n]);
      ApartOnMetric(a, b, now, days, key, metrics[n]);
      hide MaxReading, ReadApart;
    }
  }

  /** Readings of different metrics of a post add up; of one metric only the largest counts (Aggregator.MaxReadingIsMax). */
  lemma DifferentMetricsAdd(a: seq<InsightRow>, b: seq<InsightRow>, now: int, days: int, platform: string, objectId: string)
    requires ReadApart(a, b, now, days, Key(platform, objectId))
    ensures var x, y, both := TotalsOf(a, now, days, platform, objectId), TotalsOf(b, now, days, platform, objectId),
                              TotalsOf(a + b, now, days, platform, objectId);
            both == PostTotals(platform, objectId, x.engagement + y.engagement, x.impressions + y.impressions)
  {
    SumsAdd(EngagementMetrics(), a, b, now, days, Key(platform, objectId));
    SumsAdd(ImpressionMetrics(), a, b, now, days, Key(platform, objectId));
    hide SumOfMax, ReadApart, EngagementMetrics, ImpressionMetrics;
  }

  // ---------------------------------------------------------------- the roll-up's values

  predicate IsFollowerReading(r: InsightRow, now: int, days: int, platform: string) {
    Lower(r.metric) == "followers" && r.platform == platform && WithinWindow(r.capturedFor, now, days)
  }

  /** The follower value is one of the platform's readings in the window and none is larger. */
  lemma {:induction false} MaxFollowersIsMax(rows: seq<InsightRow>, now: int, days: int, platform: string)
    ensures var m := MaxFollowers(rows, now, days, platform);
            && (m.Some? ==> exists i :: 0 <= i < |rows| && IsFollowerReading(rows[i], now, days, platform) && rows[i].value == m.value)
            && forall i | 0 <= i < |rows| && IsFollowerReading(rows[i], now, days, platform) :: m.Some? && rows[i].value <= m.value
    decreases rows
  {
    if rows != [] {
      var n := |rows| - 1;
      MaxFollowersIsMax(rows[..n], now, days, platform);
      assert ReadsFollowers(rows[n], now, days, platform) <==> IsFollowerReading(rows[n], now, days, platform);
      hide IsFollowerReading, ReadsFollowers;
      var m, before := MaxFollowers(rows, now, days, platform), MaxFollowers(rows[..n], now, days, platform);
      if m.Some? && m == before {
        var i :| 0 <= i < n && IsFollowerReading(rows[..n][i], now, days, platform) && rows[..n][i].value == m.value;
        assert rows[i] == rows[..n][i];
      }
      forall i | 0 <= i < |rows| && IsFollowerReading(rows[i], now, days, platform)
        ensures m.Some? && rows[i].value <= m.value
      {
        if i < n {
          assert rows[..n][i] == rows[i];
        }
      }
    }
  }

  function On(platform: string): PostTotals -> bool { (t: PostTotals) => t.platform == platform }

  function SumBy(totals: seq<PostTotals>, f: PostTotals -> real): real {
    if totals == [] then 0.0 else SumBy(totals[..|totals| - 1], f) + f(totals[|totals| - 1])
  }

  function MeasureOf(f: Measure): PostTotals -> real { (t: PostTotals) => Measured(t, f) }

  function EngagementOf(t: PostTotals): real { t.engagement }

  function ImpressionsOf(t: PostTotals): real { t.impressions }

  lemma SumBySnoc(totals: seq<PostTotals>, t: PostTotals, f: PostTotals -> real)
    ensures SumBy(totals + [t], f) == SumBy(totals, f) + f(t)
  {
    assert (totals + [t])[..|totals|] == totals;
  }

  lemma NothingSummed(platform: string, f: Measure)
    ensures SumFor([], platform, f) == SumBy(Filter([], On(platform)), MeasureOf(f))
  {
  }

  lemma {:induction false} SumForIsSumBy(totals: seq<PostTotals>, platform: string, f: Measure)
    ensures SumFor(totals, platform, f) == SumBy(Filter(totals, On(platform)), MeasureOf(f))
    decreases totals
  {
    hide Filter, SumBy, Measured;
    if totals == [] {
      NothingSummed(platform, f);
    } else {
      var init, last := totals[..|totals| - 1], totals[|totals| - 1];
      SumForIsSumBy(init, platform, f);
      assert totals == init + [last];
      FilterSnoc(init, last, On(platform));
      SumBySnoc(Filter(init, On(platform)), last, MeasureOf(f));
    }
  }

  lemma {:induction false} SumBySame(totals: seq<PostTotals>, f: PostTotals -> real, g: PostTotals -> real)
    requires forall t :: f(t) == g(t)
    ensures SumBy(totals, f) == SumBy(totals, g)
    decreases totals
  {
    if totals != [] {
      SumBySame(totals[..|totals| - 1], f, g);
    }
  }

  lemma {:induction false} SumOfOnes(totals: seq<PostTotals>, f: PostTotals -> real)
    requires forall t :: f(t) == 1.0
    ensures SumBy(totals, f) == |totals| as real
    decreases totals
  {
    if totals != [] {
      SumOfOnes(totals[..|totals| - 1], f);
    }
  }

  /**
   * Every platform has, for every window, a row "posts" with the number of its posts, "engagement" and
   * "impressions" with the sums over them, and "followers" with its largest reading, 0 if there is none.
   */
  lemma RowsSay(insights: seq<InsightRow>, names: seq<string>, now: int, windows: seq<int>, capturedFor: string, name: string, days: int)
    requires name in names && days in windows
    ensures var rows := RollupRows(insights, names, now, windows, capturedFor);
            var posts := Filter(Totals(insights, now, days), On(name));
            && RollupRow(name, days, "posts", |posts| as real, capturedFor) in rows
            && RollupRow(name, days, "engagement", SumBy(posts, EngagementOf), capturedFor) in rows
            && RollupRow(name, days, "impressions", SumBy(posts, ImpressionsOf), capturedFor) in rows
    ensures var most := MaxFollowers(insights, now, days, name);
            RollupRow(name, days, "followers", if most.Some? then most.value else 0.0, capturedFor)
            in RollupRows(insights, names, now, windows, capturedFor)
  {
    var totals := Totals(insights, now, days);
    var posts := Filter(totals, On(name));
    SumForIsSumBy(totals, name, Posts);
    SumForIsSumBy(totals, name, Engagement);
    SumForIsSumBy(totals, name, Impressions);
    SumOfOnes(posts, MeasureOf(Posts));
    SumBySame(posts, MeasureOf(Engagement), EngagementOf);
    SumBySame(posts, MeasureOf(Impressions), ImpressionsOf);
    HasRow(insights, names, now, windows, capturedFor, name, days, OfPosts(Posts));
    HasRow(insights, names, now, windows, capturedFor, name, days, OfPosts(Engagement));
    HasRow(insights, names, now, windows, capturedFor, name, days, OfPosts(Impressions));
    HasRow(insights, names, now, windows, capturedFor, name, days, Followers);
    hide Totals, Filter, SumBy, SumFor, MaxFollowers, RollupRows;
  }

  lemma HasRow(insights: seq<InsightRow>, names: seq<string>, now: int, windows: seq<int>, capturedFor: string, name: string, days: int, m: RollupMetric)
    requires name in names && days in windows
    ensures RollupRow(name, days, MetricName(m), Value(insights, now, days, name, m), capturedFor)
         in RollupRows(insights, names, now, windows, capturedFor)
  {
    var r := RollupRow(name, days, MetricName(m), Value(insights, now, days, name, m), capturedFor);
    assert METRICS[0] == OfPosts(Engagement) && METRICS[1] == OfPosts(Posts) && METRICS[2] == OfPosts(Impressions) && METRICS[3] == Followers;
    assert m in METRICS;
    assert IsRowOf(r, insights, names, now, windows, capturedFor);
    RollupIsComplete(insights, names, now, windows, capturedFor, r);
    hide Value, MetricName, RollupRows;
  }
}
