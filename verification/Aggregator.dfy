/**
 * Analytics roll-up: the one-pass nested-map aggregation of raw readings, and the
 * declarative meaning it has.
 */
module Aggregator {
  import opened JsMaps
  import opened Sorting
  import opened Wrappers

  datatype InsightRow = InsightRow(
    platform: string, objectType: string, objectId: string, metric: string, value: real, capturedFor: string)

  datatype PostTotals = PostTotals(platform: string, objectId: string, engagement: real, impressions: real)

  const DAY_MS := 86_400_000

  function PostLikeTypes(): set<string> { {"post", "media", "pin", "video", "tweet", "reel"} }

  function EngagementMetrics(): seq<string> {
    ["likes", "comments", "replies", "retweets", "reposts", "quotes", "shares", "reactions", "saves", "saved", "bookmarks"]
  }

  function ImpressionMetrics(): seq<string> { ["impressions", "page_impressions", "views", "reach", "video_views", "impression_count"] }

  const FOLLOWERS := "followers"

  // ---------------------------------------------------------------- windows

  predicate IsDigit(c: char) { '0' <= c <= '9' }

  function Number(digits: string): nat
    requires forall c | c in digits :: IsDigit(c)
  {
    if digits == [] then 0
    else
      assert IsDigit(digits[|digits| - 1]);
      Number(digits[..|digits| - 1]) * 10 + (digits[|digits| - 1] as int - '0' as int)
  }

  predicate IsLeap(y: int) { y % 4 == 0 && (y % 100 != 0 || y % 400 == 0) }

  /** Days from 1 January 1970 to 1 January of year y. */
  function DayFromYear(y: int): int { 365 * (y - 1970) + (y - 1969) / 4 - (y - 1901) / 100 + (y - 1601) / 400 }

  function DaysBeforeMonth(y: int, month: int): int
    requires 0 <= month < 12
  {
    [0, 31, 59, 90, 120, 151, 181, 212, 243, 273, 304, 334][month] + (if month >= 2 && IsLeap(y) then 1 else 0)
  }

  /** `Date.UTC(y, month, day)`: years 0 to 99 mean 1900 to 1999, and months and days overflow. */
  function DateUtc(y: int, month: int, day: int): int {
    var year := (if 0 <= y <= 99 then 1900 + y else y) + month / 12;
    (DayFromYear(year) + DaysBeforeMonth(year, month % 12) + day - 1) * DAY_MS
  }

  predicate IsDayKey(key: string) {
    |key| == 10 && key[4] == '-' && key[7] == '-' && forall c | c in key[..4] + key[5..7] + key[8..] :: IsDigit(c)
  }

  function ParseDayKeyMs(key: string): Option<int> {
    if !IsDayKey(key) then None
    else
      assert forall s, c | s in {key[..4], key[5..7], key[8..]} && c in s :: c in key[..4] + key[5..7] + key[8..];
      Some(DateUtc(Number(key[..4]), Number(key[5..7]) - 1, Number(key[8..])))
  }

  predicate WithinWindow(capturedFor: string, now: int, windowDays: int) {
    match ParseDayKeyMs(capturedFor)
    case None => false
    case Some(ms) => now - windowDays * DAY_MS <= ms <= now
  }

  // ---------------------------------------------------------------- what a row says

  function LowerChar(c: char): char { if 'A' <= c <= 'Z' then (c as int + 32) as char else c }

  function Lower(s: string): string { seq(|s|, i requires 0 <= i < |s| => LowerChar(s[i])) }

  /** The map key of a post. */
  function Key(platform: string, objectId: string): string { platform + "\0" + objectId }

  /** The row is a reading of an engagement or impression metric of a post, in the window. */
  predicate Counts(r: InsightRow, now: int, days: int) {
    && r.objectType in PostLikeTypes()
    && WithinWindow(r.capturedFor, now, days)
    && (Lower(r.metric) in EngagementMetrics() || Lower(r.metric) in ImpressionMetrics())
  }

  predicate Reads(r: InsightRow, now: int, days: int, key: string, metric: string) {
    Counts(r, now, days) && Key(r.platform, r.objectId) == key && Lower(r.metric) == metric
  }

  // ---------------------------------------------------------------- the declarative meaning

  /** The largest reading of a metric of a post, if there is one. */
  function MaxReading(rows: seq<InsightRow>, now: int, days: int, key: string, metric: string): Option<real> {
    if rows == [] then None
    else
      var before, r := MaxReading(rows[..|rows| - 1], now, days, key, metric), rows[|rows| - 1];
      if Reads(r, now, days, key, metric) && (before.None? || r.value > before.value) then Some(r.value) else before
  }

  /** The sum over a list of metrics of the largest reading of each. */
  function SumOfMax(metrics: seq<string>, rows: seq<InsightRow>, now: int, days: int, key: string): real {
    if metrics == [] then 0.0
    else
      var last := MaxReading(rows, now, days, key, metrics[|metrics| - 1]);
      SumOfMax(metrics[..|metrics| - 1], rows, now, days, key) + (if last.Some? then last.value else 0.0)
  }

  /** The rows that first mention each post, in order. */
  function FirstRows(rows: seq<InsightRow>, now: int, days: int): seq<InsightRow> {
    if rows == [] then []
    else
      var before, r := FirstRows(rows[..|rows| - 1], now, days), rows[|rows| - 1];
      if Counts(r, now, days) && Key(r.platform, r.objectId) !in Keys(before) then before + [r] else before
  }

  function Keys(rows: seq<InsightRow>): seq<string> {
    seq(|rows|, i requires 0 <= i < |rows| => Key(rows[i].platform, rows[i].objectId))
  }

  function TotalsOf(rows: seq<InsightRow>, now: int, days: int, platform: string, objectId: string): PostTotals {
    PostTotals(platform, objectId,
      SumOfMax(EngagementMetrics(), rows, now, days, Key(platform, objectId)),
      SumOfMax(ImpressionMetrics(), rows, now, days, Key(platform, objectId)))
  }

  /** One total per post with a counting row, in order of first mention. */
  function Totals(rows: seq<InsightRow>, now: int, days: int): seq<PostTotals> {
    var firsts := FirstRows(rows, now, days);
    seq(|firsts|, i requires 0 <= i < |firsts| => TotalsOf(rows, now, days, firsts[i].platform, firsts[i].objectId))
  }

  // ---------------------------------------------------------------- the one-pass aggregation

  /** The outer map lists the posts of the rows seen so far in order of first mention. */
  ghost predicate ListsPosts(m: JsMap<JsMap<real>>, posts: map<string, (string, string)>, firsts: seq<InsightRow>) {
    && m.Valid() && m.order == Keys(firsts) && posts.Keys == m.entries.Keys
    && forall i | 0 <= i < |firsts| ::
         Keys(firsts)[i] in posts && posts[Keys(firsts)[i]] == (firsts[i].platform, firsts[i].objectId)
  }

  function MetricsOf(entries: map<string, JsMap<real>>, key: string): map<string, real> {
    if key in entries then entries[key].entries else map[]
  }

  /** The inner maps hold exactly the largest readings of the rows seen so far. */
  ghost predicate HoldsAll(entries: map<string, JsMap<real>>, rows: seq<InsightRow>, now: int, days: int) {
    && (forall k | k in entries :: entries[k].Valid())
    && (forall k :: HoldsPost(MetricsOf(entries, k), rows, now, days, k))
  }

  ghost predicate Holds(m: JsMap<JsMap<real>>, posts: map<string, (string, string)>, rows: seq<InsightRow>, now: int, days: int) {
    ListsPosts(m, posts, FirstRows(rows, now, days)) && HoldsAll(m.entries, rows, now, days)
  }

  ghost predicate HoldsPost(metrics: map<string, real>, rows: seq<InsightRow>, now: int, days: int, key: string) {
    && (forall metric :: MaxReading(rows, now, days, key, metric) == if metric in metrics then Some(metrics[metric]) else None)
    && forall metric | metric in metrics :: metric in EngagementMetrics() || metric in ImpressionMetrics()
  }

  /** First loop: from rows to the nested map of largest readings. */
  method CollectMaxima(rows: seq<InsightRow>, now: int, days: int)
    returns (maxByPostMetric: JsMap<JsMap<real>>, platformById: map<string, (string, string)>)
    ensures Holds(maxByPostMetric, platformById, rows, now, days)
  {
    hide EngagementMetrics, ImpressionMetrics, PostLikeTypes, WithinWindow, Lower, Key, FirstRows, Holds, AllDistinct;
    maxByPostMetric := JsMap([], map[]);
    platformById := map[];
    NothingHeld(now, days);
    for n := 0 to |rows|
      invariant Holds(maxByPostMetric, platformById, rows[..n], now, days)
    {
      var row := rows[n];
      assert rows[..n + 1][..n] == rows[..n];
      HeldIsValid(maxByPostMetric, platformById, rows[..n], now, days);
      if row.objectType !in PostLikeTypes() || !WithinWindow(row.capturedFor, now, days) {
        SkipRow(maxByPostMetric, platformById, rows[..n + 1], now, days);
        continue;
      }
      var metric := Lower(row.metric);
      if metric !in EngagementMetrics() && metric !in ImpressionMetrics() {
        SkipRow(maxByPostMetric, platformById, rows[..n + 1], now, days);
        continue;
      }
      var key := Key(row.platform, row.objectId);
      var metrics: JsMap<real> := JsMap([], map[]);
      EmptyIsValid(metrics);
      AddRow(maxByPostMetric, platformById, rows[..n + 1], now, days);
      if key in maxByPostMetric.entries {
        metrics := maxByPostMetric.entries[key];
      } else {
        platformById := platformById[key := (row.platform, row.objectId)];
      }
      if metric !in metrics.entries || row.value > metrics.entries[metric] {
        metrics := metrics.Put(metric, row.value);
      }
      assert metrics == Raised(maxByPostMetric, row);
      maxByPostMetric := maxByPostMetric.Put(key, metrics);
    }
    assert rows[..|rows|] == rows;
  }

  lemma HeldIsValid(m: JsMap<JsMap<real>>, posts: map<string, (string, string)>, rows: seq<InsightRow>, now: int, days: int)
    requires Holds(m, posts, rows, now, days)
    ensures m.Valid() && forall k | k in m.entries :: m.entries[k].Valid()
  {
    hide HoldsPost;
  }

  lemma NothingHeld(now: int, days: int)
    ensures Holds(JsMap([], map[]), map[], [], now, days)
  {
  }

  /** Innermost loop: the sums over one post's metrics, in insertion order. */
  method SumMetrics(metrics: JsMap<real>) returns (engagement: real, impressions: real)
    requires metrics.Valid()
    ensures engagement == SumPicked(metrics.order, metrics.entries, EngagementMetrics())
    ensures impressions == SumPicked(metrics.order, metrics.entries, ImpressionMetrics())
  {
    MetricListsAreDisjoint();
    engagement, impressions := 0.0, 0.0;
    for q := 0 to |metrics.order|
      invariant engagement == SumPicked(metrics.order[..q], metrics.entries, EngagementMetrics())
      invariant impressions == SumPicked(metrics.order[..q], metrics.entries, ImpressionMetrics())
    {
      var metric := metrics.order[q];
      assert metrics.order[..q + 1][..q] == metrics.order[..q];
      if metric in EngagementMetrics() {
        engagement := engagement + metrics.entries[metric];
      } else if metric in ImpressionMetrics() {
        impressions := impressions + metrics.entries[metric];
      }
    }
    assert metrics.order[..|metrics.order|] == metrics.order;
  }

  method AggregatePostMetrics(rows: seq<InsightRow>, now: int, days: int) returns (totals: seq<PostTotals>)
    ensures totals == Totals(rows, now, days)
  {
    hide *;
    var maxByPostMetric, platformById := CollectMaxima(rows, now, days);
    TotalsLength(maxByPostMetric, platformById, rows, now, days);
    totals := [];
    for p := 0 to |maxByPostMetric.order|
      invariant totals == Totals(rows, now, days)[..p]
    {
      var key := maxByPostMetric.order[p];
      TotalAt(maxByPostMetric, platformById, rows, now, days, p);
      var ids := platformById[key];
      var metrics := maxByPostMetric.entries[key];
      var engagement, impressions := SumMetrics(metrics);
      totals := totals + [PostTotals(ids.0, ids.1, engagement, impressions)];
    }
  }

  lemma TotalsLength(m: JsMap<JsMap<real>>, posts: map<string, (string, string)>, rows: seq<InsightRow>, now: int, days: int)
    requires Holds(m, posts, rows, now, days)
    ensures |Totals(rows, now, days)| == |m.order|
  {
    hide HoldsAll;
  }

  /** The sums over the p-th inner map are the p-th total. */
  lemma TotalAt(m: JsMap<JsMap<real>>, posts: map<string, (string, string)>, rows: seq<InsightRow>, now: int, days: int, p: nat)
    requires Holds(m, posts, rows, now, days) && p < |m.order|
    ensures var key := m.order[p];
            && key in m.entries && key in posts && m.entries[key].Valid() && p < |Totals(rows, now, days)|
            && Totals(rows, now, days)[p] == PostTotals(posts[key].0, posts[key].1,
                 SumPicked(m.entries[key].order, m.entries[key].entries, EngagementMetrics()),
                 SumPicked(m.entries[key].order, m.entries[key].entries, ImpressionMetrics()))
  {
    var key, firsts := m.order[p], FirstRows(rows, now, days);
    assert HoldsPost(MetricsOf(m.entries, key), rows, now, days, key);
    assert key in m.order && Keys(firsts)[p] == key;
    MetricListsAreDisjoint();
    hide HoldsPost, SumPicked, SumOfMax, AllDistinct;
    PickedIsMax(m.entries[key], EngagementMetrics(), rows, now, days, key);
    PickedIsMax(m.entries[key], ImpressionMetrics(), rows, now, days, key);
  }

  /** The sum of the entries at those keys that are picked. */
  function SumPicked(keys: seq<string>, entries: map<string, real>, picked: seq<string>): real
    requires forall k | k in keys :: k in entries
  {
    if keys == [] then 0.0
    else
      var last := keys[|keys| - 1];
      SumPicked(keys[..|keys| - 1], entries, picked) + (if last in picked then entries[last] else 0.0)
  }

  function SumList(picked: seq<string>, entries: map<string, real>): real {
    if picked == [] then 0.0
    else
      var last := picked[|picked| - 1];
      SumList(picked[..|picked| - 1], entries) + (if last in entries then entries[last] else 0.0)
  }

  lemma MetricListsAreDisjoint()
    ensures AllDistinct(EngagementMetrics()) && AllDistinct(ImpressionMetrics())
    ensures forall m | m in ImpressionMetrics() :: m !in EngagementMetrics()
  {
  }

  lemma {:induction false} SumListWithout(picked: seq<string>, entries: map<string, real>, k: string)
    requires AllDistinct(picked) && k in entries
    ensures SumList(picked, entries) == SumList(picked, entries - {k}) + (if k in picked then entries[k] else 0.0)
    decreases picked
  {
    if picked != [] {
      var n := |picked| - 1;
      SumListWithout(picked[..n], entries, k);
      assert k in picked <==> k in picked[..n] || k == picked[n];
    }
  }

  lemma {:induction false} SumPickedAgrees(keys: seq<string>, a: map<string, real>, b: map<string, real>, picked: seq<string>)
    requires forall k | k in keys :: k in a && k in b && a[k] == b[k]
    ensures SumPicked(keys, a, picked) == SumPicked(keys, b, picked)
    decreases keys
  {
    if keys != [] {
      SumPickedAgrees(keys[..|keys| - 1], a, b, picked);
    }
  }

  /** Adding up a map in insertion order or along a fixed list of keys is the same. */
  lemma {:induction false} SumOrderIrrelevant(keys: seq<string>, entries: map<string, real>, picked: seq<string>)
    requires AllDistinct(keys) && AllDistinct(picked) && forall k :: k in entries <==> k in keys
    ensures SumPicked(keys, entries, picked) == SumList(picked, entries)
    decreases keys
  {
    if keys == [] {
      SumListOfNothing(picked, entries);
    } else {
      var n := |keys| - 1;
      var fewer := entries - {keys[n]};
      forall k
        ensures k in fewer <==> k in keys[..n]
      {
        if k in keys[..n] {
          var i :| 0 <= i < n && keys[i] == k;
          assert keys[i] != keys[n];
        }
      }
      SumOrderIrrelevant(keys[..n], fewer, picked);
      SumPickedAgrees(keys[..n], entries, fewer, picked);
      SumListWithout(picked, entries, keys[n]);
    }
  }

  lemma {:induction false} SumListOfNothing(picked: seq<string>, entries: map<string, real>)
    requires forall k :: k !in entries
    ensures SumList(picked, entries) == 0.0
    decreases picked
  {
    if picked != [] {
      SumListOfNothing(picked[..|picked| - 1], entries);
    }
  }

  lemma {:induction false} SumListIsMax(picked: seq<string>, entries: map<string, real>, rows: seq<InsightRow>, now: int, days: int, key: string)
    requires HoldsPost(entries, rows, now, days, key)
    ensures SumList(picked, entries) == SumOfMax(picked, rows, now, days, key)
    decreases picked
  {
    if picked != [] {
      SumListIsMax(picked[..|picked| - 1], entries, rows, now, days, key);
    }
  }

  lemma PickedIsMax(metrics: JsMap<real>, picked: seq<string>, rows: seq<InsightRow>, now: int, days: int, key: string)
    requires metrics.Valid() && AllDistinct(picked) && HoldsPost(metrics.entries, rows, now, days, key)
    ensures SumPicked(metrics.order, metrics.entries, picked) == SumOfMax(picked, rows, now, days, key)
  {
    SumOrderIrrelevant(metrics.order, metrics.entries, picked);
    SumListIsMax(picked, metrics.entries, rows, now, days, key);
  }

  /** A row that does not count, or reads another post, changes nothing about a post. */
  lemma OtherRow(metrics: map<string, real>, rows: seq<InsightRow>, now: int, days: int, key: string)
    requires rows != [] && HoldsPost(metrics, rows[..|rows| - 1], now, days, key)
    requires var r := rows[|rows| - 1]; !Counts(r, now, days) || Key(r.platform, r.objectId) != key
    ensures HoldsPost(metrics, rows, now, days, key)
  {
  }

  lemma SkipRow(m: JsMap<JsMap<real>>, posts: map<string, (string, string)>, rows: seq<InsightRow>, now: int, days: int)
    requires rows != [] && Holds(m, posts, rows[..|rows| - 1], now, days) && !Counts(rows[|rows| - 1], now, days)
    ensures Holds(m, posts, rows, now, days)
  {
    forall k
      ensures HoldsPost(MetricsOf(m.entries, k), rows, now, days, k)
    {
      OtherRow(MetricsOf(m.entries, k), rows, now, days, k);
    }
    hide HoldsPost, Counts;
  }

  /** The inner map of the row's post after the row. */
  function Raised(m: JsMap<JsMap<real>>, row: InsightRow): JsMap<real>
    requires Key(row.platform, row.objectId) in m.entries ==> m.entries[Key(row.platform, row.objectId)].Valid()
  {
    var key, metric := Key(row.platform, row.objectId), Lower(row.metric);
    var metrics := if key in m.entries then m.entries[key] else JsMap([], map[]);
    if metric !in metrics.entries || row.value > metrics.entries[metric] then metrics.Put(metric, row.value) else metrics
  }

  lemma RaisedHolds(m: JsMap<JsMap<real>>, rows: seq<InsightRow>, now: int, days: int)
    requires rows != [] && HoldsAll(m.entries, rows[..|rows| - 1], now, days) && Counts(rows[|rows| - 1], now, days)
    ensures var row := rows[|rows| - 1];
            Raised(m, row).Valid() && HoldsPost(Raised(m, row).entries, rows, now, days, Key(row.platform, row.objectId))
  {
    var before, row := rows[..|rows| - 1], rows[|rows| - 1];
    var key := Key(row.platform, row.objectId);
    var metrics, raised := MetricsOf(m.entries, key), Raised(m, row).entries;
    assert HoldsPost(metrics, before, now, days, key);
    forall metric
      ensures MaxReading(rows, now, days, key, metric) == if metric in raised then Some(raised[metric]) else None
    {
      assert MaxReading(before, now, days, key, metric) == if metric in metrics then Some(metrics[metric]) else None;
      assert Reads(row, now, days, key, metric) <==> Lower(row.metric) == metric;
      hide HoldsPost, Reads, Counts, Key, Lower;
    }
    hide EngagementMetrics, ImpressionMetrics, PostLikeTypes, WithinWindow, Lower, Key, MaxReading;
  }

  lemma AddRowValues(m: JsMap<JsMap<real>>, rows: seq<InsightRow>, now: int, days: int)
    requires rows != [] && HoldsAll(m.entries, rows[..|rows| - 1], now, days) && Counts(rows[|rows| - 1], now, days)
    ensures var row := rows[|rows| - 1];
            HoldsAll(m.entries[Key(row.platform, row.objectId) := Raised(m, row)], rows, now, days)
  {
    var row := rows[|rows| - 1];
    var key := Key(row.platform, row.objectId);
    var after := m.entries[key := Raised(m, row)];
    RaisedHolds(m, rows, now, days);
    forall k
      ensures HoldsPost(MetricsOf(after, k), rows, now, days, k)
    {
      if k != key {
        assert MetricsOf(after, k) == MetricsOf(m.entries, k);
        OtherRow(MetricsOf(m.entries, k), rows, now, days, k);
      }
      hide HoldsPost, Counts, Raised;
    }
    hide HoldsPost, Counts, Raised, Key, MetricsOf;
  }

  lemma AddRowPosts(m: JsMap<JsMap<real>>, posts: map<string, (string, string)>, firsts: seq<InsightRow>, row: InsightRow, v: JsMap<real>)
    requires ListsPosts(m, posts, firsts)
    ensures var key := Key(row.platform, row.objectId);
            ListsPosts(m.Put(key, v),
                       if key in m.entries then posts else posts[key := (row.platform, row.objectId)],
                       if key in Keys(firsts) then firsts else firsts + [row])
  {
    var key := Key(row.platform, row.objectId);
    assert key in m.entries <==> key in Keys(firsts);
    if key !in m.entries {
      NewPost(m, posts, firsts, row, v, key);
    }
  }

  lemma NewPost(m: JsMap<JsMap<real>>, posts: map<string, (string, string)>, firsts: seq<InsightRow>, row: InsightRow,
                v: JsMap<real>, key: string)
    requires ListsPosts(m, posts, firsts) && key == Key(row.platform, row.objectId) && key !in m.entries
    ensures ListsPosts(m.Put(key, v), posts[key := (row.platform, row.objectId)], firsts + [row])
  {
    var after, p := firsts + [row], posts[key := (row.platform, row.objectId)];
    assert Keys(after) == Keys(firsts) + [key];
    hide Keys, Key;
    assert m.Put(key, v).order == Keys(after);
    forall i | 0 <= i < |after|
      ensures Keys(after)[i] in p && p[Keys(after)[i]] == (after[i].platform, after[i].objectId)
    {
      if i < |firsts| {
        assert Keys(after)[i] == Keys(firsts)[i] && Keys(firsts)[i] in m.order;
      }
    }
  }

  lemma AddRow(m: JsMap<JsMap<real>>, posts: map<string, (string, string)>, rows: seq<InsightRow>, now: int, days: int)
    requires rows != [] && Holds(m, posts, rows[..|rows| - 1], now, days) && Counts(rows[|rows| - 1], now, days)
    ensures var row := rows[|rows| - 1];
            var key := Key(row.platform, row.objectId);
            Holds(m.Put(key, Raised(m, row)),
                  if key in m.entries then posts else posts[key := (row.platform, row.objectId)], rows, now, days)
  {
    var row := rows[|rows| - 1];
    AddRowPosts(m, posts, FirstRows(rows[..|rows| - 1], now, days), row, Raised(m, row));
    AddRowValues(m, rows, now, days);
    hide ListsPosts, HoldsAll, Counts, Raised;
  }

  // ---------------------------------------------------------------- the totals as a map

  lemma {:induction false} MaxReadingIsMax(rows: seq<InsightRow>, now: int, days: int, key: string, metric: string)
    ensures var m := MaxReading(rows, now, days, key, metric);
            && (m.Some? ==> exists i :: 0 <= i < |rows| && Reads(rows[i], now, days, key, metric) && rows[i].value == m.value)
            && forall i | 0 <= i < |rows| && Reads(rows[i], now, days, key, metric) :: m.Some? && rows[i].value <= m.value
    decreases rows
  {
    hide Reads;
    if rows != [] {
      var n := |rows| - 1;
      MaxReadingIsMax(rows[..n], now, days, key, metric);
      var m, before := MaxReading(rows, now, days, key, metric), MaxReading(rows[..n], now, days, key, metric);
      if m.Some? && m == before {
        var i :| 0 <= i < n && Reads(rows[..n][i], now, days, key, metric) && rows[..n][i].value == m.value;
        assert rows[i] == rows[..n][i];
      }
      forall i | 0 <= i < |rows| && Reads(rows[i], now, days, key, metric)
        ensures m.Some? && rows[i].value <= m.value
      {
        if i < n {
          assert rows[..n][i] == rows[i];
        }
      }
    }
  }

  function PostKeys(rows: seq<InsightRow>, now: int, days: int): set<string> {
    set r | r in rows && Counts(r, now, days) :: Key(r.platform, r.objectId)
  }

  /** The aggregation as a map: per post, the summed maxima of the two metric families. */
  function TotalsMap(rows: seq<InsightRow>, now: int, days: int): map<string, (real, real)> {
    map key | key in PostKeys(rows, now, days) :: Sums(rows, now, days, key)
  }

  function Sums(rows: seq<InsightRow>, now: int, days: int, key: string): (real, real) {
    (SumOfMax(EngagementMetrics(), rows, now, days, key), SumOfMax(ImpressionMetrics(), rows, now, days, key))
  }

  lemma {:induction false} FirstRowsListPosts(rows: seq<InsightRow>, now: int, days: int)
    ensures AllDistinct(Keys(FirstRows(rows, now, days)))
    ensures forall r | r in FirstRows(rows, now, days) :: r in rows && Counts(r, now, days)
    ensures forall key :: key in Keys(FirstRows(rows, now, days)) <==> key in PostKeys(rows, now, days)
    decreases rows
  {
    if rows != [] {
      hide Counts, Key;
      var before, r := rows[..|rows| - 1], rows[|rows| - 1];
      var firsts := FirstRows(before, now, days);
      FirstRowsListPosts(before, now, days);
      assert rows == before + [r];
      assert Keys(firsts + [r]) == Keys(firsts) + [Key(r.platform, r.objectId)];
      assert PostKeys(rows, now, days)
             == PostKeys(before, now, days) + (if Counts(r, now, days) then {Key(r.platform, r.objectId)} else {});
    }
  }

  /** The list the aggregation returns is that map: every post once, with its two sums. */
  lemma TotalsAreMap(rows: seq<InsightRow>, now: int, days: int)
    ensures var totals := Totals(rows, now, days);
            && (forall i, j | 0 <= i < j < |totals| :: KeyOf(totals[i]) != KeyOf(totals[j]))
            && (forall key :: key in TotalsMap(rows, now, days) <==> exists i :: 0 <= i < |totals| && KeyOf(totals[i]) == key)
            && forall i | 0 <= i < |totals| ::
                 TotalsMap(rows, now, days)[KeyOf(totals[i])] == (totals[i].engagement, totals[i].impressions)
  {
    var totals, keys := Totals(rows, now, days), Keys(FirstRows(rows, now, days));
    FirstRowsListPosts(rows, now, days);
    assert forall i | 0 <= i < |totals| :: KeyOf(totals[i]) == keys[i] && keys[i] in keys;
    forall key | key in TotalsMap(rows, now, days)
      ensures exists i :: 0 <= i < |totals| && KeyOf(totals[i]) == key
    {
      var i :| 0 <= i < |keys| && keys[i] == key;
      assert KeyOf(totals[i]) == key;
    }
  }

  function KeyOf(t: PostTotals): string { Key(t.platform, t.objectId) }

  /** Every counting row of `b` is matched in `a` by a reading of the same metric of the same post at least as large. */
  ghost predicate Dominates(a: seq<InsightRow>, b: seq<InsightRow>, now: int, days: int) {
    forall r | r in b && Counts(r, now, days) :: IsMatched(r, a, now, days)
  }

  ghost predicate IsMatched(r: InsightRow, a: seq<InsightRow>, now: int, days: int) {
    exists x :: x in a && Reads(x, now, days, Key(r.platform, r.objectId), Lower(r.metric)) && x.value >= r.value
  }

  lemma DominatedMax(a: seq<InsightRow>, b: seq<InsightRow>, now: int, days: int, key: string, metric: string)
    requires Dominates(a, b, now, days)
    ensures var m, n := MaxReading(a, now, days, key, metric), MaxReading(b, now, days, key, metric);
            n.Some? ==> m.Some? && m.value >= n.value
  {
    MaxReadingIsMax(a, now, days, key, metric);
    MaxReadingIsMax(b, now, days, key, metric);
    var n := MaxReading(b, now, days, key, metric);
    if n.Some? {
      var i :| 0 <= i < |b| && Reads(b[i], now, days, key, metric) && b[i].value == n.value;
      assert IsMatched(b[i], a, now, days);
      var x :| x in a && Reads(x, now, days, key, metric) && x.value >= b[i].value;
      var j :| 0 <= j < |a| && a[j] == x;
    }
  }

  lemma {:induction false} SameSums(metrics: seq<string>, a: seq<InsightRow>, b: seq<InsightRow>, now: int, days: int, key: string)
    requires Dominates(a, b, now, days) && Dominates(b, a, now, days)
    ensures SumOfMax(metrics, a, now, days, key) == SumOfMax(metrics, b, now, days, key)
    decreases metrics
  {
    if metrics != [] {
      SameSums(metrics[..|metrics| - 1], a, b, now, days, key);
      DominatedMax(a, b, now, days, key, metrics[|metrics| - 1]);
      DominatedMax(b, a, now, days, key, metrics[|metrics| - 1]);
    }
  }

  /**
   * As a map the aggregation depends only on the largest reading of each metric: two row
   * lists that dominate each other have the same totals.
   */
  lemma OnlyMaximaMatter(a: seq<InsightRow>, b: seq<InsightRow>, now: int, days: int)
    requires Dominates(a, b, now, days) && Dominates(b, a, now, days)
    ensures TotalsMap(a, now, days) == TotalsMap(b, now, days)
  {
    hide *;
    DominatedKeys(a, b, now, days);
    DominatedKeys(b, a, now, days);
    SamePairs(a, b, now, days);
    TotalsMapExtends(a, b, now, days);
  }

  lemma SamePairs(a: seq<InsightRow>, b: seq<InsightRow>, now: int, days: int)
    requires Dominates(a, b, now, days) && Dominates(b, a, now, days)
    ensures forall key :: Sums(a, now, days, key) == Sums(b, now, days, key)
  {
    forall key
      ensures Sums(a, now, days, key) == Sums(b, now, days, key)
    {
      SameSums(EngagementMetrics(), a, b, now, days, key);
      SameSums(ImpressionMetrics(), a, b, now, days, key);
      hide SumOfMax;
    }
  }

  lemma TotalsMapExtends(a: seq<InsightRow>, b: seq<InsightRow>, now: int, days: int)
    requires PostKeys(a, now, days) == PostKeys(b, now, days)
    requires forall key :: Sums(a, now, days, key) == Sums(b, now, days, key)
    ensures TotalsMap(a, now, days) == TotalsMap(b, now, days)
  {
    hide Sums, PostKeys;
  }

  lemma DominatedKeys(a: seq<InsightRow>, b: seq<InsightRow>, now: int, days: int)
    requires Dominates(a, b, now, days)
    ensures PostKeys(b, now, days) <= PostKeys(a, now, days)
  {
    forall key | key in PostKeys(b, now, days)
      ensures key in PostKeys(a, now, days)
    {
      var r :| r in b && Counts(r, now, days) && Key(r.platform, r.objectId) == key;
      assert IsMatched(r, a, now, days);
    }
  }

  /** In particular row order and duplicated rows are irrelevant. */
  lemma OrderAndDuplicatesIrrelevant(a: seq<InsightRow>, b: seq<InsightRow>, now: int, days: int)
    requires forall r :: r in a <==> r in b
    ensures TotalsMap(a, now, days) == TotalsMap(b, now, days)
  {
    forall r | r in a && Counts(r, now, days)
      ensures IsMatched(r, a, now, days) && IsMatched(r, b, now, days)
    {
      assert Reads(r, now, days, Key(r.platform, r.objectId), Lower(r.metric));
    }
    OnlyMaximaMatter(a, b, now, days);
  }

  /** And so is a row whose metric has an in-window reading at least as large elsewhere. */
  lemma DominatedRowIrrelevant(rows: seq<InsightRow>, r: InsightRow, now: int, days: int)
    requires !Counts(r, now, days) || IsMatched(r, rows, now, days)
    ensures TotalsMap(rows + [r], now, days) == TotalsMap(rows, now, days)
  {
    forall x | x in rows && Counts(x, now, days)
      ensures IsMatched(x, rows, now, days) && IsMatched(x, rows + [r], now, days)
    {
      assert Reads(x, now, days, Key(x.platform, x.objectId), Lower(x.metric));
      assert x in rows + [r];
    }
    assert Dominates(rows, rows + [r], now, days);
    assert Dominates(rows + [r], rows, now, days);
    OnlyMaximaMatter(rows + [r], rows, now, days);
  }

  // ---------------------------------------------------------------- post identity

  /** Platform names do not contain the separator of the map key. */
  ghost predicate PlainPlatforms(rows: seq<InsightRow>) { forall r | r in rows :: '\0' !in r.platform }

  /** The key identifies the post as long as platform names are plain. */
  lemma KeyIdentifiesPost(p: string, a: string, q: string, b: string)
    requires '\0' !in p && '\0' !in q && Key(p, a) == Key(q, b)
    ensures p == q && a == b
  {
    var k := Key(p, a);
    SeparatorInside(p, a, q, b);
    SeparatorInside(q, b, p, a);
    assert p == k[..|p|] && q == k[..|q|];
    assert a == k[|p| + 1..] && b == k[|q| + 1..];
  }

  lemma SeparatorInside(p: string, a: string, q: string, b: string)
    requires Key(p, a) == Key(q, b)
    ensures |p| < |q| ==> '\0' in q
  {
    var k := Key(p, a);
    if |p| < |q| {
      assert k[|p|] == '\0' && k[|p|] == q[|p|];
    }
  }

  /** With the separator inside a platform name two different posts share a key. */
  lemma SeparatorCollision()
    ensures Key("a\0b", "c") == Key("a", "b\0c") && "a\0b" != "a"
  {
  }
}
