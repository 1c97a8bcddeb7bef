/** What the insights report means: each figure of `ComputeInsights` stated
    against an independent count over the items, and the report's behaviour on
    boundary inputs. */
module InsightsFacts {
  import opened Optional
  import opened Time
  import opened Counter
  import opened Content
  import opened Insights

  // ---------------------------------------------------------------------------
  // Weekly counts

  /** An item falls in week `ws` of the table exactly when it was posted
      during that week. */
  lemma WeekOfIff(it: Item, lo: int, ws: int)
    requires IsWeekStart(ws) && lo <= ws
    ensures WeekOf(it, lo) == Some(ws) <==> PostedBetween(it, ws, ws + WEEK)
  {
    if PostInstant(it).Some? {
      WeekFloorUnique(PostInstant(it).value, ws);
    }
  }

  lemma {:induction false} WeekKeysCount(items: seq<Item>, lo: int, ws: int)
    requires IsWeekStart(ws) && lo <= ws
    ensures multiset(WeekKeys(items, lo))[ws] == PostsBetween(items, ws, ws + WEEK)
  {
    if |items| > 0 {
      WeekKeysCount(items[1..], lo, ws);
      WeekOfIff(items[0], lo, ws);
      assert WeekKeys(items, lo) ==
        (if WeekOf(items[0], lo).Some? then [WeekOf(items[0], lo).value] else []) + WeekKeys(items[1..], lo);
    }
  }

  /** The weekly table's count for a week start inside the window is the number
      of items posted in that week. */
  lemma WeekCount(items: seq<Item>, lo: int, ws: int)
    requires IsWeekStart(ws) && lo <= ws
    ensures Lookup(Count(WeekKeys(items, lo)), ws) == PostsBetween(items, ws, ws + WEEK)
  {
    CountSpec(WeekKeys(items, lo));
    WeekKeysCount(items, lo, ws);
  }

  /** The series of the report is built from the weekly table. */
  lemma ReportSeries(items: seq<Item>, now: int)
    ensures ComputeInsights(items, now).series == WeeklySeries(Count(WeekKeys(items, WindowStart(now))), now)
  {
  }

  /** The week summary of the report reads the weekly table. */
  lemma ReportSummary(items: seq<Item>, now: int)
    ensures var r := ComputeInsights(items, now);
      var weeks := Count(WeekKeys(items, WindowStart(now)));
      && r.thisWeek == Lookup(weeks, WeekFloor(now))
      && r.lastWeek == Lookup(weeks, WeekFloor(now) - WEEK)
      && r.delta == r.thisWeek - r.lastWeek
  {
  }

  /** Bucket `w` of the series starts `WEEKS_BACK - 1 - w` weeks before the
      week of `now` and counts the items posted in its week. */
  lemma SeriesWeekOf(now: int, w: int)
    requires 0 <= w < WEEKS_BACK
    ensures SeriesWeek(now, w) == WeekFloor(now) - (WEEKS_BACK - 1 - w) * WEEK
    ensures IsWeekStart(SeriesWeek(now, w))
  {
    var k := WEEKS_BACK - 1 - w;
    WeekFloorShift(now, -k);
    assert now + (-k) * WEEK == now - k * WEEK;
  }

  lemma SeriesBucket(items: seq<Item>, now: int, w: int)
    requires 0 <= w < WEEKS_BACK
    ensures SeriesWeek(now, w) == WeekFloor(now) - (WEEKS_BACK - 1 - w) * WEEK
    ensures Lookup(Count(WeekKeys(items, WindowStart(now))), SeriesWeek(now, w))
            == PostsBetween(items, SeriesWeek(now, w), SeriesWeek(now, w) + WEEK)
  {
    SeriesWeekOf(now, w);
    WeekCount(items, WindowStart(now), SeriesWeek(now, w));
  }

  /** Consecutive buckets of the series are one week apart. */
  lemma SeriesWeekStep(now: int, w: int)
    requires 0 < w < WEEKS_BACK
    ensures SeriesWeek(now, w) == SeriesWeek(now, w - 1) + WEEK
  {
    var k := WEEKS_BACK - 1 - w;
    var t := now - (k + 1) * WEEK;
    assert (k + 1) * WEEK == k * WEEK + WEEK;
    assert now - k * WEEK == t + 1 * WEEK;
    WeekFloorShift(t, 1);
  }

  /** The series' week starts: Monday midnights, one week apart, the last
      being the week of `now`. The report's series is `WeeklySeries` of the
      week table, so this is the shape of every report's series. */
  lemma SeriesShape(weeks: seq<Entry<int>>, now: int)
    ensures var s := WeeklySeries(weeks, now);
      && |s| == WEEKS_BACK
      && s[WEEKS_BACK - 1].weekStart == WeekFloor(now)
      && (forall w :: 0 <= w < |s| ==> IsWeekStart(s[w].weekStart))
      && (forall w :: 0 < w < |s| ==> s[w].weekStart == s[w - 1].weekStart + WEEK)
  {
    var s := WeeklySeries(weeks, now);
    assert now - 0 * WEEK == now;
    forall w | 0 < w < WEEKS_BACK ensures s[w].weekStart == s[w - 1].weekStart + WEEK {
      SeriesWeekStep(now, w);
    }
  }

  /** Every bucket counts the items posted during its week. */
  lemma SeriesCounts(items: seq<Item>, now: int)
    ensures var s := WeeklySeries(Count(WeekKeys(items, WindowStart(now))), now);
      forall w :: 0 <= w < |s| ==> s[w].count == PostsBetween(items, s[w].weekStart, s[w].weekStart + WEEK)
  {
    var s := WeeklySeries(Count(WeekKeys(items, WindowStart(now))), now);
    forall w | 0 <= w < WEEKS_BACK
      ensures s[w].count == PostsBetween(items, s[w].weekStart, s[w].weekStart + WEEK)
    {
      SeriesBucket(items, now, w);
    }
  }

  /** Each bucket of the series counts the items posted during its week. */
  lemma SeriesBucketCounts(items: seq<Item>, now: int)
    ensures var s := ComputeInsights(items, now).series;
      forall w :: 0 <= w < |s| ==> s[w].count == PostsBetween(items, s[w].weekStart, s[w].weekStart + WEEK)
  {
    ReportSeries(items, now);
    SeriesCounts(items, now);
  }

  /** This week's and last week's entries of the weekly table count the
      items posted in those weeks. */
  lemma SummaryCounts(items: seq<Item>, now: int)
    ensures var weeks := Count(WeekKeys(items, WindowStart(now)));
      var w := WeekFloor(now);
      && Lookup(weeks, w) == PostsBetween(items, w, w + WEEK)
      && Lookup(weeks, w - WEEK) == PostsBetween(items, w - WEEK, w)
  {
    SeriesBucket(items, now, WEEKS_BACK - 1);
    SeriesBucket(items, now, WEEKS_BACK - 2);
    assert SeriesWeek(now, WEEKS_BACK - 1) == WeekFloor(now);
    assert SeriesWeek(now, WEEKS_BACK - 2) == WeekFloor(now) - WEEK;
  }

  /** The week summary counts this week's and last week's posts, and the delta
      is their difference. */
  lemma WeekSummary(items: seq<Item>, now: int)
    ensures var r := ComputeInsights(items, now);
      var w := WeekFloor(now);
      && r.thisWeek == PostsBetween(items, w, w + WEEK)
      && r.lastWeek == PostsBetween(items, w - WEEK, w)
      && r.delta == r.thisWeek - r.lastWeek
  {
    ReportSummary(items, now);
    SummaryCounts(items, now);
  }

  /** The last two buckets of a series hold the table's counts for the week
      of `now` and the week before. */
  lemma SeriesTail(weeks: seq<Entry<int>>, now: int)
    ensures |WeeklySeries(weeks, now)| == WEEKS_BACK
    ensures WeeklySeries(weeks, now)[WEEKS_BACK - 1].count == Lookup(weeks, WeekFloor(now))
    ensures WeeklySeries(weeks, now)[WEEKS_BACK - 2].count == Lookup(weeks, WeekFloor(now) - WEEK)
  {
    SeriesShape(weeks, now);
    SeriesWeekStep(now, WEEKS_BACK - 1);
  }

  /** The summary agrees with the last two buckets of the series. */
  lemma SummaryMatchesSeries(items: seq<Item>, now: int)
    ensures var r := ComputeInsights(items, now);
      && |r.series| == WEEKS_BACK
      && r.thisWeek == r.series[WEEKS_BACK - 1].count
      && r.lastWeek == r.series[WEEKS_BACK - 2].count
  {
    ReportSeries(items, now);
    ReportSummary(items, now);
    SeriesTail(Count(WeekKeys(items, WindowStart(now))), now);
  }

  // ---------------------------------------------------------------------------
  // Weekday histogram and the late-week suggestion

  lemma {:induction false} WeekdayKeysCount(items: seq<Item>, lo: int, d: int)
    ensures multiset(WeekdayKeys(items, lo))[d] == PostsOnWeekday(items, lo, d)
  {
    if |items| > 0 {
      WeekdayKeysCount(items[1..], lo, d);
      assert WeekdayKeys(items, lo) ==
        (if WeekdayOf(items[0], lo).Some? then [WeekdayOf(items[0], lo).value] else []) + WeekdayKeys(items[1..], lo);
    }
  }

  lemma {:induction false} WeekdayKeysLength(items: seq<Item>, lo: int)
    ensures |WeekdayKeys(items, lo)| == PostsSince(items, lo)
  {
    if |items| > 0 {
      WeekdayKeysLength(items[1..], lo);
      assert WeekdayKeys(items, lo) ==
        (if WeekdayOf(items[0], lo).Some? then [WeekdayOf(items[0], lo).value] else []) + WeekdayKeys(items[1..], lo);
    }
  }

  /** The weekday table counts, for each weekday, the posts of the window on
      that weekday, and all of them together are the window's posts. */
  lemma WeekdayTable(items: seq<Item>, lo: int)
    ensures var t := Count(WeekdayKeys(items, lo));
      && Total(t) == PostsSince(items, lo)
      && (forall d :: Lookup(t, d) == PostsOnWeekday(items, lo, d))
      && (forall d :: PostsOnWeekday(items, lo, d) > 0 ==> 0 <= d < 7)
  {
    CountSpec(WeekdayKeys(items, lo));
    WeekdayKeysLength(items, lo);
    forall d ensures multiset(WeekdayKeys(items, lo))[d] == PostsOnWeekday(items, lo, d) {
      WeekdayKeysCount(items, lo, d);
    }
    forall d | PostsOnWeekday(items, lo, d) > 0 ensures 0 <= d < 7 {
      CountWhereWitness(items, it => PostedSince(it, lo).Some? && Weekday(PostedSince(it, lo).value) == d);
    }
  }

  /** The weekday `max` picks: it has the most posts in the window, and among
      weekdays with as many posts its first post comes earliest. */
  predicate TopWeekday(items: seq<Item>, lo: int, d: int) {
    && 0 <= d < 7
    && PostsOnWeekday(items, lo, d) > 0
    && (forall e :: 0 <= e < 7 ==> PostsOnWeekday(items, lo, e) <= PostsOnWeekday(items, lo, d))
    && (forall e :: 0 <= e < 7 && PostsOnWeekday(items, lo, e) == PostsOnWeekday(items, lo, d) ==>
          FirstIndex(WeekdayKeys(items, lo), d) <= FirstIndex(WeekdayKeys(items, lo), e))
  }

  /** At most one weekday is the top weekday. */
  lemma TopWeekdayUnique(items: seq<Item>, lo: int, d1: int, d2: int)
    requires TopWeekday(items, lo, d1) && TopWeekday(items, lo, d2)
    ensures d1 == d2
  {
    var ks := WeekdayKeys(items, lo);
    WeekdayKeysCount(items, lo, d1);
    assert d1 in multiset(ks);
    assert FirstIndex(ks, d1) == FirstIndex(ks, d2);
  }

  /** The top weekday, read off the multiset of the window's weekdays. */
  lemma TopWeekdayOfKeys(items: seq<Item>, lo: int, d: int)
    requires var m := multiset(WeekdayKeys(items, lo));
      && 0 <= d < 7 && m[d] > 0
      && (forall e :: m[e] <= m[d])
      && (forall e :: m[e] == m[d] ==> FirstIndex(WeekdayKeys(items, lo), d) <= FirstIndex(WeekdayKeys(items, lo), e))
    ensures TopWeekday(items, lo, d)
  {
    forall e ensures multiset(WeekdayKeys(items, lo))[e] == PostsOnWeekday(items, lo, e) {
      WeekdayKeysCount(items, lo, e);
    }
  }

  /** With at least one post in the window, the table's first maximum is the
      top weekday. */
  lemma FirstMaxIsTopWeekday(items: seq<Item>, lo: int)
    requires PostsSince(items, lo) > 0
    ensures |Count(WeekdayKeys(items, lo))| > 0
    ensures TopWeekday(items, lo, FirstMax(Count(WeekdayKeys(items, lo))).key)
  {
    var ks := WeekdayKeys(items, lo);
    WeekdayKeysLength(items, lo);
    CountSpec(ks);
    assert Total(Count(ks)) > 0;
    FirstMaxOfCount(ks);
    var e := FirstMax(Count(ks));
    assert multiset(ks)[e.key] > 0 by {
      assert multiset(ks)[ks[0]] > 0;
    }
    WeekdayKeysCount(items, lo, e.key);
    WeekdayTable(items, lo);
    TopWeekdayOfKeys(items, lo, e.key);
  }

  /** The late-week test on the weekday table: enough posts in the window, and
      the top weekday is Friday, Saturday or Sunday. */
  lemma LateWeekOfWindow(items: seq<Item>, lo: int)
    ensures LateWeek(Count(WeekdayKeys(items, lo))) <==>
              PostsSince(items, lo) >= MIN_WEEKDAY_SAMPLES && exists d :: FRIDAY <= d < 7 && TopWeekday(items, lo, d)
  {
    var t := Count(WeekdayKeys(items, lo));
    WeekdayTable(items, lo);
    if PostsSince(items, lo) >= MIN_WEEKDAY_SAMPLES {
      FirstMaxIsTopWeekday(items, lo);
      var top := FirstMax(t).key;
      if d :| FRIDAY <= d < 7 && TopWeekday(items, lo, d) {
        TopWeekdayUnique(items, lo, d, top);
      }
    }
  }

  /** The suggestions of the report come from its own figures and the weekday
      table. */
  lemma ReportSuggestions(items: seq<Item>, now: int)
    ensures var r := ComputeInsights(items, now);
      r.suggestions == Suggest(r.delta, r.thisWeek, LateWeek(WeekdayCounts(items, now)), r.platforms, r.avgDays)
  {
  }

  /** The late-week suggestion is made exactly when the eight-week window holds
      at least six posts and its top weekday is Friday or later. */
  lemma LateWeekIff(items: seq<Item>, now: int)
    ensures var lo := WindowStart(now);
      LateWeekCluster in ComputeInsights(items, now).suggestions <==>
        PostsSince(items, lo) >= MIN_WEEKDAY_SAMPLES && exists d :: FRIDAY <= d < 7 && TopWeekday(items, lo, d)
  {
    var r := ComputeInsights(items, now);
    ReportSuggestions(items, now);
    SuggestLateAndDraft(r.delta, r.thisWeek, LateWeek(WeekdayCounts(items, now)), r.platforms, r.avgDays);
    LateWeekOfWindow(items, WindowStart(now));
  }

  /** A late weekday that beats every earlier weekday triggers the suggestion. */
  lemma LateWeekWhenLateLeads(items: seq<Item>, now: int, d: int)
    requires var lo := WindowStart(now);
      && PostsSince(items, lo) >= MIN_WEEKDAY_SAMPLES
      && FRIDAY <= d < 7
      && forall e :: 0 <= e < FRIDAY ==> PostsOnWeekday(items, lo, e) < PostsOnWeekday(items, lo, d)
    ensures LateWeekCluster in ComputeInsights(items, now).suggestions
  {
    var lo := WindowStart(now);
    FirstMaxIsTopWeekday(items, lo);
    LateWeekIff(items, now);
  }

  /** An early weekday that beats every late weekday rules the suggestion out. */
  lemma NoLateWeekWhenEarlyLeads(items: seq<Item>, now: int, d: int)
    requires var lo := WindowStart(now);
      && 0 <= d < FRIDAY
      && forall e :: FRIDAY <= e < 7 ==> PostsOnWeekday(items, lo, e) < PostsOnWeekday(items, lo, d)
    ensures LateWeekCluster !in ComputeInsights(items, now).suggestions
  {
    LateWeekIff(items, now);
  }

  // ---------------------------------------------------------------------------
  // Platform breakdown

  lemma {:induction false} PlatformLabelsCount(items: seq<Item>, lo: int, name: string)
    ensures multiset(PlatformLabels(items, lo))[name] == PostsOnPlatform(items, lo, name)
  {
    if |items| > 0 {
      PlatformLabelsCount(items[1..], lo, name);
      assert PlatformLabels(items, lo) ==
        (if LabelOf(items[0], lo).Some? then [LabelOf(items[0], lo).value] else []) + PlatformLabels(items[1..], lo);
    }
  }

  lemma {:induction false} PlatformLabelsLength(items: seq<Item>, lo: int)
    ensures |PlatformLabels(items, lo)| == PostsSince(items, lo)
  {
    if |items| > 0 {
      PlatformLabelsLength(items[1..], lo);
      assert PlatformLabels(items, lo) ==
        (if LabelOf(items[0], lo).Some? then [LabelOf(items[0], lo).value] else []) + PlatformLabels(items[1..], lo);
    }
  }

  /** The buckets of the breakdown are the sorted table's entries. */
  lemma BreakdownEntries(items: seq<Item>, now: int)
    ensures var labels := PlatformLabels(items, PlatformWindowStart(now));
      var sorted := MostCommon(Count(labels));
      var b := PlatformBreakdown(items, now);
      && |b| == |sorted|
      && forall i :: 0 <= i < |b| ==> b[i] == Bucket(sorted[i], |labels|)
  {
  }

  /** The sorted label table read through the buckets: every bucket's count is
      its label's number of occurrences, and every label has a bucket. */
  lemma BucketsOfLabels(labels: seq<string>, b: seq<PlatformBucket>)
    requires var sorted := MostCommon(Count(labels));
      && |b| == |sorted|
      && forall i :: 0 <= i < |b| ==> b[i].platform == sorted[i].key && b[i].count == sorted[i].count
    ensures forall i :: 0 <= i < |b| ==> b[i].count == multiset(labels)[b[i].platform] > 0
    ensures forall i, j :: 0 <= i < j < |b| ==> b[i].platform != b[j].platform
    ensures forall name :: name in labels ==> exists i :: 0 <= i < |b| && b[i].platform == name
  {
    MostCommonOfCount(labels);
  }

  /** Each platform of the breakdown comes with the number of posts of the
      thirty-day window carrying its label. */
  lemma PlatformCounts(items: seq<Item>, now: int)
    ensures var lo := PlatformWindowStart(now);
      var b := PlatformBreakdown(items, now);
      forall i :: 0 <= i < |b| ==> b[i].count == PostsOnPlatform(items, lo, b[i].platform) > 0
  {
    var lo := PlatformWindowStart(now);
    var b := PlatformBreakdown(items, now);
    BreakdownEntries(items, now);
    BucketsOfLabels(PlatformLabels(items, lo), b);
    forall i | 0 <= i < |b| ensures b[i].count == PostsOnPlatform(items, lo, b[i].platform) {
      PlatformLabelsCount(items, lo, b[i].platform);
    }
  }

  /** Each platform is listed once, and every label of the window is listed. */
  lemma PlatformsListed(items: seq<Item>, now: int)
    ensures var lo := PlatformWindowStart(now);
      var b := PlatformBreakdown(items, now);
      && (forall i, j :: 0 <= i < j < |b| ==> b[i].platform != b[j].platform)
      && (forall name :: PostsOnPlatform(items, lo, name) > 0 ==>
            exists i :: 0 <= i < |b| && b[i].platform == name)
  {
    var lo := PlatformWindowStart(now);
    var labels := PlatformLabels(items, lo);
    BreakdownEntries(items, now);
    BucketsOfLabels(labels, PlatformBreakdown(items, now));
    forall name | PostsOnPlatform(items, lo, name) > 0 ensures name in labels {
      PlatformLabelsCount(items, lo, name);
      assert name in multiset(labels);
    }
  }

  /** The breakdown lists platforms by descending count; equal counts keep the
      order in which the platforms' first posts appear among the items. */
  lemma PlatformOrder(items: seq<Item>, now: int)
    ensures var labels := PlatformLabels(items, PlatformWindowStart(now));
      var b := PlatformBreakdown(items, now);
      forall i, j :: 0 <= i < j < |b| ==>
        || b[i].count > b[j].count
        || (b[i].count == b[j].count && FirstIndex(labels, b[i].platform) < FirstIndex(labels, b[j].platform))
  {
    var labels := PlatformLabels(items, PlatformWindowStart(now));
    var t := Count(labels);
    BreakdownEntries(items, now);
    CountFirstOccurrenceOrder(labels);
    MostCommonRankOrdered(t, k => FirstIndex(labels, k));
  }

  function BucketTotal(b: seq<PlatformBucket>): nat {
    if |b| == 0 then 0 else b[0].count + BucketTotal(b[1..])
  }

  lemma {:induction false} BucketTotalOfEntries(b: seq<PlatformBucket>, t: seq<Entry<string>>)
    requires |b| == |t|
    requires forall i :: 0 <= i < |b| ==> b[i].count == t[i].count
    ensures BucketTotal(b) == Total(t)
  {
    if |b| > 0 {
      BucketTotalOfEntries(b[1..], t[1..]);
    }
  }

  /** The platform counts add up to the number of posts in the thirty-day window. */
  lemma PlatformTotal(items: seq<Item>, now: int)
    ensures BucketTotal(PlatformBreakdown(items, now)) == PostsSince(items, PlatformWindowStart(now))
  {
    var labels := PlatformLabels(items, PlatformWindowStart(now));
    BreakdownEntries(items, now);
    CountSpec(labels);
    MostCommonSpec(Count(labels));
    BucketTotalOfEntries(PlatformBreakdown(items, now), MostCommon(Count(labels)));
    PlatformLabelsLength(items, PlatformWindowStart(now));
  }

  /** Each listed percentage is the platform's share of the window's posts,
      within half of the last kept decimal. */
  lemma PlatformPercents(items: seq<Item>, now: int)
    ensures var n := PostsSince(items, PlatformWindowStart(now));
      var b := PlatformBreakdown(items, now);
      forall i :: 0 <= i < |b| ==>
        && n > 0
        && var share := (b[i].count as real) / (n as real) * 100.0;
           share - 0.05 < b[i].percent <= share + 0.05
  {
    var lo := PlatformWindowStart(now);
    var b := PlatformBreakdown(items, now);
    BreakdownEntries(items, now);
    PlatformLabelsLength(items, lo);
    PlatformCounts(items, now);
    forall i | 0 <= i < |b| ensures b[i].count <= PostsSince(items, lo) {
      PlatformLabelsCount(items, lo, b[i].platform);
      assert multiset(PlatformLabels(items, lo))[b[i].platform] <= |PlatformLabels(items, lo)|;
    }
  }

  // ---------------------------------------------------------------------------
  // Thresholds on rounded values

  /** The over-reliance test on a rounded percentage: one decimal of 70 or more
      means an exact share of at least 69.95, the half that rounds up. */
  lemma RelianceThreshold(share: real)
    ensures RoundTo(share, 10) >= RELIANCE_PERCENT <==> share >= 69.95
  {
    var f := (share * 10.0 + 0.5).Floor;
    assert f as real <= share * 10.0 + 0.5 < f as real + 1.0;
    assert RoundTo(share, 10) == (f as real) / 10.0;
  }

  /** The draft-earlier test on a rounded average: two decimals below 1 mean an
      exact average below 0.995. */
  lemma DraftThreshold(avg: real)
    ensures RoundTo(avg, 100) < 1.0 <==> avg < 0.995
  {
    var f := (avg * 100.0 + 0.5).Floor;
    assert f as real <= avg * 100.0 + 0.5 < f as real + 1.0;
    assert RoundTo(avg, 100) == (f as real) / 100.0;
  }

  /** The over-reliance suggestion names the top platform of the breakdown, and
      is made exactly when at least two platforms are listed and the top one
      holds at least 69.95 percent of the thirty-day window's posts. */
  lemma OverRelianceIff(items: seq<Item>, now: int, p: string)
    ensures var r := ComputeInsights(items, now);
      var b := r.platforms;
      var n := PostsSince(items, PlatformWindowStart(now));
      OverReliance(p) in r.suggestions <==>
        |b| >= 2 && p == b[0].platform && n > 0 && (b[0].count as real) / (n as real) * 100.0 >= 69.95
  {
    var r := ComputeInsights(items, now);
    var b := PlatformBreakdown(items, now);
    var lo := PlatformWindowStart(now);
    ReportSuggestions(items, now);
    assert r.platforms == b;
    SuggestReliance(r.delta, r.thisWeek, LateWeek(WeekdayCounts(items, now)), b, r.avgDays, p);
    if |b| > 0 {
      TopShare(items, now);
    }
  }

  /** The top platform is at 70 percent or more exactly when its exact share
      of the thirty-day window is at least 69.95 percent. */
  lemma TopShare(items: seq<Item>, now: int)
    requires |PlatformBreakdown(items, now)| > 0
    ensures var b := PlatformBreakdown(items, now);
      var n := PostsSince(items, PlatformWindowStart(now));
      && n > 0
      && (b[0].percent >= RELIANCE_PERCENT <==> (b[0].count as real) / (n as real) * 100.0 >= 69.95)
  {
    var lo := PlatformWindowStart(now);
    var b := PlatformBreakdown(items, now);
    var labels := PlatformLabels(items, lo);
    BreakdownEntries(items, now);
    PlatformLabelsLength(items, lo);
    MostCommonSpec(Count(labels));
    CountSpec(labels);
    assert |labels| > 0;
    RelianceThreshold((b[0].count as real) / (|labels| as real) * 100.0);
  }

  // ---------------------------------------------------------------------------
  // Idea-to-post latency

  /** A Posted item gives a latency sample exactly when it has both instants and
      was not posted before it was created; the sample is the elapsed time in
      days. */
  lemma LatencySampleSpec(it: Item)
    ensures LatencySample(it).Some? <==>
              && it.status == "Posted" && it.createdAt.Some? && PostInstant(it).Some?
              && PostInstant(it).value >= it.createdAt.value
    ensures LatencySample(it).Some? ==>
              LatencySample(it).value * (DAY as real) == (PostInstant(it).value - it.createdAt.value) as real
  {
    if ParseStatus(it.status) == Some(Posted) && PostInstant(it).Some? && it.createdAt.Some? {
      var d := (PostInstant(it).value - it.createdAt.value) as real;
      assert d / (DAY as real) >= 0.0 <==> d >= 0.0;
    }
    ParseStatusRoundTrip(Posted, it.status);
  }

  /** A Posted item without a scheduled time counts as posted when it was
      created, so it contributes a latency of zero days. */
  lemma UnscheduledPostIsZeroLatency(it: Item)
    requires it.status == "Posted" && it.scheduled.None? && it.createdAt.Some?
    ensures LatencySample(it) == Some(0.0)
  {
  }

  lemma {:induction false} SamplesNonNegative(items: seq<Item>)
    ensures forall i :: 0 <= i < |LatencySamples(items)| ==> LatencySamples(items)[i] >= 0.0
  {
    if |items| > 0 {
      SamplesNonNegative(items[1..]);
      assert LatencySamples(items) ==
        (if LatencySample(items[0]).Some? then [LatencySample(items[0]).value] else []) + LatencySamples(items[1..]);
    }
  }

  lemma {:induction false} SamplesEmpty(items: seq<Item>)
    ensures |LatencySamples(items)| == 0 <==> forall i :: 0 <= i < |items| ==> LatencySample(items[i]).None?
  {
    if |items| > 0 {
      SamplesEmpty(items[1..]);
      assert LatencySamples(items) ==
        (if LatencySample(items[0]).Some? then [LatencySample(items[0]).value] else []) + LatencySamples(items[1..]);
      assert forall i :: 1 <= i < |items| ==> items[i] == items[1..][i - 1];
    }
  }

  lemma {:induction false} SumAtLeast(xs: seq<real>, m: real)
    requires forall i :: 0 <= i < |xs| ==> m <= xs[i]
    ensures (|xs| as real) * m <= Sum(xs)
  {
    if |xs| > 0 {
      SumAtLeast(xs[1..], m);
    }
  }

  lemma {:induction false} SumAtMost(xs: seq<real>, m: real)
    requires forall i :: 0 <= i < |xs| ==> xs[i] <= m
    ensures Sum(xs) <= (|xs| as real) * m
  {
    if |xs| > 0 {
      SumAtMost(xs[1..], m);
    }
  }

  /** Multiplying by a positive factor keeps a strict order. */
  lemma MulMono(a: real, b: real, n: real)
    requires n > 0.0 && a < b
    ensures a * n < b * n
  {
    assert b * n - a * n == (b - a) * n;
  }

  /** A total of at least `n * lo`, shared out over `n`, is at least `lo`. */
  lemma DivAtLeast(s: real, n: real, lo: real)
    requires n > 0.0 && n * lo <= s
    ensures lo <= s / n
  {
    var q := s / n;
    assert q * n == s;
    if q < lo { MulMono(q, lo, n); }
  }

  /** A total of at most `n * hi`, shared out over `n`, is at most `hi`. */
  lemma DivAtMost(s: real, n: real, hi: real)
    requires n > 0.0 && s <= n * hi
    ensures s / n <= hi
  {
    var q := s / n;
    assert q * n == s;
    if hi < q { MulMono(hi, q, n); }
  }

  /** The smallest and the largest sample are samples. */
  lemma {:induction false} MinMaxAttained(xs: seq<real>)
    requires |xs| > 0
    ensures exists i :: 0 <= i < |xs| && MinOf(xs) == xs[i]
    ensures exists i :: 0 <= i < |xs| && MaxOf(xs) == xs[i]
  {
    if |xs| > 1 {
      MinMaxAttained(xs[1..]);
      var i :| 0 <= i < |xs[1..]| && MinOf(xs[1..]) == xs[1..][i];
      var j :| 0 <= j < |xs[1..]| && MaxOf(xs[1..]) == xs[1..][j];
      assert MinOf(xs) == xs[0] || MinOf(xs) == xs[i + 1];
      assert MaxOf(xs) == xs[0] || MaxOf(xs) == xs[j + 1];
    } else {
      assert MinOf(xs) == xs[0] && MaxOf(xs) == xs[0];
    }
  }

  /** The mean lies between the smallest and the largest sample. */
  lemma MeanBetween(xs: seq<real>)
    requires |xs| > 0
    ensures MinOf(xs) <= Mean(xs) <= MaxOf(xs)
  {
    MeanAtLeast(xs, MinOf(xs));
    MeanAtMost(xs, MaxOf(xs));
  }

  lemma MeanAtLeast(xs: seq<real>, m: real)
    requires |xs| > 0
    requires forall i :: 0 <= i < |xs| ==> m <= xs[i]
    ensures m <= Mean(xs)
  {
    SumAtLeast(xs, m);
    DivAtLeast(Sum(xs), |xs| as real, m);
  }

  lemma MeanAtMost(xs: seq<real>, m: real)
    requires |xs| > 0
    requires forall i :: 0 <= i < |xs| ==> xs[i] <= m
    ensures Mean(xs) <= m
  {
    SumAtMost(xs, m);
    DivAtMost(Sum(xs), |xs| as real, m);
  }

  /** The average is absent exactly when no item gives a sample; otherwise it is
      the mean of the samples to two decimals, and so lies between the smallest
      and the largest sample give or take half a hundredth. */
  lemma AverageLatencySpec(items: seq<Item>)
    ensures AverageLatency(items).None? <==> forall i :: 0 <= i < |items| ==> LatencySample(items[i]).None?
    ensures AverageLatency(items).Some? ==>
              var xs := LatencySamples(items);
              && |xs| > 0
              && Mean(xs) - 0.005 < AverageLatency(items).value <= Mean(xs) + 0.005
              && 0.0 <= MinOf(xs) <= Mean(xs) <= MaxOf(xs)
  {
    SamplesEmpty(items);
    var xs := LatencySamples(items);
    if |xs| > 0 {
      SamplesNonNegative(items);
      MinMaxAttained(xs);
      MeanBetween(xs);
      assert AverageLatency(items).value == RoundTo(Mean(xs), 100);
      assert 1.0 / (2.0 * 100 as real) == 0.005;
    }
  }

  /** The draft-earlier suggestion is made exactly when there are samples and
      their mean is below 0.995 days. */
  lemma DraftEarlierIff(items: seq<Item>, now: int)
    ensures var xs := LatencySamples(items);
      DraftEarlier in ComputeInsights(items, now).suggestions <==> |xs| > 0 && Mean(xs) < 0.995
  {
    var r := ComputeInsights(items, now);
    var xs := LatencySamples(items);
    ReportSuggestions(items, now);
    assert r.avgDays == AverageLatency(items);
    SuggestLateAndDraft(r.delta, r.thisWeek, LateWeek(WeekdayCounts(items, now)), r.platforms, r.avgDays);
    if |xs| > 0 {
      DraftThreshold(Mean(xs));
    }
  }
}
