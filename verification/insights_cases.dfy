/** How the insights report behaves on boundary inputs: no items at all, items
    without a post instant, and a single worked example. */
module InsightsCases {
  import opened Optional
  import opened Time
  import opened Counter
  import opened Content
  import opened Insights
  import opened InsightsFacts

  /** The report reads the items only through their week starts, weekdays,
      platform labels and latency samples. */
  lemma ReportOfKeys(xs: seq<Item>, ys: seq<Item>, now: int)
    requires WeekKeys(xs, WindowStart(now)) == WeekKeys(ys, WindowStart(now))
    requires WeekdayKeys(xs, WindowStart(now)) == WeekdayKeys(ys, WindowStart(now))
    requires PlatformLabels(xs, PlatformWindowStart(now)) == PlatformLabels(ys, PlatformWindowStart(now))
    requires LatencySamples(xs) == LatencySamples(ys)
    ensures ComputeInsights(xs, now) == ComputeInsights(ys, now)
  {
    assert WeekCounts(xs, now) == WeekCounts(ys, now);
    assert WeekdayCounts(xs, now) == WeekdayCounts(ys, now);
    assert PlatformBreakdown(xs, now) == PlatformBreakdown(ys, now);
    assert AverageLatency(xs) == AverageLatency(ys);
  }

  /** An item without a post instant (neither Posted nor Scheduled, or lacking
      the instants its status reads) changes nothing in the report, wherever it
      stands in the list. */
  lemma UnpostedItemIgnored(a: seq<Item>, x: Item, b: seq<Item>, now: int)
    requires PostInstant(x).None?
    ensures ComputeInsights(a + [x] + b, now) == ComputeInsights(a + b, now)
  {
    var lo := WindowStart(now);
    var plo := PlatformWindowStart(now);
    CollectSkip(a, x, b, it => WeekOf(it, lo));
    CollectSkip(a, x, b, it => WeekdayOf(it, lo));
    CollectSkip(a, x, b, it => LabelOf(it, plo));
    CollectSkip(a, x, b, LatencySample);
    ReportOfKeys(a + [x] + b, a + b, now);
  }

  /** Ideas, items in progress and items with any status outside the four
      known ones never affect the report. */
  lemma OnlyPostsCount(a: seq<Item>, x: Item, b: seq<Item>, now: int)
    requires x.status != "Posted" && x.status != "Scheduled"
    ensures ComputeInsights(a + [x] + b, now) == ComputeInsights(a + b, now)
  {
    PostInstantCases(x);
    UnpostedItemIgnored(a, x, b, now);
  }

  /** With no items the report is all zeros, with eight empty weeks, no
      platforms, no average and the single steady-week suggestion: the delta
      is 0 and this week has fewer than three posts. */
  lemma EmptyReport(now: int)
    ensures var r := ComputeInsights([], now);
      && r.thisWeek == 0 && r.lastWeek == 0 && r.delta == 0
      && |r.series| == WEEKS_BACK
      && (forall w :: 0 <= w < |r.series| ==> r.series[w].count == 0)
      && r.platforms == []
      && r.avgDays == None
      && r.suggestions == [SteadyWeek]
  {
    var lo := WindowStart(now);
    assert WeekKeys([], lo) == [] && WeekdayKeys([], lo) == [];
    assert PlatformLabels([], PlatformWindowStart(now)) == [];
    assert LatencySamples([]) == [];
    assert Count<int>([]) == [];
    assert MostCommon(Count<string>([])) == [];
    assert Suggest(0, 0, false, [], None) == [SteadyWeek];
  }

  /** Six platforms with one post each are listed at 16.7 percent apiece, so
      the listed percentages add up to 100.2, not 100. */
  lemma RoundedPercentsCanDrift(k: string)
    ensures Bucket(Entry(k, 1), 6).percent == 16.7
    ensures 6.0 * Bucket(Entry(k, 1), 6).percent == 100.2
  {
    assert Percent(1, 6) == 100.0 / 6.0;
    assert 100.0 / 6.0 * 10.0 + 0.5 == 1003.0 / 6.0;
    assert (1003.0 / 6.0).Floor == 167;
  }

  /** Eight posts on one platform and two on another: the first is listed at
      80 percent and the over-reliance suggestion names it. */
  lemma DominantPlatform(a: string, b: string, delta: int, thisWeek: nat, lateWeek: bool, avg: Option<real>)
    ensures Bucket(Entry(a, 8), 10) == PlatformBucket(a, 8, 80.0)
    ensures Bucket(Entry(b, 2), 10) == PlatformBucket(b, 2, 20.0)
    ensures OverReliance(a) in Suggest(delta, thisWeek, lateWeek, [Bucket(Entry(a, 8), 10), Bucket(Entry(b, 2), 10)], avg)
  {
    assert Percent(8, 10) == 80.0;
    assert RoundTo(80.0, 10) == 80.0;
    assert Percent(2, 10) == 20.0;
    assert RoundTo(20.0, 10) == 20.0;
    SuggestReliance(delta, thisWeek, lateWeek, [Bucket(Entry(a, 8), 10), Bucket(Entry(b, 2), 10)], avg, a);
  }

  /** A post scheduled for 09:00 on the Monday `m`, on " Blog ", created at
      09:00 the day before. */
  function ExampleItem(m: int): Item {
    Item("Posted", Some(m + 9 * 3600), " Blog ", Some(m - 15 * 3600))
  }

  lemma ExampleLabel()
    ensures PlatformLabel(" Blog ") == "Blog"
  {
    var blog := "Blog";
    assert LeadingSpaces(" Blog ") == 1;
    assert " Blog "[1..] == "Blog ";
    assert TrailingEnd("Blog ") == 4;
    assert Strip(" Blog ") == blog;
  }

  /** An instant on the same day as a midnight has that midnight's weekday. */
  lemma SameDayWeekday(m: int, t: int)
    requires m % DAY == 0 && m <= t < m + DAY
    ensures Weekday(t) == Weekday(m)
  {
    var q := m / DAY;
    assert m == q * DAY;
    assert t == q * DAY + (t - m);
    assert t / DAY == q;
  }

  /** The example post lies in the week of that Monday's noon, and on a Monday. */
  lemma ExampleWeek(m: int)
    requires IsWeekStart(m)
    ensures WeekFloor(m + 12 * 3600) == m
    ensures WeekKeys([ExampleItem(m)], WindowStart(m + 12 * 3600)) == [m]
    ensures WeekdayKeys([ExampleItem(m)], WindowStart(m + 12 * 3600)) == [0]
  {
    var t := m + 9 * 3600;
    WeekFloorUnique(m + 12 * 3600, m);
    WeekFloorUnique(t, m);
    WeekStartIsMondayMidnight(m);
    SameDayWeekday(m, t);
    assert PostInstant(ExampleItem(m)) == Some(t);
  }

  /** The example post is listed under "Blog", and alone. */
  lemma ExamplePlatform(m: int)
    ensures PlatformBreakdown([ExampleItem(m)], m + 12 * 3600) == [PlatformBucket("Blog", 1, 100.0)]
  {
    ExampleLabels(m);
    SingleLabelBreakdown([ExampleItem(m)], m + 12 * 3600, "Blog");
  }

  /** A single post in the thirty-day window is its platform's whole share. */
  lemma SingleLabelBreakdown(items: seq<Item>, now: int, l: string)
    requires PlatformLabels(items, PlatformWindowStart(now)) == [l]
    ensures PlatformBreakdown(items, now) == [PlatformBucket(l, 1, 100.0)]
  {
    assert Count([l]) == [Entry(l, 1)];
    assert MostCommon([Entry(l, 1)]) == [Entry(l, 1)];
    assert Percent(1, 1) == 100.0;
    assert RoundTo(100.0, 10) == 100.0;
  }

  lemma ExampleLabels(m: int)
    ensures PlatformLabels([ExampleItem(m)], PlatformWindowStart(m + 12 * 3600)) == ["Blog"]
  {
    ExampleLabel();
    assert PostInstant(ExampleItem(m)) == Some(m + 9 * 3600);
  }

  /** The example post was made one day after its creation. */
  lemma ExampleLatency(m: int)
    ensures AverageLatency([ExampleItem(m)]) == Some(1.0)
  {
    assert PostInstant(ExampleItem(m)) == Some(m + 9 * 3600);
    assert LatencySample(ExampleItem(m)) == Some(1.0);
    assert LatencySamples([ExampleItem(m)]) == [1.0];
    assert Mean([1.0]) == 1.0;
    assert RoundTo(1.0, 100) == 1.0;
  }

  /** The example's week summary and the last bucket of its series. */
  lemma ExampleSummary(m: int)
    requires IsWeekStart(m)
    ensures var r := ComputeInsights([ExampleItem(m)], m + 12 * 3600);
      && r.thisWeek == 1 && r.lastWeek == 0 && r.delta == 1
      && r.series[WEEKS_BACK - 1] == WeekBucket(m, 1)
  {
    var now := m + 12 * 3600;
    ExampleWeek(m);
    ReportSummary([ExampleItem(m)], now);
    ReportSeries([ExampleItem(m)], now);
    assert now - 0 * WEEK == now;
    assert Count([m]) == [Entry(m, 1)];
    assert Lookup([Entry(m, 1)], m - WEEK) == 0;
  }

  /** One post seen at noon of its Monday `m`: one post this week, none last
      week, a single platform at 100 percent, an average of exactly one day,
      and no suggestion, since a one-day average is not below one day. */
  lemma OnePostExample(m: int)
    requires IsWeekStart(m)
    ensures var r := ComputeInsights([ExampleItem(m)], m + 12 * 3600);
      && r.thisWeek == 1 && r.lastWeek == 0 && r.delta == 1
      && r.series[WEEKS_BACK - 1] == WeekBucket(m, 1)
      && r.platforms == [PlatformBucket("Blog", 1, 100.0)]
      && r.avgDays == Some(1.0)
      && r.suggestions == []
  {
    var items := [ExampleItem(m)];
    var now := m + 12 * 3600;
    ExampleSummary(m);
    ExampleWeek(m);
    ExamplePlatform(m);
    ExampleLatency(m);
    ReportSuggestions(items, now);
    assert Count([0]) == [Entry(0, 1)];
    assert !LateWeek(WeekdayCounts(items, now));
  }
}
