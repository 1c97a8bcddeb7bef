/** The insights aggregator: a pure function of a user's content items and the
    current instant, producing weekly post counts, a week-over-week delta, a
    platform breakdown, the average idea-to-post latency and suggestions.

    Neither window has an upper bound: a post scheduled after `now` still falls
    in the eight-week window and in the thirty-day window, so it is counted in
    its week, its weekday and its platform.
 */
module Insights {
  import opened Optional
  import opened Time
  import opened Counter
  import opened Content

  /** Weeks in the weekly series and in the histogram window. */
  const WEEKS_BACK: int := 8

  /** Days in the platform window. */
  const PLATFORM_DAYS: int := 30

  /** Share of one platform, in percent, from which the over-reliance
      suggestion is made. */
  const RELIANCE_PERCENT: real := 70.0

  /** Weekday index of Friday; Friday, Saturday and Sunday are late in the week. */
  const FRIDAY: int := 4

  /** Weekday samples needed before the late-week suggestion is considered. */
  const MIN_WEEKDAY_SAMPLES: int := 6

  /** Posts this week below which an unchanged week earns a suggestion. */
  const STEADY_WEEK_POSTS: int := 3

  datatype WeekBucket = WeekBucket(weekStart: int, count: nat)

  datatype PlatformBucket = PlatformBucket(platform: string, count: nat, percent: real)

  datatype Suggestion =
    | VolumeDown
    | SteadyWeek
    | LateWeekCluster
    | OverReliance(platform: string)
    | DraftEarlier

  datatype Report = Report(
    thisWeek: nat,
    lastWeek: nat,
    delta: int,
    series: seq<WeekBucket>,
    platforms: seq<PlatformBucket>,
    avgDays: Option<real>,
    suggestions: seq<Suggestion>)

  // ---------------------------------------------------------------------------
  // Windows and per-item keys

  /** Lower bound of the histogram window: eight weeks before `now`, truncated
      to midnight of that day (not to its Monday). */
  function WindowStart(now: int): int {
    Midnight(now - WEEKS_BACK * WEEK)
  }

  /** Lower bound of the platform window: thirty days before `now`, exactly. */
  function PlatformWindowStart(now: int): int {
    now - PLATFORM_DAYS * DAY
  }

  /** The item's post instant, when it has one at or after `lo`. */
  function PostedSince(it: Item, lo: int): Option<int> {
    match PostInstant(it)
    case Some(t) => if t >= lo then Some(t) else None
    case None => None
  }

  /** Whether the item's post instant lies in `[lo, hi)`. */
  predicate PostedBetween(it: Item, lo: int, hi: int) {
    PostInstant(it).Some? && lo <= PostInstant(it).value < hi
  }

  function WeekOf(it: Item, lo: int): Option<int> {
    match PostedSince(it, lo)
    case Some(t) => Some(WeekFloor(t))
    case None => None
  }

  function WeekdayOf(it: Item, lo: int): Option<int> {
    match PostedSince(it, lo)
    case Some(t) => Some(Weekday(t))
    case None => None
  }

  function LabelOf(it: Item, lo: int): Option<string> {
    match PostedSince(it, lo)
    case Some(_) => Some(PlatformLabel(it.platform))
    case None => None
  }

  /** Week starts of the posts at or after `lo`, in item order. */
  function WeekKeys(items: seq<Item>, lo: int): seq<int> {
    Collect(items, it => WeekOf(it, lo))
  }

  /** Weekdays of the posts at or after `lo`, in item order. */
  function WeekdayKeys(items: seq<Item>, lo: int): seq<int> {
    Collect(items, it => WeekdayOf(it, lo))
  }

  /** Platform labels of the posts at or after `lo`, in item order. */
  function PlatformLabels(items: seq<Item>, lo: int): seq<string> {
    Collect(items, it => LabelOf(it, lo))
  }

  /** Number of items with a post instant at or after `lo`. */
  function PostsSince(items: seq<Item>, lo: int): nat {
    CountWhere(items, it => PostedSince(it, lo).Some?)
  }

  /** Number of items whose post instant lies in `[lo, hi)`. */
  function PostsBetween(items: seq<Item>, lo: int, hi: int): nat {
    CountWhere(items, it => PostedBetween(it, lo, hi))
  }

  /** Number of items posted at or after `lo` on weekday `d`. */
  function PostsOnWeekday(items: seq<Item>, lo: int, d: int): nat {
    CountWhere(items, it => PostedSince(it, lo).Some? && Weekday(PostedSince(it, lo).value) == d)
  }

  /** Number of items posted at or after `lo` whose platform label is `name`. */
  function PostsOnPlatform(items: seq<Item>, lo: int, name: string): nat {
    CountWhere(items, it => PostedSince(it, lo).Some? && PlatformLabel(it.platform) == name)
  }

  // ---------------------------------------------------------------------------
  // Weekly series

  /** Eight consecutive weeks ending with the week of `now`, each with its
      count from the weekly table (0 when the week is absent). */
  function WeeklySeries(weeks: seq<Entry<int>>, now: int): seq<WeekBucket> {
    seq(WEEKS_BACK, w => WeekBucket(SeriesWeek(now, w), Lookup(weeks, SeriesWeek(now, w))))
  }

  /** Start of bucket `w` of the series: the week floor of `now` moved back
      `WEEKS_BACK - 1 - w` weeks. */
  function SeriesWeek(now: int, w: int): int {
    WeekFloor(now - (WEEKS_BACK - 1 - w) * WEEK)
  }

  // ---------------------------------------------------------------------------
  // Rounding and percentages

  /** Python's `round(x, n)` with `scale` = 10^n, on exact reals; an exact
      half rounds up. */
  function RoundTo(x: real, scale: nat): (r: real)
    requires scale > 0
    ensures x - 1.0 / (2.0 * scale as real) < r <= x + 1.0 / (2.0 * scale as real)
  {
    var s := scale as real;
    var f := (x * s + 0.5).Floor;
    assert f as real <= x * s + 0.5 < f as real + 1.0;
    RoundBounds(x, s, f as real);
    (f as real) / s
  }

  /** Rounding lands on the grid of whole multiples of `1 / scale`. */
  lemma RoundToGrid(x: real, scale: nat)
    requires scale > 0
    ensures var r := RoundTo(x, scale);
      (r * (scale as real)).Floor as real == r * (scale as real)
  {
    RoundToScaled(x, scale);
    WholeFloor(RoundTo(x, scale) * (scale as real), (x * (scale as real) + 0.5).Floor);
  }

  lemma RoundToScaled(x: real, scale: nat)
    requires scale > 0
    ensures RoundTo(x, scale) * (scale as real) == (x * (scale as real) + 0.5).Floor as real
  {
  }

  lemma WholeFloor(a: real, k: int)
    requires a == k as real
    ensures a.Floor as real == a
  {
  }

  lemma RoundBounds(x: real, s: real, f: real)
    requires s > 0.0
    requires f <= x * s + 0.5 < f + 1.0
    ensures x - 1.0 / (2.0 * s) < f / s <= x + 1.0 / (2.0 * s)
  {
    assert f / s <= (x * s + 0.5) / s;
    assert (x * s + 0.5) / s == x + 1.0 / (2.0 * s);
    assert (f + 1.0) / s > (x * s + 0.5) / s;
    assert (f + 1.0) / s == f / s + 1.0 / s;
  }

  /** A platform's share of the window's posts, in percent (0 for an empty window). */
  function Percent(count: nat, total: nat): real {
    if total > 0 then (count as real) / (total as real) * 100.0 else 0.0
  }

  /** Platforms of the last thirty days, most frequent first, ties in order of
      first appearance, each with its share rounded to one decimal. */
  function PlatformBreakdown(items: seq<Item>, now: int): seq<PlatformBucket> {
    var labels := PlatformLabels(items, PlatformWindowStart(now));
    var sorted := MostCommon(Count(labels));
    seq(|sorted|, i requires 0 <= i < |sorted| => Bucket(sorted[i], |labels|))
  }

  /** One row of the breakdown: a label, its count and its share to one decimal. */
  function Bucket(e: Entry<string>, total: nat): PlatformBucket {
    PlatformBucket(e.key, e.count, RoundTo(Percent(e.count, total), 10))
  }

  // ---------------------------------------------------------------------------
  // Idea-to-post latency

  /** Days from creation to posting of a Posted item with both instants, when
      that is not negative. */
  function LatencySample(it: Item): Option<real> {
    if ParseStatus(it.status) == Some(Posted) && PostInstant(it).Some? && it.createdAt.Some? then
      var days := (PostInstant(it).value - it.createdAt.value) as real / DAY as real;
      if days >= 0.0 then Some(days) else None
    else None
  }

  function LatencySamples(items: seq<Item>): seq<real> {
    Collect(items, LatencySample)
  }

  function Sum(xs: seq<real>): real {
    if |xs| == 0 then 0.0 else xs[0] + Sum(xs[1..])
  }

  function Mean(xs: seq<real>): real
    requires |xs| > 0
  {
    Sum(xs) / |xs| as real
  }

  /** The smallest sample. */
  function MinOf(xs: seq<real>): (m: real)
    requires |xs| > 0
    ensures forall i :: 0 <= i < |xs| ==> m <= xs[i]
  {
    if |xs| == 1 then xs[0]
    else
      var m := MinOf(xs[1..]);
      if xs[0] <= m then xs[0] else m
  }

  /** The largest sample. */
  function MaxOf(xs: seq<real>): (m: real)
    requires |xs| > 0
    ensures forall i :: 0 <= i < |xs| ==> xs[i] <= m
  {
    if |xs| == 1 then xs[0]
    else
      var m := MaxOf(xs[1..]);
      if xs[0] >= m then xs[0] else m
  }

  /** The mean latency in days, rounded to two decimals; none without samples. */
  function AverageLatency(items: seq<Item>): Option<real> {
    var samples := LatencySamples(items);
    if |samples| == 0 then None else Some(RoundTo(Mean(samples), 100))
  }

  // ---------------------------------------------------------------------------
  // Suggestions

  /** Position of each suggestion in the fixed output order. */
  function Rank(s: Suggestion): nat {
    match s
    case VolumeDown => 0
    case SteadyWeek => 1
    case LateWeekCluster => 2
    case OverReliance(_) => 3
    case DraftEarlier => 4
  }

  /** Suggestions in strictly increasing rank: the fixed order, no repeats. */
  predicate RankSorted(r: seq<Suggestion>) {
    forall i :: 0 < i < |r| ==> Rank(r[i - 1]) < Rank(r[i])
  }

  /** Enough weekday samples, and the first most frequent weekday is Friday or later. */
  predicate LateWeek(weekdays: seq<Entry<int>>) {
    Total(weekdays) >= MIN_WEEKDAY_SAMPLES && FirstMax(weekdays).key >= FRIDAY
  }

  /** The volume heuristic: a drop in posts, or else an unchanged week with
      fewer than three posts. */
  function VolumeSuggestion(delta: int, thisWeek: nat): seq<Suggestion> {
    if delta < 0 then [VolumeDown]
    else if delta == 0 && thisWeek < STEADY_WEEK_POSTS then [SteadyWeek]
    else []
  }

  /** The over-reliance heuristic: at least two platforms, the top one at 70
      percent or more. */
  function RelianceSuggestion(platforms: seq<PlatformBucket>): seq<Suggestion> {
    if |platforms| > 0 && platforms[0].percent >= RELIANCE_PERCENT && |platforms| >= 2
    then [OverReliance(platforms[0].platform)]
    else []
  }

  /** The suggestion heuristics, appended in their fixed order; `lateWeek` is
      the verdict of `LateWeek` on the weekday table. */
  function Suggest(delta: int, thisWeek: nat, lateWeek: bool,
                   platforms: seq<PlatformBucket>, avg: Option<real>): seq<Suggestion>
  {
    VolumeSuggestion(delta, thisWeek)
      + (if lateWeek then [LateWeekCluster] else [])
      + RelianceSuggestion(platforms)
      + (if avg.Some? && avg.value < 1.0 then [DraftEarlier] else [])
  }

  /** Joining two rank-sorted lists whose boundary is in order keeps them sorted. */
  lemma JoinRankSorted(a: seq<Suggestion>, b: seq<Suggestion>)
    requires RankSorted(a) && RankSorted(b)
    requires |a| > 0 && |b| > 0 ==> Rank(a[|a| - 1]) < Rank(b[0])
    ensures RankSorted(a + b)
  {
    forall i | 0 < i < |a + b| ensures Rank((a + b)[i - 1]) < Rank((a + b)[i]) {
      if i < |a| {
        assert (a + b)[i] == a[i];
      } else if i > |a| {
        assert (a + b)[i] == b[i - |a|];
      }
    }
  }

  /** At most one suggestion, and it ranks in `lo..hi`. */
  predicate Piece(a: seq<Suggestion>, lo: nat, hi: nat) {
    |a| <= 1 && (|a| == 1 ==> lo <= Rank(a[0]) <= hi)
  }

  /** Four pieces of increasing rank join into a rank-sorted list. */
  lemma JoinPieces(v: seq<Suggestion>, l: seq<Suggestion>, p: seq<Suggestion>, d: seq<Suggestion>)
    requires Piece(v, 0, 1) && Piece(l, 2, 2) && Piece(p, 3, 3) && Piece(d, 4, 4)
    ensures RankSorted(v + l + p + d)
  {
    JoinRankSorted(v, l);
    var vl := v + l;
    assert |vl| > 0 ==> Rank(vl[|vl| - 1]) <= 2;
    JoinRankSorted(vl, p);
    var vlp := vl + p;
    assert |vlp| > 0 ==> Rank(vlp[|vlp| - 1]) <= 3;
    JoinRankSorted(vlp, d);
  }

  /** Suggestions come in the fixed order, without repeats; a drop in volume
      is always the first. */
  lemma SuggestOrder(delta: int, thisWeek: nat, lateWeek: bool,
                     platforms: seq<PlatformBucket>, avg: Option<real>)
    ensures var r := Suggest(delta, thisWeek, lateWeek, platforms, avg);
      && RankSorted(r)
      && (delta < 0 ==> |r| > 0 && r[0] == VolumeDown)
  {
    var volume := VolumeSuggestion(delta, thisWeek);
    var late: seq<Suggestion> := if lateWeek then [LateWeekCluster] else [];
    var reliance := RelianceSuggestion(platforms);
    var draft: seq<Suggestion> := if avg.Some? && avg.value < 1.0 then [DraftEarlier] else [];
    JoinPieces(volume, late, reliance, draft);
    assert Suggest(delta, thisWeek, lateWeek, platforms, avg) == volume + late + reliance + draft;
    if delta < 0 {
      assert (volume + late + reliance + draft)[0] == volume[0];
    }
  }

  /** The volume suggestions: a drop in posts, or else an unchanged week with
      fewer than three posts. */
  lemma SuggestVolume(delta: int, thisWeek: nat, lateWeek: bool,
                      platforms: seq<PlatformBucket>, avg: Option<real>)
    ensures var r := Suggest(delta, thisWeek, lateWeek, platforms, avg);
      && (VolumeDown in r <==> delta < 0)
      && (SteadyWeek in r <==> delta == 0 && thisWeek < STEADY_WEEK_POSTS)
  {
  }

  /** The late-week suggestion follows the late-week verdict, and the
      draft-earlier suggestion an average under one day. */
  lemma SuggestLateAndDraft(delta: int, thisWeek: nat, lateWeek: bool,
                            platforms: seq<PlatformBucket>, avg: Option<real>)
    ensures var r := Suggest(delta, thisWeek, lateWeek, platforms, avg);
      && (LateWeekCluster in r <==> lateWeek)
      && (DraftEarlier in r <==> avg.Some? && avg.value < 1.0)
  {
  }

  /** The over-reliance suggestion names the top platform, and is made exactly
      when at least two platforms are listed and the top one is at 70 percent
      or more. */
  lemma SuggestReliance(delta: int, thisWeek: nat, lateWeek: bool,
                        platforms: seq<PlatformBucket>, avg: Option<real>, p: string)
    ensures var r := Suggest(delta, thisWeek, lateWeek, platforms, avg);
      OverReliance(p) in r <==>
        |platforms| >= 2 && p == platforms[0].platform && platforms[0].percent >= RELIANCE_PERCENT
  {
  }

  /** The message shown for each suggestion. */
  function Text(s: Suggestion): string {
    match s
    case VolumeDown =>
      "Your posting volume is down versus last week. Try batching two quick posts to catch up."
    case SteadyWeek =>
      "Steady week. Consider scheduling 1\U{2013}2 more posts to keep momentum."
    case LateWeekCluster =>
      "Most of your posts cluster late in the week. Try scheduling more Mon\U{2013}Wed."
    case OverReliance(p) =>
      "You rely heavily on " + p + ". Consider reusing content on other platforms."
    case DraftEarlier =>
      "You often post within 24 hours of ideation. Try drafting earlier to avoid last-minute rush."
  }

  // ---------------------------------------------------------------------------
  // The report

  /** `week_counts`: posts of the eight-week window per week start. */
  function WeekCounts(items: seq<Item>, now: int): seq<Entry<int>> {
    Count(WeekKeys(items, WindowStart(now)))
  }

  /** `weekday_counts`: posts of the eight-week window per weekday. */
  function WeekdayCounts(items: seq<Item>, now: int): seq<Entry<int>> {
    Count(WeekdayKeys(items, WindowStart(now)))
  }

  /** `api_insights`: the whole report for the items and the instant `now`.
      Its fields are described one by one in module `InsightsFacts`. */
  function ComputeInsights(items: seq<Item>, now: int): Report {
    var weeks := WeekCounts(items, now);
    var weekdays := WeekdayCounts(items, now);
    var thisWeek := WeekFloor(now);
    var lastWeek := thisWeek - WEEK;
    var thisCount := Lookup(weeks, thisWeek);
    var lastCount := Lookup(weeks, lastWeek);
    var delta := thisCount - lastCount;
    var platforms := PlatformBreakdown(items, now);
    var avg := AverageLatency(items);
    Report(thisCount, lastCount, delta, WeeklySeries(weeks, now), platforms, avg,
           Suggest(delta, thisCount, LateWeek(weekdays), platforms, avg))
  }
}
