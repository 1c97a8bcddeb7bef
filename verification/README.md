# Content planner insights, in Dafny

A model of the analytics core of a small content-planner web application,
written as a pure Dafny function together with proofs of what it computes.

The backend's insights endpoint reads one user's content items and answers
with five things:

- this week's and last week's post counts and their difference;
- a continuous series of eight weekly counts;
- a per-platform breakdown of the last thirty days, with percentages to one
  decimal;
- the average number of days from creating an idea to posting it, to two
  decimals;
- a list of heuristic suggestions.

An item counts as posted at its *post instant*:

- a `Posted` item's scheduled time, or its creation time when it has no
  scheduled time;
- a `Scheduled` item's scheduled time;
- for every other status, no instant at all.

Weeks start on Monday at midnight.

Also modelled: the image-upload filter, which accepts a file name when it has
a dot and the text after its last dot, lower-cased, is `png`, `jpg`, `jpeg` or
`gif`; and the whitelist of the four statuses the update route accepts.

Files:

- `time.dfy` (module `Time`): instants as whole seconds since
  1970-01-01 00:00 UTC, midnight, weekday and the week floor.
- `optional.dfy` (module `Optional`): the optional value standing for
  Python's `None`.
- `counter.dfy` (module `Counter`): the frequency table that
  `collections.Counter` provides to the aggregator.
  - Keys are kept in order of first occurrence.
  - `most_common()` is modelled as a stable sort by descending count.
  - `max` over the items is modelled as the first entry with the largest
    count.
- `content.dfy` (module `Content`): items, the status whitelist, the post
  instant, Python's `str.strip()` and the platform label.
- `insights.dfy` (module `Insights`): the report, `ComputeInsights(items, now)`,
  and the pieces it is built from. `Insights.ComputeInsights` is the
  insights endpoint (backend/app.py:573-671) with the route, the query and
  the clock taken out. It carries no contract of its own: the lemmas of
  `InsightsFacts` state, field by field, what its report holds.
- `insights_facts.dfy` (module `InsightsFacts`): each figure of the report
  stated against an independent count over the items.
- `insights_cases.dfy` (module `InsightsCases`): boundary inputs and worked
  examples.
- `uploads.dfy` (module `Uploads`): the upload filter.

The current instant `now` is a parameter, and so is the list of items; the
database query and the clock are not modelled.

## Behaviour worth knowing

- Neither window has an upper bound. The eight-week window and the
  thirty-day window only require a post instant at or after their start.
  A post scheduled after `now` is therefore counted in its week, its
  weekday and its platform (`Insights.PostedSince`).
- The eight-week window starts at midnight of the day eight weeks before
  `now`, which is generally not a Monday (`Insights.WindowStart`).
- With no items, the report still carries the steady-week suggestion: the
  delta is 0 and this week has fewer than three posts
  (`InsightsCases.EmptyReport`).
- The rounded percentages need not add up to 100. Six platforms with one
  post each are listed at 16.7 apiece, which sums to 100.2
  (`InsightsCases.RoundedPercentsCanDrift`).
- A `Posted` item without a scheduled time counts as posted when it was
  created. It therefore contributes a latency sample of zero days
  (`InsightsFacts.UnscheduledPostIsZeroLatency`).
- Tie-breaks are the ones the Python containers give:
  - among platforms with equal counts, the platform whose first post comes
    first in the item list is listed first (`InsightsFacts.PlatformOrder`);
  - among weekdays with equal counts, the weekday whose first post comes
    first is the top weekday (`InsightsFacts.TopWeekday`).

## Model

| member | source | states |
|---|---|---|
| Time.Midnight | backend/app.py:560 | Midnight of an instant is a whole number of days and lies at most a day before it |
| Time.WeekFloor | backend/app.py:555-561 | The week floor is a Monday midnight, and the instant lies within the week that starts there |
| Time.WeekStartIsMondayMidnight | backend/app.py:560-561 | A week start is exactly an instant that is its own midnight and falls on a Monday |
| Time.WeekdayIff | backend/app.py:558-561 | An instant has weekday d (Monday 0 … Sunday 6) in the week starting at Monday midnight w exactly when it lies on day d after w |
| Time.WeekFloorUnique | backend/app.py:555-561 | The week floor is the only Monday midnight with the instant in the following seven days |
| Time.WeekFloorIdempotent | backend/app.py:555-561 | Truncating a week floor again changes nothing |
| Time.WeekFloorShift | backend/app.py:607 | Moving an instant by k weeks moves its week floor by k weeks |
| Time.WeekFloorMonotone | backend/app.py:555-561 | A later instant never has an earlier week floor |
| Counter.BumpCounts | backend/app.py:601-602 | `counter[k] += 1` adds one to k's count, and one to the total, and nothing else |
| Counter.BumpShape | backend/app.py:601-602 | An existing key keeps its place, and a new key is appended with count 1 |
| Counter.CountSpec | backend/app.py:595-602 | The table built by counting has distinct keys and positive counts; each key's count is its number of occurrences; the counts sum to the number of keys counted |
| Counter.CountFirstOccurrenceOrder | backend/app.py:618-624 | The table lists keys in the order of their first occurrence |
| Counter.MostCommonSpec | backend/app.py:628 | `most_common()` is a permutation of the table, with the same total and non-increasing counts |
| Counter.MostCommonRankOrdered | backend/app.py:628 | Entries with equal counts keep their relative order from the table |
| Counter.MostCommonOfCount | backend/app.py:618-628 | The sorted table of a key list has distinct keys, each with its number of occurrences, and it lists every key that occurs |
| Counter.FirstMaxSpec | backend/app.py:651 | `max` returns an entry with the largest count, and every entry before it has a smaller count |
| Counter.FirstMaxOfCount | backend/app.py:650-651 | On a counted table, `max` returns a key with the most occurrences; among keys with as many occurrences, it returns the one that occurs first |
| Content.ParseStatus | backend/app.py:474-477 | An accepted status string is the name of the status it parses to |
| Content.ParseStatusRoundTrip | backend/app.py:474-477 | Every status parses back from its name, and exactly the four names are accepted |
| Content.PostInstantCases | backend/app.py:581-592 | An item has a post instant exactly in two cases: a Posted item with a scheduled or creation time, or a Scheduled item with a scheduled time. The scheduled time wins when present |
| Content.StripSpec | backend/app.py:623 | Stripping removes whitespace only at the ends, all of it there, and is idempotent; the result is empty exactly for all-whitespace input |
| Content.PlatformLabelSpec | backend/app.py:623 | A platform label is never blank and has no surrounding whitespace. A blank or whitespace-only platform becomes "Other"; any other platform becomes itself stripped |
| Insights.RoundTo | backend/app.py:630 | Rounding to 1/scale moves a value by less than half a unit downwards and at most half a unit upwards |
| Insights.RoundToGrid | backend/app.py:630 | The rounded value is a whole multiple of 1/scale: one decimal for percentages, two for the latency |
| Insights.SuggestOrder | backend/app.py:644-659 | Suggestions appear in the fixed order without repeats, and a drop in volume always comes first |
| Insights.SuggestVolume | backend/app.py:646-649 | Volume-down appears exactly when the delta is negative; steady-week appears exactly when the delta is 0 and this week has fewer than 3 posts |
| Insights.SuggestLateAndDraft | backend/app.py:650-659 | The late-week suggestion follows the late-week verdict; draft-earlier appears exactly when an average exists and is below 1 |
| Insights.SuggestReliance | backend/app.py:654-657 | Over-reliance on p appears exactly when there are at least two platforms, p is the first one, and its percent is at least 70 |
| InsightsFacts.WeekOfIff | backend/app.py:597-601 | An item is keyed under week start ws exactly when its post instant lies in that week |
| InsightsFacts.WeekCount | backend/app.py:595-601 | The weekly table's count for a week inside the window is the number of items posted in that week |
| InsightsFacts.SeriesShape | backend/app.py:604-608 | The series built from any week table, and so the report's series, has 8 buckets on consecutive Monday midnights, the last one the week of `now` |
| InsightsFacts.SeriesBucketCounts | backend/app.py:604-608 | Each bucket of the report's series counts the items posted during its week, 0 when none |
| InsightsFacts.WeekSummary | backend/app.py:610-615 | This week's and last week's counts are the numbers of items posted in those weeks, and the delta is their difference |
| InsightsFacts.SummaryMatchesSeries | backend/app.py:604-615 | The week summary equals the last two buckets of the series |
| InsightsFacts.WeekdayTable | backend/app.py:595-602 | The weekday table counts, per weekday, the window's posts on that day; its total is the number of posts in the window |
| InsightsFacts.TopWeekdayUnique | backend/app.py:651 | At most one weekday is the top weekday |
| InsightsFacts.FirstMaxIsTopWeekday | backend/app.py:650-651 | With posts in the window, `max` over the weekday table picks the top weekday |
| InsightsFacts.LateWeekOfWindow | backend/app.py:650-652 | The late-week test holds exactly when the window has at least 6 posts and its top weekday is Friday or later |
| InsightsFacts.LateWeekIff | backend/app.py:650-653 | The report carries the late-week suggestion exactly when the window has at least 6 posts and its top weekday is Friday or later |
| InsightsFacts.LateWeekWhenLateLeads | backend/app.py:650-653 | A late weekday that beats every earlier weekday, in a window of at least 6 posts, triggers the suggestion |
| InsightsFacts.NoLateWeekWhenEarlyLeads | backend/app.py:650-653 | An early weekday that beats every late weekday rules the suggestion out |
| InsightsFacts.PlatformCounts | backend/app.py:617-630 | Each listed platform carries the number of posts of the last 30 days with its label, and that number is positive |
| InsightsFacts.PlatformsListed | backend/app.py:617-630 | Each platform is listed once, and every label with a post in the window is listed |
| InsightsFacts.PlatformOrder | backend/app.py:628 | Platforms are listed by descending count; equal counts follow the order of each platform's first post |
| InsightsFacts.PlatformTotal | backend/app.py:617-624 | The listed counts add up to the number of posts in the 30-day window |
| InsightsFacts.PlatformPercents | backend/app.py:629-630 | Each percent is the platform's exact share of the window, within 0.05 |
| InsightsFacts.RelianceThreshold | backend/app.py:656 | A one-decimal percent is at least 70 exactly when the exact share is at least 69.95 |
| InsightsFacts.TopShare | backend/app.py:629-656 | The top platform is at 70 or more exactly when its exact share of a non-empty window is at least 69.95 percent |
| InsightsFacts.OverRelianceIff | backend/app.py:654-657 | The report names platform p as over-relied on exactly when at least two platforms are listed, p is the first, and its exact share is at least 69.95 percent |
| InsightsFacts.LatencySampleSpec | backend/app.py:632-641 | A Posted item gives a sample exactly when both instants exist and it was not posted before creation; the sample is the elapsed time in days |
| InsightsFacts.UnscheduledPostIsZeroLatency | backend/app.py:589-641 | A Posted item with only a creation time gives a sample of 0 days |
| InsightsFacts.MinMaxAttained | backend/app.py:642 | The smallest and the largest sample are among the samples |
| InsightsFacts.MeanBetween | backend/app.py:642 | The mean lies between the smallest and the largest sample |
| InsightsFacts.AverageLatencySpec | backend/app.py:632-642 | The average is absent exactly when no item gives a sample. Otherwise it is the mean to within 0.005, and the mean lies between non-negative extreme samples |
| InsightsFacts.DraftThreshold | backend/app.py:658 | A two-decimal average is below 1 exactly when the exact average is below 0.995 |
| InsightsFacts.DraftEarlierIff | backend/app.py:642-659 | The report suggests drafting earlier exactly when there are samples and their mean is below 0.995 days |
| InsightsCases.ReportOfKeys | backend/app.py:594-642 | Two item lists with the same week keys, weekday keys, labels and latency samples get the same report |
| InsightsCases.UnpostedItemIgnored | backend/app.py:588-592 | Inserting an item without a post instant anywhere in the list leaves the whole report unchanged |
| InsightsCases.OnlyPostsCount | backend/app.py:588-592 | An item whose status is neither Posted nor Scheduled (an idea, work in progress, or any other string) never changes the report |
| InsightsCases.EmptyReport | backend/app.py:595-659 | With no items: zero counts and delta, eight empty weeks, no platforms, no average, and only the steady-week suggestion |
| InsightsCases.RoundedPercentsCanDrift | backend/app.py:629-630 | Six platforms with one post each are listed at 16.7 percent, summing to 100.2 |
| InsightsCases.DominantPlatform | backend/app.py:629-657 | Platforms with 8 and 2 posts are listed at 80.0 and 20.0, and the first is named as over-relied on |
| InsightsCases.SingleLabelBreakdown | backend/app.py:626-630 | A single post in the 30-day window makes its platform 100 percent |
| InsightsCases.OnePostExample | backend/app.py:573-671 | One post at 09:00 on a Monday, created a day earlier and seen at noon: this week 1, last week 0, last bucket 1, one platform at 100, average 1.0, and no suggestion |
| Uploads.LastDot | backend/app.py:108 | The index found holds the last dot of the name; none is found exactly when the name has no dot |
| Uploads.ExtensionOfJoin | backend/app.py:108 | The extension of `base + "." + ext`, where ext has no dot, is ext |
| Uploads.AllowedFileIff | backend/app.py:104-108 | A name is accepted exactly when the text after its last dot, lower-cased, is png, jpg, jpeg or gif; a name without a dot is refused |
| Uploads.UpperCaseAccepted | backend/app.py:108 | An upper-case extension is accepted |
| Uploads.InnerDotIgnored | backend/app.py:108 | Only the last extension counts: "archive.tar.gif" is accepted |
| Uploads.DisguisedExtensionRefused | backend/app.py:108 | Only the last extension counts: "image.png.exe" is refused |
| Uploads.DotRequired | backend/app.py:108 | "png" without a dot and "photo." with an empty extension are refused |

## Left out

- The HTTP route, login, the per-user database query and the JSON encoding
  are left out. The model takes the user's items as a list and returns the
  report as a datatype.
- The clock (`datetime.utcnow()`) becomes the parameter `now`.
- Week starts in the series are instants, not ISO-8601 strings; string
  formatting is left out.
- Instants are whole seconds in naive UTC. Microseconds are dropped, so a
  latency is a whole number of seconds divided by 86400.
- Python's datetime range (years 1 to 9999) is not modelled, because
  integers are unbounded. Overflow at that range is out of scope.
- Insights.RoundTo: rounds the exact real value half-up. Python's `round`
  works on the binary double nearest to the quotient and rounds halves to
  even, so results can differ at exact halves. Those bounds are stated for
  exact reals only.
- Insights.Percent: the percent is an exact rational number, not a
  floating-point quotient.
- Insights.LatencySample: the latency is an exact rational number of days,
  not a floating-point quotient.
- Uploads.Lower: lower-cases ASCII letters only. For the membership test
  this loses nothing:
  - no non-ASCII character lower-cases to one of the letters in
    png/jpg/jpeg/gif;
  - the one character that lower-cases to two characters ends in a
    combining mark.
- Storing the uploaded file is file-system I/O and is left out. That
  covers `secure_filename`, unique names and the returned URL.
- The create route stores any status string. Items therefore keep their
  status as a string, and the whitelist is `Content.ParseStatus`.
- The rest of the update route is not part of this model: field parsing and
  `parse_scheduled_any`.
- The suggestion texts are modelled as `Insights.Text` and carry no
  contract.
