/** Instants and the week arithmetic of the insights aggregator.

    An instant is a whole number of seconds since 1970-01-01T00:00:00 in naive
    UTC; negative values lie before the epoch. Dafny's `/` and `%` on `int`
    round towards minus infinity for a positive divisor, which is how a
    proleptic calendar assigns days and weekdays to instants before 1970.
 */
module Time {

  /** Seconds in a day and in a week. */
  const DAY: int := 86400
  const WEEK: int := 7 * DAY

  /** 1970-01-01 was a Thursday: weekday 3 when Monday is 0 and Sunday is 6. */
  const EPOCH_WEEKDAY: int := 3

  /** 1970-01-05T00:00:00, the first Monday midnight after the epoch. */
  const FIRST_MONDAY: int := 4 * DAY

  /** The instant truncated to 00:00:00 of its day. */
  function Midnight(t: int): (m: int)
    ensures m <= t < m + DAY
    ensures m % DAY == 0
  {
    t - t % DAY
  }

  /** Weekday of an instant, Monday = 0 … Sunday = 6. */
  function Weekday(t: int): (d: int)
    ensures 0 <= d < 7
  {
    (t / DAY + EPOCH_WEEKDAY) % 7
  }

  /** A Monday at 00:00:00, stated independently of `Midnight` and `Weekday`:
      a whole number of weeks away from the first Monday after the epoch. */
  predicate IsWeekStart(t: int) {
    (t - FIRST_MONDAY) % WEEK == 0
  }

  /** Truncate to midnight, then walk back to that week's Monday. */
  function WeekFloor(t: int): (w: int)
    ensures IsWeekStart(w)
    ensures w <= t < w + WEEK
  {
    var q := t / DAY;
    var b := (q + EPOCH_WEEKDAY) % 7;
    var a := (q + EPOCH_WEEKDAY) / 7;
    assert q + EPOCH_WEEKDAY == 7 * a + b;
    assert Midnight(t) == q * DAY;
    var w := Midnight(t) - Weekday(t) * DAY;
    assert w - FIRST_MONDAY == WEEK * (a - 1);
    w
  }

  /** A week start is exactly an instant that is its own midnight and falls on
      a Monday. */
  lemma WeekStartIsMondayMidnight(t: int)
    ensures IsWeekStart(t) <==> Midnight(t) == t && Weekday(t) == 0
  {
    var q := t / DAY;
    var r := t % DAY;
    assert t == q * DAY + r;
    var b := (q + EPOCH_WEEKDAY) % 7;
    var a := (q + EPOCH_WEEKDAY) / 7;
    assert q + EPOCH_WEEKDAY == 7 * a + b;
    assert t - FIRST_MONDAY == WEEK * (a - 1) + b * DAY + r;
    if IsWeekStart(t) {
      var k := (t - FIRST_MONDAY) / WEEK;
      assert t - FIRST_MONDAY == WEEK * k;
      assert b * DAY + r == WEEK * (k - a + 1);
      assert 0 <= b * DAY + r < WEEK;
      assert k - a + 1 == 0;
    }
    if Midnight(t) == t && Weekday(t) == 0 {
      assert r == 0 && b == 0;
      assert t - FIRST_MONDAY == WEEK * (a - 1);
    }
  }

  /** The weekday counts whole days from the Monday midnight that starts the
      instant's week: `t` has weekday `d` and week start `w` exactly when it
      lies on day `d` after `w`. So 4, 5 and 6 are Friday, Saturday and Sunday. */
  lemma WeekdayIff(t: int, w: int, d: int)
    requires IsWeekStart(w) && 0 <= d < 7
    ensures Weekday(t) == d && WeekFloor(t) == w <==> w + d * DAY <= t < w + (d + 1) * DAY
  {
    var e := Weekday(t);
    assert WeekFloor(t) + e * DAY == Midnight(t);
    if w + d * DAY <= t < w + (d + 1) * DAY {
      WeekFloorUnique(t, w);
      assert w + e * DAY <= t < w + (e + 1) * DAY;
    }
  }

  /** Two week starts less than a week apart coincide. */
  lemma WeekStartsApart(v: int, w: int)
    requires IsWeekStart(v) && IsWeekStart(w)
    requires v <= w < v + WEEK
    ensures v == w
  {
    var i := (v - FIRST_MONDAY) / WEEK;
    var j := (w - FIRST_MONDAY) / WEEK;
    assert v - FIRST_MONDAY == WEEK * i;
    assert w - FIRST_MONDAY == WEEK * j;
    assert 0 <= WEEK * (j - i) < WEEK;
  }

  /** The week floor is the only week start `w` with `w <= t < w + WEEK`. */
  lemma WeekFloorUnique(t: int, w: int)
    requires IsWeekStart(w)
    ensures WeekFloor(t) == w <==> w <= t < w + WEEK
  {
    var f := WeekFloor(t);
    if w <= t < w + WEEK {
      if f <= w {
        WeekStartsApart(f, w);
      } else {
        WeekStartsApart(w, f);
      }
    }
  }

  /** Truncating twice is truncating once. */
  lemma WeekFloorIdempotent(t: int)
    ensures WeekFloor(WeekFloor(t)) == WeekFloor(t)
  {
    var f := WeekFloor(t);
    WeekFloorUnique(f, f);
  }

  /** Moving an instant by whole weeks moves its week floor by the same amount. */
  lemma WeekFloorShift(t: int, k: int)
    ensures WeekFloor(t + k * WEEK) == WeekFloor(t) + k * WEEK
  {
    var f := WeekFloor(t);
    var i := (f - FIRST_MONDAY) / WEEK;
    assert f - FIRST_MONDAY == WEEK * i;
    assert f + k * WEEK - FIRST_MONDAY == WEEK * (i + k);
    assert IsWeekStart(f + k * WEEK);
    WeekFloorUnique(t + k * WEEK, f + k * WEEK);
  }

  /** The week floor never decreases as the instant grows. */
  lemma WeekFloorMonotone(s: int, t: int)
    requires s <= t
    ensures WeekFloor(s) <= WeekFloor(t)
  {
    var fs := WeekFloor(s);
    var ft := WeekFloor(t);
    if ft < fs {
      WeekStartsApart(ft, fs);
    }
  }
}
