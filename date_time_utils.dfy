/**
 * Day and week arithmetic of the planner, on a local clock kept as integer
 * milliseconds (epoch milliseconds plus a fixed zone offset, no daylight
 * saving).  Day 0 is Thursday 1 January 1970.  Weekdays follow
 * java.util.Calendar: 1 = Sunday .. 7 = Saturday.
 */
module DateTimeUtils {

  const SECOND: int := 1000
  const MINUTE: int := 60_000
  const HOUR: int := 3_600_000
  const DAY: int := 86_400_000
  const WEEK: int := 604_800_000

  /** The units nest as the calendar's do. */
  lemma UnitsNest()
    ensures MINUTE == 60 * SECOND && HOUR == 60 * MINUTE && DAY == 24 * HOUR && WEEK == 7 * DAY
  {
  }

  /** Calendar.SUNDAY (1) .. Calendar.SATURDAY (7). */
  type CalendarDay = d: int | 1 <= d <= 7 witness 1

  /** Calendar.DAY_OF_WEEK of a local instant (day 0 is a Thursday, weekday 5). */
  function Weekday(t: int): CalendarDay {
    (t / DAY + 4) % 7 + 1
  }

  /** Moving forward k whole days moves the weekday forward k places, cyclically. */
  lemma WeekdayAfterDays(t: int, k: int)
    ensures Weekday(t + k * DAY) == (Weekday(t) - 1 + k) % 7 + 1
  {
    assert (t + k * DAY) / DAY == t / DAY + k;
  }

  /** The midnight opening day number d. */
  lemma WeekdayOfDay(d: int)
    ensures Weekday(d * DAY) == (d + 4) % 7 + 1
    ensures (d * DAY) % DAY == 0
  {
    assert (d * DAY) / DAY == d;
  }

  /** A whole number of days, plus a remainder, divided back into days. */
  lemma WholeDays(n: int, rest: int)
    ensures (n * DAY + rest) / DAY == n + rest / DAY
    ensures (n * DAY + rest) % DAY == rest % DAY
  {
  }

  lemma WholeMinutes(n: int)
    ensures (n * MINUTE) % MINUTE == 0
  {
  }

  /** getStartOfDay: hour, minute, second and millisecond set to zero. */
  function StartOfDay(t: int): (r: int)
    ensures r <= t < r + DAY
    ensures r % DAY == 0
  {
    t - t % DAY
  }

  /** The midnight at or before t is the only day boundary within the day before t. */
  lemma StartOfDayUnique(t: int, m: int)
    ensures (m % DAY == 0 && m <= t < m + DAY) <==> m == StartOfDay(t)
  {
    if m % DAY == 0 && m <= t < m + DAY {
      var s := StartOfDay(t);
      assert m / DAY * DAY == m && s / DAY * DAY == s;
      assert m / DAY == s / DAY;
    }
  }

  lemma StartOfDayIdempotent(t: int)
    ensures StartOfDay(StartOfDay(t)) == StartOfDay(t)
  {
    StartOfDayUnique(StartOfDay(t), StartOfDay(t));
  }

  /** Two day counts less than a week apart land on the same weekday only if they are equal. */
  lemma SameWeekdayWithinWeek(t: int, a: int, b: int)
    requires 0 <= a <= 7 && 0 <= b <= 7 && -7 < a - b < 7
    requires Weekday(t + a * DAY) == Weekday(t + b * DAY)
    ensures a == b
  {
    WeekdayAfterDays(t, a);
    WeekdayAfterDays(t, b);
  }

  /** Two instants on the same calendar day have the same weekday. */
  lemma WeekdayOfStartOfDay(t: int)
    ensures Weekday(StartOfDay(t)) == Weekday(t)
  {
    assert StartOfDay(t) / DAY == t / DAY;
  }

  /** getEndOfDay: 23:59:59.999 of t's day. */
  function EndOfDay(t: int): (r: int)
    ensures t <= r && StartOfDay(r) == StartOfDay(t)
    ensures r + 1 == StartOfDay(t) + DAY
  {
    var r := StartOfDay(t) + DAY - 1;
    StartOfDayUnique(r, StartOfDay(t));
    r
  }

  /** Stepping back from day d to the nearest day (at most six back) whose weekday is f. */
  lemma StepBackToWeekday(d: int, f: CalendarDay)
    ensures var back := ((d + 4) % 7 + 1 - f) % 7;
      0 <= back < 7 && (d - back + 4) % 7 + 1 == f
  {
    var w := (d + 4) % 7;
    assert d + 4 == 7 * ((d + 4) / 7) + w;
    var back := (w + 1 - f) % 7;
    if w + 1 - f >= 0 {
      assert back == w + 1 - f;
      assert d - back + 4 == 7 * ((d + 4) / 7) + (f - 1);
    } else {
      assert back == w + 1 - f + 7;
      assert d - back + 4 == 7 * ((d + 4) / 7 - 1) + (f - 1);
    }
  }

  /**
   * getStartOfWeek: Calendar.set(DAY_OF_WEEK, firstDayOfWeek) moves back to
   * the first day of t's week, then getStartOfDay.
   */
  function StartOfWeek(t: int, firstDayOfWeek: CalendarDay): (r: int)
    ensures r % DAY == 0
    ensures r <= t < r + WEEK
    ensures Weekday(r) == firstDayOfWeek
  {
    var d := t / DAY;
    var back := (Weekday(t) - firstDayOfWeek) % 7;
    StepBackToWeekday(d, firstDayOfWeek);
    WeekdayOfDay(d - back);
    assert d * DAY <= t < d * DAY + DAY;
    (d - back) * DAY
  }

  /** getEndOfWeek: one week after the start of the week. */
  function EndOfWeek(t: int, firstDayOfWeek: CalendarDay): (r: int)
    ensures r == StartOfWeek(t, firstDayOfWeek) + WEEK
    ensures t < r && r % DAY == 0 && Weekday(r) == firstDayOfWeek
  {
    var s := StartOfWeek(t, firstDayOfWeek);
    WeekdayAfterDays(s, 7);
    s + WEEK
  }

  /** isToday: `timestamp in startOfDay until endOfDay`, a half-open range. */
  predicate IsToday(t: int, now: int) {
    StartOfDay(now) <= t < EndOfDay(now)
  }

  /** isToday is "same calendar day", except for the day's last millisecond. */
  lemma IsTodayMeaning(t: int, now: int)
    ensures IsToday(t, now) <==> StartOfDay(t) == StartOfDay(now) && t != EndOfDay(now)
  {
    StartOfDayUnique(t, StartOfDay(now));
  }

  predicate IsPast(t: int, now: int) {
    t < now
  }

  predicate IsFuture(t: int, now: int) {
    t > now
  }

  lemma PastAndFuture(t: int, now: int)
    ensures !(IsPast(t, now) && IsFuture(t, now))
    ensures !IsPast(t, now) && !IsFuture(t, now) <==> t == now
  {
  }

  /** The outcomes of getRelativeTimeString; formatDate's text is not modelled. */
  datatype RelativeLabel = Today | Tomorrow | Yesterday | InTwoDays | FormattedDate(timestamp: int)

  /** getRelativeTimeString: the first matching branch of the `when`. */
  function RelativeTimeLabel(t: int, now: int): (r: RelativeLabel)
    ensures r == Today <==> IsToday(t, now)
    ensures r == Tomorrow <==> !IsToday(t, now) && 0 <= t - now <= DAY
    ensures r == Yesterday <==> !IsToday(t, now) && -DAY < t - now < 0
    ensures r == InTwoDays <==> !IsToday(t, now) && DAY < t - now <= 2 * DAY
    ensures r.FormattedDate? <==> !IsToday(t, now) && (t - now <= -DAY || 2 * DAY < t - now)
    ensures r.FormattedDate? ==> r.timestamp == t
  {
    var diff := t - now;
    if IsToday(t, now) then Today
    else if 0 <= diff <= DAY then Tomorrow
    else if diff < 0 && diff > -DAY then Yesterday
    else if DAY <= diff <= 2 * DAY then InTwoDays
    else FormattedDate(t)
  }

  /** Exactly 24 hours ahead is never today, and is "Tomorrow", not "In 2 days". */
  lemma ExactlyOneDayAhead(now: int)
    ensures RelativeTimeLabel(now + DAY, now) == Tomorrow
  {
  }

  /** The last millisecond of today is not "today", and is labelled "Tomorrow". */
  lemma LastMillisecondOfToday(now: int)
    ensures !IsToday(EndOfDay(now), now)
    ensures RelativeTimeLabel(EndOfDay(now), now) == Tomorrow
  {
  }

  /** The evidently intended isToday: [start of day, start of next day). */
  predicate IsTodayIntended(t: int, now: int) {
    StartOfDay(now) <= t < StartOfDay(now) + DAY
  }

  lemma IsTodayIntendedMeaning(t: int, now: int)
    ensures IsTodayIntended(t, now) <==> StartOfDay(t) == StartOfDay(now)
    ensures IsTodayIntended(EndOfDay(now), now)
  {
    StartOfDayUnique(t, StartOfDay(now));
  }
}
