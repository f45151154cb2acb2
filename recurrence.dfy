/**
 * The next-fire-instant computation for weekly lectures.  Two copies exist:
 * the one used when a lecture is first armed (ReminderScheduler) and the one
 * used when the worker re-arms the chain (RecurringLectureReminderWorker).
 * Both parse the "HH:mm" start time the same way and both build
 * "midnight of today + N days + h:m - lead" with seconds and milliseconds
 * zeroed; they differ in how N is chosen.
 */
module Recurrence {
  import opened Wrappers
  import opened Text
  import opened DateTimeUtils
  import opened Model

  /** The `when` from DayOfWeek to Calendar.SUNDAY .. Calendar.SATURDAY. */
  function ToCalendar(d: DayOfWeek): (r: CalendarDay)
    ensures r == Ordinal(d) + 1
  {
    match d
    case Sunday => 1
    case Monday => 2
    case Tuesday => 3
    case Wednesday => 4
    case Thursday => 5
    case Friday => 6
    case Saturday => 7
  }

  /** fromCalendar undoes the scheduler's map, and the map undoes fromCalendar on 1..7. */
  lemma FromCalendarInverse(d: DayOfWeek, c: CalendarDay)
    ensures FromCalendar(ToCalendar(d)) == d
    ensures ToCalendar(FromCalendar(c)) == c
  {
  }

  const DEFAULT_HOUR: int := 9
  const DEFAULT_MINUTE: int := 0

  datatype TimeOfDay = TimeOfDay(hour: int, minute: int)

  /** `parts.getOrNull(i)?.toIntOrNull() ?: default` */
  function FieldOr(parts: seq<string>, i: nat, default: int): int {
    if i < |parts| then ParseInt(parts[i]).GetOr(default) else default
  }

  /** `startTime.split(":")`: hour from the first field (else 9), minute from the second (else 0). */
  function ParseStartTime(startTime: string): TimeOfDay {
    var parts := Split(startTime, ':');
    TimeOfDay(FieldOr(parts, 0, DEFAULT_HOUR), FieldOr(parts, 1, DEFAULT_MINUTE))
  }

  /** The time pickers store `String.format("%02d:%02d", h, m)`; parsing reads it back. */
  lemma ParseFormattedStartTime(h: nat, m: nat)
    requires h < 100 && m < 100
    ensures ParseStartTime(TwoDigits(h) + ":" + TwoDigits(m)) == TimeOfDay(h, m)
  {
    var a, b := TwoDigits(h), TwoDigits(m);
    SplitNoSeparator(b, ':');
    SplitAtSeparator(a, ':', b);
    TwoDigitsValue(h);
    TwoDigitsValue(m);
  }

  /** The stored text "09:00" reads as nine o'clock. */
  lemma NineOClock()
    ensures ParseStartTime("09:00") == TimeOfDay(9, 0)
  {
    ParseFormattedStartTime(9, 0);
    assert "09:00" == TwoDigits(9) + ":" + TwoDigits(0);
  }

  /** Fallbacks: an unreadable hour is 9, a missing or unreadable minute is 0. */
  lemma ParseStartTimeFallbacks(s: string)
    ensures ParseInt(Split(s, ':')[0]).None? ==> ParseStartTime(s).hour == DEFAULT_HOUR
    ensures (|Split(s, ':')| < 2 || ParseInt(Split(s, ':')[1]).None?) ==> ParseStartTime(s).minute == DEFAULT_MINUTE
    ensures ParseStartTime("").hour == 9 && ParseStartTime("").minute == 0
  {
  }

  /**
   * Where the reminder falls relative to the lecture day's midnight:
   * set HOUR_OF_DAY and MINUTE (lenient, so out-of-range values carry over),
   * clear SECOND and MILLISECOND, then add -lead MINUTEs.
   */
  function ReminderOffset(t: TimeOfDay, lead: int): int {
    t.hour * HOUR + t.minute * MINUTE - lead * MINUTE
  }

  /** The instant built from "midnight of now's day + days", as the Calendar steps do. */
  function InstantAfterDays(now: int, days: int, offset: int): int {
    StartOfDay(now) + days * DAY + offset
  }

  /** Every such instant is a whole minute, and lies a whole number of days after a midnight. */
  lemma InstantAfterDaysShape(now: int, days: int, t: TimeOfDay, lead: int)
    ensures var i := InstantAfterDays(now, days, ReminderOffset(t, lead));
      && i % MINUTE == 0
      && (i - ReminderOffset(t, lead)) % DAY == 0
  {
    var n := now / DAY + days;
    assert StartOfDay(now) == now / DAY * DAY;
    WholeMinutes(n * 1440 + t.hour * 60 + t.minute - lead);
    WholeDays(n, 0);
  }

  /** The target weekday minus today's weekday, as read from the Calendar. */
  function WeekdayGap(day: DayOfWeek, now: int): int {
    ToCalendar(day) - Weekday(now)
  }

  /**
   * ReminderScheduler.calculateNextReminderTime's day count: the gap; if it
   * is 0, 7 when today's candidate is at or before now; if negative, +7.
   */
  function FirstArmDays(day: DayOfWeek, now: int, offset: int): (days: int)
    ensures 0 <= days <= 7
    ensures Weekday(StartOfDay(now) + days * DAY) == ToCalendar(day)
    ensures days == 0 <==> ToCalendar(day) == Weekday(now) && InstantAfterDays(now, 0, offset) > now
    ensures days == 7 <==> ToCalendar(day) == Weekday(now) && InstantAfterDays(now, 0, offset) <= now
  {
    var gap := WeekdayGap(day, now);
    var days := if gap == 0 then (if InstantAfterDays(now, 0, offset) <= now then 7 else 0)
                else if gap < 0 then gap + 7 else gap;
    WeekdayOfStartOfDay(now);
    WeekdayAfterDays(StartOfDay(now), days);
    days
  }

  /** ReminderScheduler.calculateNextReminderTime, with the clock reading passed in. */
  function NextReminderTime(day: DayOfWeek, startTime: string, lead: int, now: int): (r: int)
    ensures r % MINUTE == 0
    ensures (r - ReminderOffset(ParseStartTime(startTime), lead)) % DAY == 0
    ensures Weekday(r - ReminderOffset(ParseStartTime(startTime), lead)) == ToCalendar(day)
    ensures StartOfDay(now) <= r - ReminderOffset(ParseStartTime(startTime), lead) <= StartOfDay(now) + WEEK
  {
    var offset := ReminderOffset(ParseStartTime(startTime), lead);
    var days := FirstArmDays(day, now, offset);
    InstantAfterDaysShape(now, days, ParseStartTime(startTime), lead);
    InstantAfterDays(now, days, offset)
  }

  /** On the lecture's own weekday: today's candidate if still ahead, else the same instant a week later. */
  lemma NextReminderTimeSameDay(day: DayOfWeek, startTime: string, lead: int, now: int)
    requires ToCalendar(day) == Weekday(now)
    ensures var candidate := InstantAfterDays(now, 0, ReminderOffset(ParseStartTime(startTime), lead));
      NextReminderTime(day, startTime, lead, now) == if candidate > now then candidate else candidate + WEEK
  {
  }

  /** On another weekday: the coming occurrence of that weekday within the next six days. */
  lemma NextReminderTimeOtherDay(day: DayOfWeek, startTime: string, lead: int, now: int)
    requires ToCalendar(day) != Weekday(now)
    ensures var days := (ToCalendar(day) - Weekday(now)) % 7;
      1 <= days <= 6 &&
      NextReminderTime(day, startTime, lead, now) == InstantAfterDays(now, days, ReminderOffset(ParseStartTime(startTime), lead))
  {
  }

  /**
   * When the reminder falls on the lecture's day itself (0 <= h:m - lead < 24h),
   * the instant is in the future and at most a week away.
   */
  lemma NextReminderTimeAhead(day: DayOfWeek, startTime: string, lead: int, now: int)
    requires 0 <= ReminderOffset(ParseStartTime(startTime), lead) < DAY
    ensures now < NextReminderTime(day, startTime, lead, now) <= now + WEEK
  {
  }

  /**
   * Nothing bounds the lead: a lecture tomorrow at 09:00 with the "2 days before"
   * option (2880 minutes) yields an instant before now, so the scheduler's
   * `delay <= 0` guard drops it.  Here now is Thursday 1 January 1970, 12:00.
   */
  lemma NextReminderTimeCanBePast()
    ensures NextReminderTime(Friday, "09:00", 2880, 12 * HOUR) <= 12 * HOUR
  {
    NineOClock();
    var offset := ReminderOffset(ParseStartTime("09:00"), 2880);
    assert offset == 9 * HOUR - 2 * DAY;
    assert StartOfDay(12 * HOUR) == 0;
    assert Weekday(12 * HOUR) == 5;
    assert FirstArmDays(Friday, 12 * HOUR, offset) == 1;
  }

  /**
   * RecurringLectureReminderWorker.calculateNextReminderTime's day count:
   * the gap, plus 7 when it is zero or negative.
   */
  function RearmDays(day: DayOfWeek, now: int): (days: int)
    ensures 1 <= days <= 7
    ensures Weekday(StartOfDay(now) + days * DAY) == ToCalendar(day)
    ensures days == 7 <==> ToCalendar(day) == Weekday(now)
  {
    var gap := WeekdayGap(day, now);
    var days := if gap <= 0 then gap + 7 else gap;
    WeekdayOfStartOfDay(now);
    WeekdayAfterDays(StartOfDay(now), days);
    days
  }

  /** RecurringLectureReminderWorker.calculateNextReminderTime, with the clock reading passed in. */
  function RearmTime(day: DayOfWeek, startTime: string, lead: int, now: int): (r: int)
    ensures r % MINUTE == 0
    ensures (r - ReminderOffset(ParseStartTime(startTime), lead)) % DAY == 0
    ensures Weekday(r - ReminderOffset(ParseStartTime(startTime), lead)) == ToCalendar(day)
    ensures StartOfDay(now) + DAY <= r - ReminderOffset(ParseStartTime(startTime), lead) <= StartOfDay(now) + WEEK
  {
    var offset := ReminderOffset(ParseStartTime(startTime), lead);
    var days := RearmDays(day, now);
    InstantAfterDaysShape(now, days, ParseStartTime(startTime), lead);
    InstantAfterDays(now, days, offset)
  }

  /**
   * The two copies agree except on the lecture's weekday while today's
   * candidate is still ahead: there the re-arm copy skips today and answers a
   * week later.
   */
  lemma RearmTimeVersusNextReminderTime(day: DayOfWeek, startTime: string, lead: int, now: int)
    ensures var candidate := InstantAfterDays(now, 0, ReminderOffset(ParseStartTime(startTime), lead));
      if ToCalendar(day) == Weekday(now) && candidate > now
      then RearmTime(day, startTime, lead, now) == NextReminderTime(day, startTime, lead, now) + WEEK
      else RearmTime(day, startTime, lead, now) == NextReminderTime(day, startTime, lead, now)
  {
  }

  /** An occurrence's reminder: midnight of a day with the lecture's weekday, plus the offset. */
  predicate IsOccurrenceReminder(day: DayOfWeek, offset: int, f: int) {
    (f - offset) % DAY == 0 && Weekday(f - offset) == ToCalendar(day)
  }

  /** The same lecture's reminder one week on is again an occurrence reminder. */
  lemma OccurrenceReminderNextWeek(day: DayOfWeek, offset: int, f: int)
    requires IsOccurrenceReminder(day, offset, f)
    ensures IsOccurrenceReminder(day, offset, f + WEEK)
  {
    var m := (f - offset) / DAY;
    assert f - offset == m * DAY;
    assert f + WEEK - offset == (m + 7) * DAY;
    WholeDays(m + 7, 0);
    WeekdayAfterDays(f - offset, 7);
  }

  /** ... and so is its reminder any whole number of weeks on. */
  lemma {:induction false} OccurrenceReminderWeeksLater(day: DayOfWeek, offset: int, f: int, k: nat)
    requires IsOccurrenceReminder(day, offset, f)
    ensures IsOccurrenceReminder(day, offset, f + k * WEEK)
    decreases k
  {
    if k > 0 {
      OccurrenceReminderWeeksLater(day, offset, f, k - 1);
      OccurrenceReminderNextWeek(day, offset, f + (k - 1) * WEEK);
    }
  }

  /**
   * The chain renews itself week by week when the reminder falls on the
   * lecture's day: a worker running on the day its reminder was due re-arms
   * exactly one week after that reminder.
   */
  lemma RearmOneWeekLater(day: DayOfWeek, startTime: string, lead: int, f: int, now: int)
    requires var offset := ReminderOffset(ParseStartTime(startTime), lead);
      0 <= offset < DAY && IsOccurrenceReminder(day, offset, f)
    requires f <= now && StartOfDay(now) == StartOfDay(f)
    ensures RearmTime(day, startTime, lead, now) == f + WEEK
  {
    var offset := ReminderOffset(ParseStartTime(startTime), lead);
    StartOfDayUnique(f, f - offset);
    WeekdayOfStartOfDay(f);
    WeekdayOfStartOfDay(now);
  }

  /**
   * When the reminder falls one to six days before the lecture's day (for
   * example the "1 day before" option), a worker running on time re-arms at
   * its own fire instant: the delay is zero and the chain is not renewed.
   */
  lemma RearmRepeatsFireInstant(day: DayOfWeek, startTime: string, lead: int, f: int)
    requires var offset := ReminderOffset(ParseStartTime(startTime), lead);
      -6 * DAY <= offset < 0 && IsOccurrenceReminder(day, offset, f)
    ensures RearmTime(day, startTime, lead, f) == f
  {
    var offset := ReminderOffset(ParseStartTime(startTime), lead);
    FireInstantIsNextMatchingDay(f, offset, RearmDays(day, f));
  }

  /** The matching weekday one to seven days after f's midnight, at the negative offset, is f itself. */
  lemma FireInstantIsNextMatchingDay(f: int, offset: int, days: int)
    requires -6 * DAY <= offset < 0 && (f - offset) % DAY == 0
    requires 1 <= days <= 7 && Weekday(StartOfDay(f) + days * DAY) == Weekday(f - offset)
    ensures StartOfDay(f) + days * DAY + offset == f
  {
    var m := f - offset;
    var k := (m - StartOfDay(f)) / DAY;
    assert StartOfDay(f) + k * DAY == m && 1 <= k <= 6 by {
      assert m / DAY * DAY == m;
      assert StartOfDay(f) / DAY * DAY == StartOfDay(f);
    }
    SameWeekdayWithinWeek(StartOfDay(f), k, days);
  }

  /**
   * A weekly 09:00 Wednesday lecture with the "1 day before" option (1440
   * minutes): its reminder fires Tuesday 09:00 (6 January 1970) and the
   * worker re-arms for that same instant.
   */
  lemma OneDayLeadRearmsAtSameInstant()
    ensures RearmTime(Wednesday, "09:00", 1440, 5 * DAY + 9 * HOUR) == 5 * DAY + 9 * HOUR
  {
    NineOClock();
    var now := 5 * DAY + 9 * HOUR;
    assert ReminderOffset(ParseStartTime("09:00"), 1440) == 9 * HOUR - DAY;
    assert StartOfDay(now) == 5 * DAY;
    assert Weekday(now) == 3;
    assert RearmDays(Wednesday, now) == 1;
  }

  /** Days from day number `base` to the first day number at or after it with weekday `target`. */
  function DaysUntilWeekday(base: int, target: CalendarDay): (k: int)
    ensures 0 <= k <= 6 && (base + k + 4) % 7 + 1 == target
  {
    (target - ((base + 4) % 7 + 1)) % 7
  }

  /**
   * The first instant after `now` that lies `offset` after the midnight of
   * a day with weekday `target`.
   */
  function NextOccurrenceAfter(target: CalendarDay, offset: int, now: int): (r: int)
    ensures now < r <= now + WEEK
    ensures (r - offset) % DAY == 0 && Weekday(r - offset) == target
  {
    var base := (now - offset) / DAY;
    var e := base + DaysUntilWeekday(base, target);
    assert base * DAY <= now - offset < base * DAY + DAY;
    assert base * DAY <= e * DAY <= base * DAY + 6 * DAY;
    WeekdayOfDay(e);
    WeekdayOfDay(e + 7);
    if e * DAY + offset > now then e * DAY + offset
    else (e + 7) * DAY + offset
  }

  /** From an instant of that form, the next one is exactly a week later. */
  lemma NextOccurrenceAfterOccurrence(target: CalendarDay, offset: int, f: int)
    requires (f - offset) % DAY == 0 && Weekday(f - offset) == target
    ensures NextOccurrenceAfter(target, offset, f) == f + WEEK
  {
    var r := NextOccurrenceAfter(target, offset, f);
    var a, b := (r - offset) / DAY, (f - offset) / DAY;
    assert a * DAY == r - offset && b * DAY == f - offset;
    WeekdayOfDay(a);
    WeekdayOfDay(b);
    assert 1 <= a - b <= 7;
    assert (a + 4) % 7 == (b + 4) % 7;
  }

  /**
   * The evidently intended re-arm instant: the first occurrence reminder of
   * the lecture (same weekly phase as every other) strictly after now.
   */
  function IntendedRearmTime(day: DayOfWeek, startTime: string, lead: int, now: int): (r: int)
    ensures now < r <= now + WEEK
    ensures IsOccurrenceReminder(day, ReminderOffset(ParseStartTime(startTime), lead), r)
  {
    NextOccurrenceAfter(ToCalendar(day), ReminderOffset(ParseStartTime(startTime), lead), now)
  }

  /** With the intended rule every on-time firing re-arms exactly a week later, whatever the lead. */
  lemma IntendedRearmOneWeekLater(day: DayOfWeek, startTime: string, lead: int, f: int)
    requires IsOccurrenceReminder(day, ReminderOffset(ParseStartTime(startTime), lead), f)
    ensures IntendedRearmTime(day, startTime, lead, f) == f + WEEK
  {
    NextOccurrenceAfterOccurrence(ToCalendar(day), ReminderOffset(ParseStartTime(startTime), lead), f);
  }
}
