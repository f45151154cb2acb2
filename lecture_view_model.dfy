/**
 * LectureViewModel: the lectures table, the two lists the screens observe,
 * and the reminder dispatch of insert, update and delete.  Each list is the
 * result of a database query that re-emits whenever the table changes, so
 * the class invariant ties each list to the current table.  The clock
 * reading and the weekday of `loadTodaysLectures` are taken once, when the
 * collector starts.
 */
module LectureViewModels {
  import opened Wrappers
  import opened Text
  import opened Sequences
  import opened Tables
  import opened DateTimeUtils
  import opened Model
  import opened Recurrence
  import opened Work
  import opened Workers
  import opened ReminderScheduler

  function LectureKey(l: Lecture): int { l.id }

  /** `ORDER BY startTime ASC` and `sortedBy { it.startTime }`: text order of the start times. */
  predicate StartsNoLater(a: Lecture, b: Lecture) {
    LexLe(a.startTime, b.startTime)
  }

  lemma StartsNoLaterTotal()
    ensures Total(StartsNoLater)
  {
    forall a: Lecture, b: Lecture ensures StartsNoLater(a, b) || StartsNoLater(b, a) {
      LexLeTotal(a.startTime, b.startTime);
    }
  }

  /** LectureDao.getLecturesForDay: the recurring lectures held on `day`, by start time. */
  function LecturesForDay(rows: seq<Lecture>, day: DayOfWeek): seq<Lecture> {
    SortBy(Filter(rows, (l: Lecture) => l.isRecurring && l.dayOfWeek == day), StartsNoLater)
  }

  lemma LecturesForDaySorted(rows: seq<Lecture>, day: DayOfWeek)
    ensures SortedBy(LecturesForDay(rows, day), StartsNoLater)
  {
    StartsNoLaterTotal();
  }

  /** The lectures listed for a day are exactly the table's recurring lectures held on that day. */
  lemma LecturesForDayMembers(rows: seq<Lecture>, day: DayOfWeek, l: Lecture)
    ensures l in LecturesForDay(rows, day) <==> l in rows && l.isRecurring && l.dayOfWeek == day
  {
    SortByMembers(Filter(rows, (l: Lecture) => l.isRecurring && l.dayOfWeek == day), StartsNoLater, l);
    FilterMembers(rows, (l: Lecture) => l.isRecurring && l.dayOfWeek == day, l);
  }

  /** LectureDao.getOneTimeLecturesForDate: the one-time lectures whose date lies in [start, end), by start time. */
  function OneTimeLecturesForDate(rows: seq<Lecture>, start: int, end: int): seq<Lecture> {
    SortBy(Filter(rows, (l: Lecture) => !l.isRecurring && l.specificDate.Some? && start <= l.specificDate.value < end),
           StartsNoLater)
  }

  lemma OneTimeLecturesForDateSorted(rows: seq<Lecture>, start: int, end: int)
    ensures SortedBy(OneTimeLecturesForDate(rows, start, end), StartsNoLater)
  {
    StartsNoLaterTotal();
  }

  /** A lecture is listed for [start, end) exactly when it is a one-time lecture dated in that window. */
  lemma OneTimeLecturesForDateMembers(rows: seq<Lecture>, start: int, end: int, l: Lecture)
    ensures l in OneTimeLecturesForDate(rows, start, end) <==>
      l in rows && !l.isRecurring && l.specificDate.Some? && start <= l.specificDate.value < end
  {
    SortByMembers(Filter(rows, (l: Lecture) => !l.isRecurring && l.specificDate.Some? && start <= l.specificDate.value < end),
                  StartsNoLater, l);
    FilterMembers(rows, (l: Lecture) => !l.isRecurring && l.specificDate.Some? && start <= l.specificDate.value < end, l);
  }

  /**
   * loadTodaysLectures with getOneTimeLecturesForToday: the recurring
   * lectures of today's weekday followed by today's one-time lectures, the
   * whole sorted by start time.
   */
  function TodaysLectures(rows: seq<Lecture>, now: int): seq<Lecture>
  {
    SortBy(LecturesForDay(rows, FromCalendar(Weekday(now))) + OneTimeLecturesForDate(rows, StartOfDay(now), StartOfDay(now) + DAY),
           StartsNoLater)
  }

  /** Today's list is sorted by start time... */
  lemma TodaysLecturesSorted(rows: seq<Lecture>, now: int)
    ensures SortedBy(TodaysLectures(rows, now), StartsNoLater)
  {
    StartsNoLaterTotal();
  }

  /** ...and holds each of the two queries' rows exactly once. */
  lemma TodaysLecturesPermutation(rows: seq<Lecture>, now: int)
    ensures multiset(TodaysLectures(rows, now)) == multiset(LecturesForDay(rows, FromCalendar(Weekday(now))))
                         + multiset(OneTimeLecturesForDate(rows, StartOfDay(now), StartOfDay(now) + DAY))
  {
    SortByConcatPermutation(LecturesForDay(rows, FromCalendar(Weekday(now))),
                            OneTimeLecturesForDate(rows, StartOfDay(now), StartOfDay(now) + DAY), StartsNoLater);
  }

  /**
   * A lecture is listed today exactly when it recurs on today's weekday or
   * is a one-time lecture dated today.
   */
  lemma TodaysLecturesMembers(rows: seq<Lecture>, now: int, l: Lecture)
    ensures l in TodaysLectures(rows, now) <==>
      l in rows &&
      ((l.isRecurring && Ordinal(l.dayOfWeek) + 1 == Weekday(now)) ||
       (!l.isRecurring && l.specificDate.Some? && StartOfDay(l.specificDate.value) == StartOfDay(now)))
  {
    var today := FromCalendar(Weekday(now));
    TodaysLecturesUnion(rows, now, l);
    LecturesForDayMembers(rows, today, l);
    OneTimeLecturesForDateMembers(rows, StartOfDay(now), StartOfDay(now) + DAY, l);
    assert l.dayOfWeek == today <==> Ordinal(l.dayOfWeek) + 1 == Weekday(now) by {
      FromCalendarInverse(l.dayOfWeek, Weekday(now));
    }
    if l.specificDate.Some? {
      StartOfDayUnique(l.specificDate.value, StartOfDay(now));
    }
  }

  /** Sorting loses nothing: today's list holds exactly the rows of its two queries. */
  lemma TodaysLecturesUnion(rows: seq<Lecture>, now: int, l: Lecture)
    ensures l in TodaysLectures(rows, now) <==>
      l in LecturesForDay(rows, FromCalendar(Weekday(now))) ||
      l in OneTimeLecturesForDate(rows, StartOfDay(now), StartOfDay(now) + DAY)
  {
    SortByConcatMembers(LecturesForDay(rows, FromCalendar(Weekday(now))),
                        OneTimeLecturesForDate(rows, StartOfDay(now), StartOfDay(now) + DAY), StartsNoLater, l);
  }

  /** What insertLecture does to the reminder queue: schedule the stored copy only if enabled and stored. */
  function OnLectureInserted(q: Pending, lecture: Lecture, rowId: int, now: int): Pending {
    if lecture.reminderEnabled && rowId > 0 then ScheduledLecture(q, lecture.(id := rowId), now) else q
  }

  /** What updateLecture does to the reminder queue: reschedule if enabled, otherwise cancel both kinds. */
  function OnLectureUpdated(q: Pending, lecture: Lecture, now: int): Pending {
    if lecture.reminderEnabled then ScheduledLecture(q, lecture, now) else CancelledLecture(q, lecture.id)
  }

  /** What deleteLecture does to the reminder queue: cancel both kinds, whatever the reminder flag. */
  function OnLectureDeleted(q: Pending, lecture: Lecture): Pending {
    CancelledLecture(q, lecture.id)
  }

  /** Inserting a lecture without a reminder, or one the database did not store, leaves the queue alone. */
  lemma InsertWithoutReminderLeavesQueue(q: Pending, lecture: Lecture, rowId: int, now: int)
    requires !lecture.reminderEnabled || rowId <= 0
    ensures OnLectureInserted(q, lecture, rowId, now) == q
  {
  }

  /** An inserted recurring lecture whose reminder falls on its day gets a chain under its new row id. */
  lemma InsertRecurringArmsUnderRowId(q: Pending, lecture: Lecture, rowId: int, now: int)
    requires lecture.reminderEnabled && lecture.isRecurring && rowId > 0
    requires 0 <= ReminderOffset(ParseStartTime(lecture.startTime), lecture.reminderMinutesBefore) < DAY
    ensures var name := WorkName(RecurringLectureReminderWorker, rowId);
      var r := OnLectureInserted(q, lecture, rowId, now);
      name in r && now < r[name].fireAt <= now + WEEK &&
      IsChainEntry(r, name, rowId, lecture.title, lecture.startTime, lecture.room, lecture.dayOfWeek, lecture.reminderMinutesBefore)
  {
    ScheduledRecurringWhenSameDayReminder(q, lecture.(id := rowId), now);
    ScheduledRecurringStartsChain(q, lecture.(id := rowId), now);
  }

  /** Deleting, or disabling the reminder, leaves neither kind of reminder pending for that lecture. */
  lemma DeleteOrDisableClearsReminders(q: Pending, lecture: Lecture, now: int)
    ensures WorkName(LectureReminderWorker, lecture.id) !in OnLectureDeleted(q, lecture)
    ensures WorkName(RecurringLectureReminderWorker, lecture.id) !in OnLectureDeleted(q, lecture)
    ensures !lecture.reminderEnabled ==>
      WorkName(LectureReminderWorker, lecture.id) !in OnLectureUpdated(q, lecture, now) &&
      WorkName(RecurringLectureReminderWorker, lecture.id) !in OnLectureUpdated(q, lecture, now)
  {
  }

  /**
   * An update never cancels before rescheduling: a lecture switched from
   * recurring to one-time keeps its old weekly chain pending, untouched.
   */
  lemma UpdateToOneTimeKeepsRecurringEntry(q: Pending, lecture: Lecture, now: int)
    requires lecture.reminderEnabled && !lecture.isRecurring
    requires WorkName(RecurringLectureReminderWorker, lecture.id) in q
    ensures var name := WorkName(RecurringLectureReminderWorker, lecture.id);
      name in OnLectureUpdated(q, lecture, now) && OnLectureUpdated(q, lecture, now)[name] == q[name]
  {
    WorkNameInjective(RecurringLectureReminderWorker, lecture.id, LectureReminderWorker, lecture.id);
  }

  /** A reschedule skipped because its reminder instant has passed leaves every pending entry as it was. */
  lemma SkippedRescheduleKeepsOldEntry(q: Pending, lecture: Lecture, now: int)
    requires lecture.reminderEnabled
    requires if lecture.isRecurring
      then NextReminderTime(lecture.dayOfWeek, lecture.startTime, lecture.reminderMinutesBefore, now) <= now
      else lecture.specificDate.None? || OneTimeReminderInstant(lecture) <= now
    ensures OnLectureUpdated(q, lecture, now) == q
  {
  }

  /** The row as the table stores it: a new lecture (id 0) takes the generated row id, any other keeps its own. */
  function StoredRow(lecture: Lecture, rowId: int): (r: Lecture)
    ensures r.id == (if lecture.id == 0 then rowId else lecture.id)
    ensures r.(id := lecture.id) == lecture
  {
    if lecture.id == 0 then lecture.(id := rowId) else lecture
  }

  /** insertLecture's second half: arm the reminder under the stored row's id. */
  method ArmInserted(wm: WorkManager, lecture: Lecture, rowId: int, now: int)
    modifies wm
    ensures wm.pending == OnLectureInserted(old(wm.pending), lecture, rowId, now)
  {
    if lecture.reminderEnabled && rowId > 0 {
      var lectureWithId := lecture.(id := rowId);
      ScheduleLectureReminder(wm, lectureWithId, now);
    }
  }

  class LectureViewModel {
    /** The lectures table. */
    var lectures: seq<Lecture>
    /** The clock reading taken when loadTodaysLectures started collecting. */
    var loadedAt: int
    /** The day of the most recent loadLecturesForDay, if any. */
    var selectedDay: Option<DayOfWeek>
    var todaysLectures: seq<Lecture>
    var selectedDayLectures: seq<Lecture>
    const workManager: WorkManager

    /** Every observed list is the current answer of its query. */
    ghost predicate Valid()
      reads this
    {
      && todaysLectures == TodaysLectures(lectures, loadedAt)
      && selectedDayLectures == (if selectedDay.Some? then LecturesForDay(lectures, selectedDay.value) else [])
    }

    /** The constructor; `init` starts loadTodaysLectures at `now`. */
    constructor(wm: WorkManager, rows: seq<Lecture>, now: int)
      ensures Valid()
      ensures workManager == wm && lectures == rows && loadedAt == now && selectedDay == None
    {
      workManager := wm;
      lectures := rows;
      loadedAt := now;
      selectedDay := None;
      todaysLectures := TodaysLectures(rows, now);
      selectedDayLectures := [];
    }

    /** The table changed: every collector re-emits. */
    method Refresh()
      modifies this
      ensures Valid()
      ensures lectures == old(lectures) && loadedAt == old(loadedAt) && selectedDay == old(selectedDay)
    {
      ghost var rows, at, day := lectures, loadedAt, selectedDay;
      var today := TodaysLectures(lectures, loadedAt);
      var selected := if selectedDay.Some? then LecturesForDay(lectures, selectedDay.value) else [];
      todaysLectures, selectedDayLectures := today, selected;
      assert lectures == rows && loadedAt == at && selectedDay == day;
    }

    /** loadLecturesForDay */
    method LoadLecturesForDay(dayOfWeek: DayOfWeek)
      modifies this
      ensures Valid()
      ensures lectures == old(lectures) && loadedAt == old(loadedAt) && selectedDay == Some(dayOfWeek)
    {
      selectedDay := Some(dayOfWeek);
      Refresh();
    }

    /**
     * insertLecture; `rowId` is the id the database returned for the stored
     * row, which a replacing insert of a row with a set id returns unchanged.
     */
    method InsertLecture(lecture: Lecture, rowId: int, now: int)
      requires Valid()
      requires lecture.id != 0 && rowId > 0 ==> rowId == lecture.id
      modifies this, workManager
      ensures Valid()
      ensures lectures == Upsert(old(lectures), LectureKey, StoredRow(lecture, rowId))
      ensures loadedAt == old(loadedAt) && selectedDay == old(selectedDay)
      ensures workManager.pending == OnLectureInserted(old(workManager.pending), lecture, rowId, now)
    {
      ghost var queue := workManager.pending;
      var stored := StoredRow(lecture, rowId);
      lectures := Upsert(lectures, LectureKey, stored);
      Refresh();
      assert workManager.pending == queue;
      ghost var rows, at, day, today, selected := lectures, loadedAt, selectedDay, todaysLectures, selectedDayLectures;
      ArmInserted(workManager, lecture, rowId, now);
      assert lectures == rows && loadedAt == at && selectedDay == day;
      assert todaysLectures == today && selectedDayLectures == selected;
    }

    /** updateLecture */
    method UpdateLecture(lecture: Lecture, now: int)
      requires Valid()
      modifies this, workManager
      ensures Valid()
      ensures lectures == Tables.Update(old(lectures), LectureKey, lecture)
      ensures loadedAt == old(loadedAt) && selectedDay == old(selectedDay)
      ensures workManager.pending == OnLectureUpdated(old(workManager.pending), lecture, now)
    {
      lectures := Tables.Update(lectures, LectureKey, lecture);
      Refresh();
      if lecture.reminderEnabled {
        ScheduleLectureReminder(workManager, lecture, now);
      } else {
        CancelLectureReminder(workManager, lecture.id);
      }
    }

    /** deleteLecture */
    method DeleteLecture(lecture: Lecture)
      requires Valid()
      modifies this, workManager
      ensures Valid()
      ensures lectures == Without(old(lectures), LectureKey, lecture.id)
      ensures loadedAt == old(loadedAt) && selectedDay == old(selectedDay)
      ensures workManager.pending == OnLectureDeleted(old(workManager.pending), lecture)
    {
      lectures := Without(lectures, LectureKey, lecture.id);
      Refresh();
      CancelLectureReminder(workManager, lecture.id);
    }
  }
}
