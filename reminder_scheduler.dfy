/**
 * ReminderScheduler: turns a task or a lecture into at most one unique work
 * request, enqueued under the worker's prefix plus the row id with the
 * REPLACE policy, and cancels those requests again.  The clock reading each
 * operation uses is the parameter `now`.
 */
module ReminderScheduler {
  import opened Wrappers
  import opened DateTimeUtils
  import opened Model
  import opened Recurrence
  import opened Work
  import opened Workers

  /** The instant a task's reminder is due: `reminderTime` minutes before `dueDate`. */
  function TaskReminderInstant(task: Task): int
    requires task.reminderTime.Some?
  {
    task.dueDate - task.reminderTime.value * MINUTE
  }

  /** The queue after scheduleTaskReminder. */
  function ScheduledTask(q: Pending, task: Task, now: int): Pending {
    if !task.reminderEnabled || task.reminderTime.None? then q
    else if TaskReminderInstant(task) - now <= 0 then q
    else q[WorkName(TaskReminderWorker, task.id) :=
             WorkRequest(TaskReminderWorker, TaskReminderInstant(task), TaskInput(task.id, task.title, task.description))]
  }

  /** The instant a one-time lecture's reminder is due. */
  function OneTimeReminderInstant(lecture: Lecture): int
    requires lecture.specificDate.Some?
  {
    lecture.specificDate.value - lecture.reminderMinutesBefore * MINUTE
  }

  /** The queue after scheduleOneTimeLectureReminder. */
  function ScheduledOneTimeLecture(q: Pending, lecture: Lecture, now: int): Pending {
    if lecture.specificDate.None? then q
    else if OneTimeReminderInstant(lecture) - now <= 0 then q
    else q[WorkName(LectureReminderWorker, lecture.id) :=
             WorkRequest(LectureReminderWorker, OneTimeReminderInstant(lecture),
                         LectureInput(lecture.id, lecture.title, lecture.startTime, lecture.room))]
  }

  /** The queue after scheduleRecurringLectureReminder. */
  function ScheduledRecurringLecture(q: Pending, lecture: Lecture, now: int): Pending {
    var next := NextReminderTime(lecture.dayOfWeek, lecture.startTime, lecture.reminderMinutesBefore, now);
    if next - now <= 0 then q
    else q[WorkName(RecurringLectureReminderWorker, lecture.id) :=
             WorkRequest(RecurringLectureReminderWorker, next,
                         RecurringInput(lecture.id, lecture.title, lecture.startTime, lecture.room,
                                        lecture.dayOfWeek, lecture.reminderMinutesBefore))]
  }

  /** The queue after scheduleLectureReminder. */
  function ScheduledLecture(q: Pending, lecture: Lecture, now: int): Pending {
    if !lecture.reminderEnabled then q
    else if lecture.isRecurring then ScheduledRecurringLecture(q, lecture, now)
    else ScheduledOneTimeLecture(q, lecture, now)
  }

  /** The queue after cancelTaskReminder. */
  function CancelledTask(q: Pending, taskId: int): Pending {
    q - {WorkName(TaskReminderWorker, taskId)}
  }

  /** The queue after cancelLectureReminder: both lecture kinds are cancelled. */
  function CancelledLecture(q: Pending, lectureId: int): Pending {
    q - {WorkName(LectureReminderWorker, lectureId)} - {WorkName(RecurringLectureReminderWorker, lectureId)}
  }

  /** `q2` agrees with `q` on every name but `name`. */
  ghost predicate SameElsewhere(q: Pending, q2: Pending, name: string) {
    forall k :: k != name ==> (k in q2 <==> k in q) && (k in q ==> q2[k] == q[k])
  }

  /**
   * A task reminder is scheduled exactly when it is enabled, has a lead time
   * and is due after now; it then fires `reminderTime` minutes before the due
   * date, carrying the task's id, title and description, and no other entry
   * changes.
   */
  lemma ScheduledTaskEffect(q: Pending, task: Task, now: int)
    ensures var name := WorkName(TaskReminderWorker, task.id);
      var r := ScheduledTask(q, task, now);
      SameElsewhere(q, r, name) &&
      (if task.reminderEnabled && task.reminderTime.Some? && task.dueDate - task.reminderTime.value * MINUTE > now
       then name in r && r[name].worker == TaskReminderWorker
         && r[name].fireAt == task.dueDate - task.reminderTime.value * MINUTE
         && r[name].input == TaskInput(task.id, task.title, task.description)
       else r == q)
  {
  }

  /** The same for a one-time lecture: it fires `reminderMinutesBefore` minutes before its specific date. */
  lemma ScheduledOneTimeLectureEffect(q: Pending, lecture: Lecture, now: int)
    requires lecture.reminderEnabled && !lecture.isRecurring
    ensures var name := WorkName(LectureReminderWorker, lecture.id);
      var r := ScheduledLecture(q, lecture, now);
      SameElsewhere(q, r, name) &&
      (if lecture.specificDate.Some? && lecture.specificDate.value - lecture.reminderMinutesBefore * MINUTE > now
       then name in r && r[name].worker == LectureReminderWorker
         && r[name].fireAt == lecture.specificDate.value - lecture.reminderMinutesBefore * MINUTE
         && r[name].input == LectureInput(lecture.id, lecture.title, lecture.startTime, lecture.room)
       else r == q)
  {
  }

  /**
   * A recurring lecture is enqueued exactly when the computed reminder
   * instant is after now, at that instant and with the descriptor the worker
   * re-arms with; the entry then starts a chain: a reminder for an occurrence
   * of the lecture's weekday.
   */
  lemma ScheduledRecurringStartsChain(q: Pending, lecture: Lecture, now: int)
    requires lecture.reminderEnabled && lecture.isRecurring
    ensures var name := WorkName(RecurringLectureReminderWorker, lecture.id);
      var next := NextReminderTime(lecture.dayOfWeek, lecture.startTime, lecture.reminderMinutesBefore, now);
      var r := ScheduledLecture(q, lecture, now);
      SameElsewhere(q, r, name) &&
      (if next > now
       then name in r &&
         r[name] == WorkRequest(RecurringLectureReminderWorker, next,
                                RecurringInput(lecture.id, lecture.title, lecture.startTime, lecture.room,
                                               lecture.dayOfWeek, lecture.reminderMinutesBefore)) &&
         (lecture.id != -1 ==>
            IsChainEntry(r, name, lecture.id, lecture.title, lecture.startTime, lecture.room,
                         lecture.dayOfWeek, lecture.reminderMinutesBefore))
       else r == q)
  {
  }

  /**
   * When the reminder falls on the lecture's day, scheduling a recurring
   * lecture always enqueues, at most one week ahead.
   */
  lemma ScheduledRecurringWhenSameDayReminder(q: Pending, lecture: Lecture, now: int)
    requires lecture.reminderEnabled && lecture.isRecurring
    requires 0 <= ReminderOffset(ParseStartTime(lecture.startTime), lecture.reminderMinutesBefore) < DAY
    ensures var name := WorkName(RecurringLectureReminderWorker, lecture.id);
      var r := ScheduledLecture(q, lecture, now);
      name in r && now < r[name].fireAt <= now + WEEK
  {
    NextReminderTimeAhead(lecture.dayOfWeek, lecture.startTime, lecture.reminderMinutesBefore, now);
  }

  /**
   * With a two-day lead, a Friday 09:00 lecture scheduled on a Thursday at
   * noon computes a reminder instant in the past and enqueues nothing,
   * although its reminder is enabled.
   */
  lemma RecurringWithLongLeadCanScheduleNothing(q: Pending, lecture: Lecture)
    requires lecture.reminderEnabled && lecture.isRecurring
    requires lecture.dayOfWeek == Friday && lecture.startTime == "09:00" && lecture.reminderMinutesBefore == 2880
    ensures ScheduledLecture(q, lecture, 12 * HOUR) == q
  {
    NextReminderTimeCanBePast();
  }

  /** REPLACE: scheduling a task again leaves only the newer request, whatever the older one was. */
  lemma RescheduleTaskReplaces(q: Pending, older: Task, newer: Task, now1: int, now2: int)
    requires older.id == newer.id
    requires newer.reminderEnabled && newer.reminderTime.Some? && TaskReminderInstant(newer) > now2
    ensures ScheduledTask(ScheduledTask(q, older, now1), newer, now2) == ScheduledTask(q, newer, now2)
  {
  }

  /** A reschedule that is skipped leaves the older request in the queue. */
  lemma SkippedRescheduleKeepsOlder(q: Pending, older: Task, newer: Task, now1: int, now2: int)
    requires !newer.reminderEnabled || newer.reminderTime.None?
    ensures ScheduledTask(ScheduledTask(q, older, now1), newer, now2) == ScheduledTask(q, older, now1)
  {
  }

  /** cancelLectureReminder removes both lecture kinds for that id, keeps every other entry, and is idempotent. */
  lemma CancelledLectureEffect(q: Pending, lectureId: int)
    ensures var r := CancelledLecture(q, lectureId);
      WorkName(LectureReminderWorker, lectureId) !in r &&
      WorkName(RecurringLectureReminderWorker, lectureId) !in r &&
      (forall k :: k in q && k != WorkName(LectureReminderWorker, lectureId) && k != WorkName(RecurringLectureReminderWorker, lectureId)
         ==> k in r && r[k] == q[k]) &&
      (forall k :: k in r ==> k in q) &&
      CancelledLecture(r, lectureId) == r
  {
  }

  /** cancelTaskReminder touches no lecture entry and no other task's entry. */
  lemma CancelledTaskEffect(q: Pending, taskId: int, k: WorkerKind, id: int)
    requires k != TaskReminderWorker || id != taskId
    ensures WorkName(TaskReminderWorker, taskId) !in CancelledTask(q, taskId)
    ensures var name := WorkName(k, id);
      (name in CancelledTask(q, taskId) <==> name in q) &&
      (name in q ==> CancelledTask(q, taskId)[name] == q[name])
  {
    WorkNameInjective(k, id, TaskReminderWorker, taskId);
  }

  /** A scheduled task reminder, when it fires, posts the task's notification and leaves nothing behind for it. */
  lemma ScheduledTaskFires(q: Pending, task: Task, now: int)
    requires task.reminderEnabled && task.reminderTime.Some? && TaskReminderInstant(task) > now
    requires task.id != -1
    ensures var name := WorkName(TaskReminderWorker, task.id);
      var o := Fire(ScheduledTask(q, task, now), name, TaskReminderInstant(task));
      o.shown == [TaskNotification(task.id, task.title, task.description)] && name !in o.pending
  {
  }

  /** A scheduled one-time lecture reminder, when it fires, posts the lecture's notification and leaves nothing behind for it. */
  lemma ScheduledOneTimeLectureFires(q: Pending, lecture: Lecture, now: int)
    requires lecture.reminderEnabled && !lecture.isRecurring
    requires lecture.specificDate.Some? && OneTimeReminderInstant(lecture) > now
    requires lecture.id != -1
    ensures var name := WorkName(LectureReminderWorker, lecture.id);
      var o := Fire(ScheduledLecture(q, lecture, now), name, OneTimeReminderInstant(lecture));
      o.shown == [LectureNotification(lecture.id, lecture.title, lecture.startTime, lecture.room)] && name !in o.pending
  {
  }

  /** ReminderScheduler.scheduleTaskReminder */
  method ScheduleTaskReminder(wm: WorkManager, task: Task, now: int)
    modifies wm
    ensures wm.pending == ScheduledTask(old(wm.pending), task, now)
  {
    if !task.reminderEnabled || task.reminderTime.None? {
      return;
    }
    var reminderTime := task.dueDate - task.reminderTime.value * MINUTE;
    var delay := reminderTime - now;
    if delay <= 0 {
      return;
    }
    var data := TaskInput(task.id, task.title, task.description);
    wm.EnqueueUniqueWork(WorkName(TaskReminderWorker, task.id), WorkRequest(TaskReminderWorker, now + delay, data));
  }

  /** ReminderScheduler.scheduleLectureReminder */
  method ScheduleLectureReminder(wm: WorkManager, lecture: Lecture, now: int)
    modifies wm
    ensures wm.pending == ScheduledLecture(old(wm.pending), lecture, now)
  {
    if !lecture.reminderEnabled {
      return;
    }
    if lecture.isRecurring {
      ScheduleRecurringLectureReminder(wm, lecture, now);
    } else {
      ScheduleOneTimeLectureReminder(wm, lecture, now);
    }
  }

  /** ReminderScheduler.scheduleRecurringLectureReminder */
  method ScheduleRecurringLectureReminder(wm: WorkManager, lecture: Lecture, now: int)
    modifies wm
    ensures wm.pending == ScheduledRecurringLecture(old(wm.pending), lecture, now)
  {
    var nextReminderTime := NextReminderTime(lecture.dayOfWeek, lecture.startTime, lecture.reminderMinutesBefore, now);
    var delay := nextReminderTime - now;
    if delay <= 0 {
      return;
    }
    var data := RecurringInput(lecture.id, lecture.title, lecture.startTime, lecture.room,
                               lecture.dayOfWeek, lecture.reminderMinutesBefore);
    wm.EnqueueUniqueWork(WorkName(RecurringLectureReminderWorker, lecture.id),
                         WorkRequest(RecurringLectureReminderWorker, now + delay, data));
  }

  /** ReminderScheduler.scheduleOneTimeLectureReminder */
  method ScheduleOneTimeLectureReminder(wm: WorkManager, lecture: Lecture, now: int)
    modifies wm
    ensures wm.pending == ScheduledOneTimeLecture(old(wm.pending), lecture, now)
  {
    if lecture.specificDate.None? {
      return;
    }
    var reminderTime := lecture.specificDate.value - lecture.reminderMinutesBefore * MINUTE;
    var delay := reminderTime - now;
    if delay <= 0 {
      return;
    }
    var data := LectureInput(lecture.id, lecture.title, lecture.startTime, lecture.room);
    wm.EnqueueUniqueWork(WorkName(LectureReminderWorker, lecture.id), WorkRequest(LectureReminderWorker, now + delay, data));
  }

  /** ReminderScheduler.cancelTaskReminder */
  method CancelTaskReminder(wm: WorkManager, taskId: int)
    modifies wm
    ensures wm.pending == CancelledTask(old(wm.pending), taskId)
  {
    wm.CancelUniqueWork(WorkName(TaskReminderWorker, taskId));
  }

  /** ReminderScheduler.cancelLectureReminder */
  method CancelLectureReminder(wm: WorkManager, lectureId: int)
    modifies wm
    ensures wm.pending == CancelledLecture(old(wm.pending), lectureId)
  {
    wm.CancelUniqueWork(WorkName(LectureReminderWorker, lectureId));
    wm.CancelUniqueWork(WorkName(RecurringLectureReminderWorker, lectureId));
  }
}
