/**
 * TaskViewModel: the tasks table, today's and this week's task lists, and
 * the reminder dispatch of insert, update and delete.  The two lists are
 * queries that re-emit whenever the table changes; their windows are fixed
 * from the clock reading taken when the collectors start.
 */
module TaskViewModels {
  import opened Sequences
  import opened Tables
  import opened DateTimeUtils
  import opened Model
  import opened Work
  import opened Workers
  import opened ReminderScheduler

  function TaskKey(t: Task): int { t.id }

  /** `ORDER BY dueDate ASC`. */
  predicate DueNoLater(a: Task, b: Task) {
    a.dueDate <= b.dueDate
  }

  /** TaskDao.getTasksForDay and getTasksForWeek: the tasks due in [start, end), by due date. */
  function TasksDueBetween(rows: seq<Task>, start: int, end: int): seq<Task> {
    SortBy(Filter(rows, (t: Task) => start <= t.dueDate < end), DueNoLater)
  }

  /** The window query's answer is sorted by due date... */
  lemma TasksDueBetweenSorted(rows: seq<Task>, start: int, end: int)
    ensures SortedBy(TasksDueBetween(rows, start, end), DueNoLater)
  {
    assert Total(DueNoLater);
  }

  /** ...and holds exactly the table's tasks due in the window. */
  lemma TasksDueBetweenMembers(rows: seq<Task>, start: int, end: int, t: Task)
    ensures t in TasksDueBetween(rows, start, end) <==> t in rows && start <= t.dueDate < end
  {
    SortByMembers(Filter(rows, (t: Task) => start <= t.dueDate < end), DueNoLater, t);
    FilterMembers(rows, (t: Task) => start <= t.dueDate < end, t);
  }

  /** loadTodaysTasks: the window from midnight to the next midnight. */
  function TodaysTasks(rows: seq<Task>, now: int): seq<Task> {
    TasksDueBetween(rows, StartOfDay(now), StartOfDay(now) + DAY)
  }

  /** loadThisWeekTasks: the window from the first day of the week at midnight to one week later. */
  function ThisWeekTasks(rows: seq<Task>, now: int, firstDayOfWeek: CalendarDay): seq<Task> {
    TasksDueBetween(rows, StartOfWeek(now, firstDayOfWeek), StartOfWeek(now, firstDayOfWeek) + WEEK)
  }

  /** Today's tasks are exactly the tasks due on today's calendar day. */
  lemma TodaysTasksMembers(rows: seq<Task>, now: int, t: Task)
    ensures t in TodaysTasks(rows, now) <==> t in rows && StartOfDay(t.dueDate) == StartOfDay(now)
  {
    TasksDueBetweenMembers(rows, StartOfDay(now), StartOfDay(now) + DAY, t);
    StartOfDayUnique(t.dueDate, StartOfDay(now));
  }

  /** This week's window starts on the given weekday, contains today entirely, and lasts seven days. */
  lemma TodayWithinThisWeek(now: int, firstDayOfWeek: CalendarDay)
    ensures var s := StartOfWeek(now, firstDayOfWeek);
      Weekday(s) == firstDayOfWeek && s <= StartOfDay(now) && StartOfDay(now) + DAY <= s + WEEK
  {
    var s := StartOfWeek(now, firstDayOfWeek);
    var d := StartOfDay(now);
    assert s / DAY * DAY == s && d / DAY * DAY == d;
    assert (s + WEEK) / DAY * DAY == s + WEEK;
    assert s / DAY <= now / DAY;
    assert (s + WEEK) / DAY > now / DAY;
  }

  /** This week's tasks are exactly the tasks due in the seven days from the week's first midnight. */
  lemma ThisWeekTasksMembers(rows: seq<Task>, now: int, firstDayOfWeek: CalendarDay, t: Task)
    ensures t in ThisWeekTasks(rows, now, firstDayOfWeek) <==>
      t in rows && StartOfWeek(now, firstDayOfWeek) <= t.dueDate < StartOfWeek(now, firstDayOfWeek) + WEEK
  {
    var s := StartOfWeek(now, firstDayOfWeek);
    TasksDueBetweenMembers(rows, s, s + WEEK, t);
  }

  lemma DueTodayIsDueThisWeek(rows: seq<Task>, now: int, firstDayOfWeek: CalendarDay, t: Task)
    requires t in TodaysTasks(rows, now)
    ensures t in rows && StartOfWeek(now, firstDayOfWeek) <= t.dueDate < StartOfWeek(now, firstDayOfWeek) + WEEK
  {
    var d := StartOfDay(now);
    TasksDueBetweenMembers(rows, d, d + DAY, t);
    TodayWithinThisWeek(now, firstDayOfWeek);
  }

  /** Every task listed today is listed this week too. */
  lemma TodaysTasksAreThisWeeks(rows: seq<Task>, now: int, firstDayOfWeek: CalendarDay, t: Task)
    requires t in TodaysTasks(rows, now)
    ensures t in ThisWeekTasks(rows, now, firstDayOfWeek)
  {
    DueTodayIsDueThisWeek(rows, now, firstDayOfWeek, t);
    ThisWeekTasksMembers(rows, now, firstDayOfWeek, t);
  }

  /** TaskDao.updateTaskCompletion: `UPDATE tasks SET isCompleted = :isCompleted WHERE id = :taskId`. */
  function SetCompleted(rows: seq<Task>, taskId: int, isCompleted: bool): (r: seq<Task>)
    ensures |r| == |rows|
    decreases |rows|
  {
    if |rows| == 0 then []
    else [if rows[0].id == taskId then rows[0].(isCompleted := isCompleted) else rows[0]]
         + SetCompleted(rows[1..], taskId, isCompleted)
  }

  /** The completion update changes only the flag, and only of the row with that id. */
  lemma {:induction false} SetCompletedAt(rows: seq<Task>, taskId: int, isCompleted: bool, i: nat)
    requires i < |rows|
    ensures SetCompleted(rows, taskId, isCompleted)[i]
         == if rows[i].id == taskId then rows[i].(isCompleted := isCompleted) else rows[i]
    decreases i
  {
    if i > 0 {
      SetCompletedAt(rows[1..], taskId, isCompleted, i - 1);
    }
  }

  /** TaskDao.deleteCompletedTasks: `DELETE FROM tasks WHERE isCompleted = 1`. */
  function WithoutCompleted(rows: seq<Task>): seq<Task> {
    Filter(rows, (t: Task) => !t.isCompleted)
  }

  /** Exactly the unfinished tasks remain. */
  lemma WithoutCompletedMembers(rows: seq<Task>, t: Task)
    ensures t in WithoutCompleted(rows) <==> t in rows && !t.isCompleted
  {
    FilterMembers(rows, (t: Task) => !t.isCompleted, t);
  }

  /** The row as the table stores it: a new task (id 0) takes the generated row id, any other keeps its own. */
  function StoredTask(task: Task, rowId: int): (r: Task)
    ensures r.id == (if task.id == 0 then rowId else task.id)
    ensures r.(id := task.id) == task
  {
    if task.id == 0 then task.(id := rowId) else task
  }

  /** What insertTask does to the reminder queue: schedule the stored copy only if enabled and stored. */
  function OnTaskInserted(q: Pending, task: Task, rowId: int, now: int): Pending {
    if task.reminderEnabled && rowId > 0 then ScheduledTask(q, task.(id := rowId), now) else q
  }

  /** What updateTask does to the reminder queue: reschedule if enabled, otherwise cancel. */
  function OnTaskUpdated(q: Pending, task: Task, now: int): Pending {
    if task.reminderEnabled then ScheduledTask(q, task, now) else CancelledTask(q, task.id)
  }

  /** What deleteTask does to the reminder queue: cancel, whatever the reminder flag. */
  function OnTaskDeleted(q: Pending, task: Task): Pending {
    CancelledTask(q, task.id)
  }

  /**
   * An inserted task with a reminder due after now is armed under its new
   * row id, `reminderTime` minutes before its due date; without a reminder,
   * or when the database stored nothing, the queue is untouched.
   */
  lemma InsertTaskArmsUnderRowId(q: Pending, task: Task, rowId: int, now: int)
    ensures !task.reminderEnabled || rowId <= 0 ==> OnTaskInserted(q, task, rowId, now) == q
    ensures task.reminderEnabled && rowId > 0 && task.reminderTime.Some? &&
            task.dueDate - task.reminderTime.value * MINUTE > now ==>
      var name := WorkName(TaskReminderWorker, rowId);
      var r := OnTaskInserted(q, task, rowId, now);
      name in r && r[name].fireAt == task.dueDate - task.reminderTime.value * MINUTE &&
      r[name].input == TaskInput(rowId, task.title, task.description)
  {
  }

  /** Deleting a task, or updating it with the reminder off, leaves no reminder pending for it. */
  lemma DeleteOrDisableClearsTaskReminder(q: Pending, task: Task, now: int)
    ensures WorkName(TaskReminderWorker, task.id) !in OnTaskDeleted(q, task)
    ensures !task.reminderEnabled ==> WorkName(TaskReminderWorker, task.id) !in OnTaskUpdated(q, task, now)
  {
  }

  /**
   * An update whose new reminder instant has already passed, or that has no
   * lead time, cancels nothing: the reminder armed for the task's old due
   * date stays pending.
   */
  lemma PastRescheduleKeepsStaleReminder(q: Pending, task: Task, now: int)
    requires task.reminderEnabled
    requires task.reminderTime.None? || TaskReminderInstant(task) <= now
    requires WorkName(TaskReminderWorker, task.id) in q
    ensures OnTaskUpdated(q, task, now) == q
    ensures WorkName(TaskReminderWorker, task.id) in OnTaskUpdated(q, task, now)
  {
  }

  class TaskViewModel {
    /** The tasks table. */
    var tasks: seq<Task>
    /** The clock reading taken when the collectors started. */
    var loadedAt: int
    /** The locale's first day of the week. */
    const firstDayOfWeek: CalendarDay
    var todaysTasks: seq<Task>
    var thisWeekTasks: seq<Task>
    const workManager: WorkManager

    /** Both observed lists are the current answers of their queries. */
    ghost predicate Valid()
      reads this
    {
      && todaysTasks == TodaysTasks(tasks, loadedAt)
      && thisWeekTasks == ThisWeekTasks(tasks, loadedAt, firstDayOfWeek)
    }

    /** The constructor; `init` starts loadTodaysTasks and loadThisWeekTasks at `now`. */
    constructor(wm: WorkManager, rows: seq<Task>, now: int, first: CalendarDay)
      ensures Valid()
      ensures workManager == wm && tasks == rows && loadedAt == now && firstDayOfWeek == first
    {
      workManager := wm;
      tasks := rows;
      loadedAt := now;
      firstDayOfWeek := first;
      todaysTasks := TodaysTasks(rows, now);
      thisWeekTasks := ThisWeekTasks(rows, now, first);
    }

    /** The table changed: both collectors re-emit. */
    method Refresh()
      modifies this
      ensures Valid()
      ensures tasks == old(tasks) && loadedAt == old(loadedAt)
    {
      ghost var rows, at := tasks, loadedAt;
      var today := TodaysTasks(tasks, loadedAt);
      var week := ThisWeekTasks(tasks, loadedAt, firstDayOfWeek);
      todaysTasks, thisWeekTasks := today, week;
      assert tasks == rows && loadedAt == at;
    }

    /**
     * insertTask; `rowId` is the id the database returned for the stored
     * row, which a replacing insert of a row with a set id returns unchanged.
     */
    method InsertTask(task: Task, rowId: int, now: int)
      requires Valid()
      requires task.id != 0 && rowId > 0 ==> rowId == task.id
      modifies this, workManager
      ensures Valid()
      ensures tasks == Upsert(old(tasks), TaskKey, StoredTask(task, rowId))
      ensures loadedAt == old(loadedAt)
      ensures workManager.pending == OnTaskInserted(old(workManager.pending), task, rowId, now)
    {
      var stored := StoredTask(task, rowId);
      tasks := Upsert(tasks, TaskKey, stored);
      Refresh();
      if task.reminderEnabled && rowId > 0 {
        var taskWithId := task.(id := rowId);
        ScheduleTaskReminder(workManager, taskWithId, now);
      }
    }

    /** updateTask */
    method UpdateTask(task: Task, now: int)
      requires Valid()
      modifies this, workManager
      ensures Valid()
      ensures tasks == Tables.Update(old(tasks), TaskKey, task)
      ensures loadedAt == old(loadedAt)
      ensures workManager.pending == OnTaskUpdated(old(workManager.pending), task, now)
    {
      tasks := Tables.Update(tasks, TaskKey, task);
      Refresh();
      if task.reminderEnabled {
        ScheduleTaskReminder(workManager, task, now);
      } else {
        CancelTaskReminder(workManager, task.id);
      }
    }

    /** deleteTask */
    method DeleteTask(task: Task)
      requires Valid()
      modifies this, workManager
      ensures Valid()
      ensures tasks == Without(old(tasks), TaskKey, task.id)
      ensures loadedAt == old(loadedAt)
      ensures workManager.pending == OnTaskDeleted(old(workManager.pending), task)
    {
      tasks := Without(tasks, TaskKey, task.id);
      Refresh();
      CancelTaskReminder(workManager, task.id);
    }

    /** toggleTaskCompletion: a completed task keeps its pending reminder. */
    method ToggleTaskCompletion(taskId: int, isCompleted: bool)
      requires Valid()
      modifies this
      ensures Valid()
      ensures tasks == SetCompleted(old(tasks), taskId, isCompleted)
      ensures loadedAt == old(loadedAt)
      ensures workManager.pending == old(workManager.pending)
    {
      tasks := SetCompleted(tasks, taskId, isCompleted);
      Refresh();
    }

    /** deleteCompletedTasks: the deleted tasks' reminders stay pending. */
    method DeleteCompletedTasks()
      requires Valid()
      modifies this
      ensures Valid()
      ensures tasks == WithoutCompleted(old(tasks))
      ensures loadedAt == old(loadedAt)
      ensures workManager.pending == old(workManager.pending)
    {
      tasks := WithoutCompleted(tasks);
      Refresh();
    }
  }
}
