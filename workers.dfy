/**
 * The three reminder workers: TaskReminderWorker and LectureReminderWorker
 * post one notification; RecurringLectureReminderWorker posts one and then
 * re-arms itself for the next week under the same unique name.  Each worker
 * is given as a pure step on the queue (what the methods are proved
 * against) and as the method that performs it.
 */
module Workers {
  import opened Wrappers
  import opened Text
  import opened DateTimeUtils
  import opened Model
  import opened Recurrence
  import opened Work

  /** Each worker's WORK_NAME_PREFIX. */
  function Prefix(k: WorkerKind): string {
    match k
    case TaskReminderWorker => "task_reminder_"
    case LectureReminderWorker => "lecture_reminder_"
    case RecurringLectureReminderWorker => "recurring_lecture_reminder_"
  }

  /** The unique work name "$WORK_NAME_PREFIX$id". */
  function WorkName(k: WorkerKind, id: int): string {
    Prefix(k) + IntToString(id)
  }

  /** Names of different kinds or different ids never collide. */
  lemma WorkNameInjective(k1: WorkerKind, id1: int, k2: WorkerKind, id2: int)
    ensures WorkName(k1, id1) == WorkName(k2, id2) <==> k1 == k2 && id1 == id2
  {
    if WorkName(k1, id1) == WorkName(k2, id2) {
      assert WorkName(k1, id1)[0] == Prefix(k1)[0];
      assert WorkName(k2, id2)[0] == Prefix(k2)[0];
      assert k1 == k2;
      var n := |Prefix(k1)|;
      assert WorkName(k1, id1)[n..] == IntToString(id1);
      assert WorkName(k2, id2)[n..] == IntToString(id2);
      IntToStringInjective(id1, id2);
    }
  }

  /** scheduleTaskReminder's input data. */
  function TaskInput(taskId: int, title: string, description: string): WorkData {
    WorkData(map["taskId" := taskId], map["title" := title, "description" := description])
  }

  /** scheduleOneTimeLectureReminder's input data. */
  function LectureInput(lectureId: int, title: string, time: string, room: string): WorkData {
    WorkData(map["lectureId" := lectureId], map["title" := title, "time" := time, "room" := room])
  }

  /** The recurring input data, written alike by scheduleRecurringLectureReminder and scheduleNextWeek. */
  function RecurringInput(lectureId: int, title: string, time: string, room: string, day: DayOfWeek, lead: int): WorkData {
    WorkData(map["lectureId" := lectureId, "reminderMinutesBefore" := lead],
             map["title" := title, "time" := time, "room" := room, "dayOfWeek" := DayName(day)])
  }

  datatype WorkResult = Success | Failure

  /** What one worker run leaves behind: the queue, the notifications it posted, its result. */
  datatype Outcome = Outcome(pending: Pending, shown: seq<Notification>, result: WorkResult)

  /** TaskReminderWorker.doWork: notify unless the id is the missing-id default -1. */
  function TaskWork(q: Pending, input: WorkData): Outcome {
    var id := GetInt(input, "taskId", -1);
    var title := GetString(input, "title").GetOr("Task Reminder");
    var description := GetString(input, "description").GetOr("");
    Outcome(q, if id != -1 then [TaskNotification(id, title, description)] else [], Success)
  }

  /** LectureReminderWorker.doWork: notify unless the id is -1. */
  function LectureWork(q: Pending, input: WorkData): Outcome {
    var id := GetInt(input, "lectureId", -1);
    var title := GetString(input, "title").GetOr("Lecture Reminder");
    var time := GetString(input, "time").GetOr("");
    var room := GetString(input, "room").GetOr("");
    Outcome(q, if id != -1 then [LectureNotification(id, title, time, room)] else [], Success)
  }

  /** The fields RecurringLectureReminderWorker reads, after their defaults. */
  datatype RecurringPayload = RecurringPayload(
    lectureId: int, title: string, time: string, room: string, dayOfWeek: string, reminderMinutesBefore: int)

  function DecodeRecurring(input: WorkData): RecurringPayload {
    RecurringPayload(
      GetInt(input, "lectureId", -1),
      GetString(input, "title").GetOr("Lecture Reminder"),
      GetString(input, "time").GetOr(""),
      GetString(input, "room").GetOr(""),
      GetString(input, "dayOfWeek").GetOr(""),
      GetInt(input, "reminderMinutesBefore", 15))
  }

  /** The worker reads back exactly what the scheduler wrote. */
  lemma DecodeRecurringInput(id: int, title: string, time: string, room: string, day: DayOfWeek, lead: int)
    ensures DecodeRecurring(RecurringInput(id, title, time, room, day, lead))
         == RecurringPayload(id, title, time, room, DayName(day), lead)
  {
  }

  /** Missing fields: id -1, title "Lecture Reminder", time, room and day "", lead 15. */
  lemma DecodeRecurringDefaults()
    ensures DecodeRecurring(WorkData(map[], map[])) == RecurringPayload(-1, "Lecture Reminder", "", "", "", 15)
  {
  }

  /** scheduleNextWeek: re-arm under the same name with the same data, unless the delay is not positive. */
  function NextWeek(q: Pending, p: RecurringPayload, day: DayOfWeek, now: int): Pending {
    var next := RearmTime(day, p.time, p.reminderMinutesBefore, now);
    if next - now <= 0 then q
    else q[WorkName(RecurringLectureReminderWorker, p.lectureId) :=
             WorkRequest(RecurringLectureReminderWorker, next,
                         RecurringInput(p.lectureId, p.title, p.time, p.room, day, p.reminderMinutesBefore))]
  }

  /** RecurringLectureReminderWorker.doWork: notify, then parse the day and re-arm. */
  function RecurringWork(q: Pending, input: WorkData, now: int): Outcome {
    var p := DecodeRecurring(input);
    if p.lectureId == -1 then Outcome(q, [], Success)
    else
      var shown := [LectureNotification(p.lectureId, p.title, p.time, p.room)];
      match DayValueOf(p.dayOfWeek)
      case None => Outcome(q, shown, Failure)
      case Some(day) => Outcome(NextWeek(q, p, day, now), shown, Success)
  }

  /** WorkManager runs the request pending under `name` at `now`: it leaves the queue, then its worker runs. */
  function Fire(q: Pending, name: string, now: int): Outcome
    requires name in q
  {
    var request := q[name];
    var rest := q - {name};
    match request.worker
    case TaskReminderWorker => TaskWork(rest, request.input)
    case LectureReminderWorker => LectureWork(rest, request.input)
    case RecurringLectureReminderWorker => RecurringWork(rest, request.input, now)
  }

  /** The missing-id default: no notification, no re-arm, success. */
  lemma RecurringMissingId(q: Pending, input: WorkData, now: int)
    requires GetInt(input, "lectureId", -1) == -1
    ensures RecurringWork(q, input, now) == Outcome(q, [], Success)
  {
  }

  /** For a real id the notification is posted whatever happens next; an unknown day string fails without re-arming. */
  lemma RecurringNotifiesFirst(q: Pending, input: WorkData, now: int)
    requires DecodeRecurring(input).lectureId != -1
    ensures var p := DecodeRecurring(input);
      RecurringWork(q, input, now).shown == [LectureNotification(p.lectureId, p.title, p.time, p.room)]
    ensures DayValueOf(DecodeRecurring(input).dayOfWeek).None? ==>
      RecurringWork(q, input, now).result == Failure && RecurringWork(q, input, now).pending == q
  {
  }

  /**
   * Re-arming keeps the descriptor: running on data the scheduler wrote, the
   * worker either enqueues exactly the same data for the re-arm instant under
   * the same name or, when that instant is not after now, enqueues nothing.
   */
  lemma RecurringRearmsSameData(q: Pending, id: int, title: string, time: string, room: string, day: DayOfWeek, lead: int, now: int)
    requires id != -1
    ensures var input := RecurringInput(id, title, time, room, day, lead);
      var next := RearmTime(day, time, lead, now);
      var o := RecurringWork(q, input, now);
      o.result == Success &&
      o.pending == if next <= now then q
                   else q[WorkName(RecurringLectureReminderWorker, id) := WorkRequest(RecurringLectureReminderWorker, next, input)]
  {
    DecodeRecurringInput(id, title, time, room, day, lead);
    DayValueOfName(day);
  }

  /** The one-shot workers never re-arm: firing removes their entry and adds nothing. */
  lemma OneShotFireRemovesEntry(q: Pending, name: string, now: int)
    requires name in q && q[name].worker != RecurringLectureReminderWorker
    ensures Fire(q, name, now).pending == q - {name}
    ensures Fire(q, name, now).result == Success
  {
  }

  /** A pending recurring request as the scheduler and the worker write it. */
  ghost predicate IsChainEntry(q: Pending, name: string, id: int, title: string, time: string, room: string, day: DayOfWeek, lead: int) {
    && id != -1
    && name == WorkName(RecurringLectureReminderWorker, id)
    && name in q
    && q[name].worker == RecurringLectureReminderWorker
    && q[name].input == RecurringInput(id, title, time, room, day, lead)
    && IsOccurrenceReminder(day, ReminderOffset(ParseStartTime(time), lead), q[name].fireAt)
  }

  lemma RemoveThenAdd(q: Pending, name: string, r: WorkRequest)
    ensures (q - {name})[name := r] == q[name := r]
  {
  }

  /** One on-time firing of a chain whose reminder falls on the lecture's day re-arms it a week later. */
  lemma ChainRenewsWeekly(q: Pending, name: string, id: int, title: string, time: string, room: string, day: DayOfWeek, lead: int)
    requires IsChainEntry(q, name, id, title, time, room, day, lead)
    requires 0 <= ReminderOffset(ParseStartTime(time), lead) < DAY
    ensures Fire(q, name, q[name].fireAt).pending == q[name := q[name].(fireAt := q[name].fireAt + WEEK)]
  {
    var request := q[name];
    var f := request.fireAt;
    RearmOneWeekLater(day, time, lead, f, f);
    RecurringRearmsSameData(q - {name}, id, title, time, room, day, lead, f);
    RemoveThenAdd(q, name, request.(fireAt := f + WEEK));
  }

  /** The queue with the entry under `name` moved k weeks on, everything else unchanged. */
  function WeeksOn(q: Pending, name: string, k: nat): Pending
    requires name in q
  {
    q[name := q[name].(fireAt := q[name].fireAt + k * WEEK)]
  }

  /**
   * The chain invariant survives any number of renewals: the entry k weeks on
   * is again a chain entry, so ChainRenewsWeekly applies to it in turn and the
   * chain fires once a week for ever.
   */
  lemma ChainEntryWeeksOn(q: Pending, name: string, id: int, title: string, time: string, room: string, day: DayOfWeek, lead: int, k: nat)
    requires IsChainEntry(q, name, id, title, time, room, day, lead)
    ensures IsChainEntry(WeeksOn(q, name, k), name, id, title, time, room, day, lead)
  {
    OccurrenceReminderWeeksLater(day, ReminderOffset(ParseStartTime(time), lead), q[name].fireAt, k);
  }

  /**
   * A chain whose reminder falls one to six days before the lecture's day
   * (the "1 day before" and "2 days before" options) posts its notification
   * and then re-arms nothing: the re-arm instant equals the fire instant.
   */
  lemma ChainEndsWhenReminderPrecedesLectureDay(q: Pending, name: string, id: int, title: string, time: string, room: string, day: DayOfWeek, lead: int)
    requires IsChainEntry(q, name, id, title, time, room, day, lead)
    requires -6 * DAY <= ReminderOffset(ParseStartTime(time), lead) < 0
    ensures var o := Fire(q, name, q[name].fireAt);
      name !in o.pending && o.pending == q - {name} && o.shown == [LectureNotification(id, title, time, room)]
  {
    var f := q[name].fireAt;
    RearmRepeatsFireInstant(day, time, lead, f);
    RecurringRearmsSameData(q - {name}, id, title, time, room, day, lead, f);
    DecodeRecurringInput(id, title, time, room, day, lead);
  }

  /** scheduleNextWeek with the evidently intended re-arm instant in place of RearmTime. */
  function IntendedNextWeek(q: Pending, p: RecurringPayload, day: DayOfWeek, now: int): Pending {
    var next := IntendedRearmTime(day, p.time, p.reminderMinutesBefore, now);
    if next - now <= 0 then q
    else q[WorkName(RecurringLectureReminderWorker, p.lectureId) :=
             WorkRequest(RecurringLectureReminderWorker, next,
                         RecurringInput(p.lectureId, p.title, p.time, p.room, day, p.reminderMinutesBefore))]
  }

  /**
   * With the intended re-arm rule, an on-time firing of any chain, whatever
   * its lead, re-arms it one week later with the same data, and the result
   * is again a chain entry.
   */
  lemma IntendedChainRenewsWeekly(q: Pending, name: string, id: int, title: string, time: string, room: string, day: DayOfWeek, lead: int)
    requires IsChainEntry(q, name, id, title, time, room, day, lead)
    ensures var f := q[name].fireAt;
      var r := IntendedNextWeek(q - {name}, RecurringPayload(id, title, time, room, DayName(day), lead), day, f);
      r == q[name := q[name].(fireAt := f + WEEK)] &&
      IsChainEntry(r, name, id, title, time, room, day, lead)
  {
    var f := q[name].fireAt;
    IntendedRearmOneWeekLater(day, time, lead, f);
    RemoveThenAdd(q, name, q[name].(fireAt := f + WEEK));
    OccurrenceReminderNextWeek(day, ReminderOffset(ParseStartTime(time), lead), f);
  }

  /** TaskReminderWorker.doWork */
  method TaskReminderDoWork(sink: NotificationSink, input: WorkData) returns (result: WorkResult)
    modifies sink
    ensures var o := TaskWork(map[], input); sink.shown == old(sink.shown) + o.shown && result == o.result
  {
    var taskId := GetInt(input, "taskId", -1);
    var title := GetString(input, "title").GetOr("Task Reminder");
    var description := GetString(input, "description").GetOr("");
    if taskId != -1 {
      sink.Notify(TaskNotification(taskId, title, description));
    }
    return Success;
  }

  /** LectureReminderWorker.doWork */
  method LectureReminderDoWork(sink: NotificationSink, input: WorkData) returns (result: WorkResult)
    modifies sink
    ensures var o := LectureWork(map[], input); sink.shown == old(sink.shown) + o.shown && result == o.result
  {
    var lectureId := GetInt(input, "lectureId", -1);
    var title := GetString(input, "title").GetOr("Lecture Reminder");
    var time := GetString(input, "time").GetOr("");
    var room := GetString(input, "room").GetOr("");
    if lectureId != -1 {
      sink.Notify(LectureNotification(lectureId, title, time, room));
    }
    return Success;
  }

  /** RecurringLectureReminderWorker.scheduleNextWeek */
  method ScheduleNextWeek(wm: WorkManager, lectureId: int, title: string, time: string, room: string,
                          dayOfWeek: DayOfWeek, reminderMinutesBefore: int, now: int)
    modifies wm
    ensures wm.pending == NextWeek(old(wm.pending), RecurringPayload(lectureId, title, time, room, DayName(dayOfWeek), reminderMinutesBefore), dayOfWeek, now)
  {
    var nextReminderTime := RearmTime(dayOfWeek, time, reminderMinutesBefore, now);
    var delay := nextReminderTime - now;
    if delay <= 0 {
      return;
    }
    var data := RecurringInput(lectureId, title, time, room, dayOfWeek, reminderMinutesBefore);
    wm.EnqueueUniqueWork(WorkName(RecurringLectureReminderWorker, lectureId),
                         WorkRequest(RecurringLectureReminderWorker, now + delay, data));
  }

  /** RecurringLectureReminderWorker.doWork */
  method RecurringDoWork(wm: WorkManager, sink: NotificationSink, input: WorkData, now: int) returns (result: WorkResult)
    modifies wm, sink
    ensures var o := RecurringWork(old(wm.pending), input, now);
      wm.pending == o.pending && sink.shown == old(sink.shown) + o.shown && result == o.result
  {
    var lectureId := GetInt(input, "lectureId", -1);
    var title := GetString(input, "title").GetOr("Lecture Reminder");
    var time := GetString(input, "time").GetOr("");
    var room := GetString(input, "room").GetOr("");
    var dayOfWeekString := GetString(input, "dayOfWeek").GetOr("");
    var reminderMinutesBefore := GetInt(input, "reminderMinutesBefore", 15);
    if lectureId != -1 {
      sink.Notify(LectureNotification(lectureId, title, time, room));
      var dayOfWeek := DayValueOf(dayOfWeekString);
      if dayOfWeek.None? {
        return Failure;
      }
      ScheduleNextWeek(wm, lectureId, title, time, room, dayOfWeek.value, reminderMinutesBefore, now);
    }
    return Success;
  }

  /** The runtime fires the request pending under `name`. */
  method RunWork(wm: WorkManager, sink: NotificationSink, name: string, now: int) returns (result: WorkResult)
    requires name in wm.pending
    modifies wm, sink
    ensures var o := Fire(old(wm.pending), name, now);
      wm.pending == o.pending && sink.shown == old(sink.shown) + o.shown && result == o.result
  {
    var request := wm.pending[name];
    wm.CancelUniqueWork(name);
    match request.worker {
      case TaskReminderWorker =>
        result := TaskReminderDoWork(sink, request.input);
      case LectureReminderWorker =>
        result := LectureReminderDoWork(sink, request.input);
      case RecurringLectureReminderWorker =>
        result := RecurringDoWork(wm, sink, request.input, now);
    }
  }
}
