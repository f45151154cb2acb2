# StudentPlanner reminders, in Dafny

A model of the reminder core of the StudentPlanner Android app and proofs about it. The core covers:

- **ReminderScheduler**: turns a task or a lecture into at most one unique WorkManager request, named by the worker's prefix plus the row id and enqueued with the REPLACE policy. It also cancels those requests.
- **The three workers**:
  - `TaskReminderWorker` and `LectureReminderWorker` post one notification each.
  - `RecurringLectureReminderWorker` posts one and then re-arms itself for the following week under the same name.
- **The Room type converters** for `Priority` and `DayOfWeek`.
- **DateTimeUtils**: start and end of day and week, isToday, isPast, isFuture, and the relative-time label.
- **The two view models** (`LectureViewModel`, `TaskViewModel`):
  - the day and week queries whose results the screens observe;
  - the reminder dispatch that follows every insert, update and delete.

How the platform is represented:

- **Time** is a local clock in integer milliseconds, with a fixed zone offset and no daylight saving.
  - Day 0 is Thursday 1 January 1970.
  - Weekdays are numbered as `java.util.Calendar` numbers them (1 = Sunday .. 7 = Saturday).
  - Every operation that reads the clock takes the reading as a parameter `now`.
- **WorkManager** is a class whose one field is the map from unique name to pending request (worker, fire instant, input data).
  - REPLACE is a map update. Cancelling removes the key.
  - The runtime firing a request is `Workers.Fire` (pure) and `Workers.RunWork` (the method): the entry leaves the queue, then its worker runs.
- **Notifications** are a class holding the sequence of notifications posted so far.
- **Database tables** are sequences of rows keyed by primary key:
  - `@Insert(REPLACE)` is `Tables.Upsert`, `@Update` is `Tables.Update` and `@Delete` is `Tables.Without`.
  - `WHERE` is `Sequences.Filter`.
  - `ORDER BY` / `sortedBy` is an insertion sort (`Sequences.SortBy`), proved sorted and a permutation; it keeps equal elements in input order by construction, which is not proved.
- **The observed lists** of a view model are fields. The class invariant `Valid()` says each one is the current answer of its query. The re-emission of a Room `Flow` after a write is the method `Refresh`.

Each imperative operation is a method proved against a pure function of the old state, for example `wm.pending == ScheduledTask(old(wm.pending), task, now)`. The properties the app relies on are then lemmas about those functions:

- the shape of the queue after scheduling;
- that unique names never collide;
- that the worker reads back what the scheduler wrote;
- that a weekly chain renews itself.

Modules, one per source file or concern: `Wrappers`, `Text`, `Sequences`, `Tables`, `DateTimeUtils`, `Model`, `Converters`, `Recurrence`, `Work`, `Workers`, `ReminderScheduler`, `LectureViewModels`, `TaskViewModels`.

## Model

All source paths below start with `app/src/main/java/com/binigrmay/studentplanner/`; that prefix is written out in each cell.

| member | source | states |
|---|---|---|
| Text.IntToStringLiteral | app/src/main/java/com/binigrmay/studentplanner/utils/ReminderScheduler.kt:72 | the id printed into a work name is a decimal literal whose value is the id |
| Text.IntToStringInjective | app/src/main/java/com/binigrmay/studentplanner/utils/ReminderScheduler.kt:72 | different ids print differently |
| Text.ParseInt | app/src/main/java/com/binigrmay/studentplanner/utils/ReminderScheduler.kt:235-236 | `toIntOrNull` succeeds exactly on an optionally signed digit string whose value fits in an Int, and then yields that value |
| Text.ParseIntToString | app/src/main/java/com/binigrmay/studentplanner/utils/ReminderScheduler.kt:235-236 | parsing reads back every printed Int |
| Text.TwoDigitsValue | app/src/main/java/com/binigrmay/studentplanner/ui/screens/lectures/AddLectureScreen.kt:369 | a `%02d` field parses back to its number |
| Text.Split | app/src/main/java/com/binigrmay/studentplanner/utils/ReminderScheduler.kt:234 | `split(":")` yields at least one piece and no piece contains the delimiter |
| Text.SplitAtSeparator | app/src/main/java/com/binigrmay/studentplanner/utils/ReminderScheduler.kt:234 | "x:y" with no delimiter in x splits into x followed by the pieces of y |
| Text.JoinSplit | app/src/main/java/com/binigrmay/studentplanner/utils/ReminderScheduler.kt:234 | joining the pieces with the delimiter gives back the string |
| Text.LexLeTotal | app/src/main/java/com/binigrmay/studentplanner/viewmodel/LectureViewModel.kt:71 | string order of start times is total, so sorting by it is well defined |
| Sequences.SortBy | app/src/main/java/com/binigrmay/studentplanner/viewmodel/LectureViewModel.kt:71 | under a total order the result is sorted |
| Sequences.SortByPermutation | app/src/main/java/com/binigrmay/studentplanner/viewmodel/LectureViewModel.kt:71 | the sorted list is a permutation of the input |
| Sequences.SortByConcatPermutation | app/src/main/java/com/binigrmay/studentplanner/viewmodel/LectureViewModel.kt:66-71 | sorting two lists together yields exactly the occurrences of both |
| Sequences.SortByMembers | app/src/main/java/com/binigrmay/studentplanner/viewmodel/LectureViewModel.kt:71 | sorting keeps exactly the input's elements |
| Sequences.SortByConcatMembers | app/src/main/java/com/binigrmay/studentplanner/viewmodel/LectureViewModel.kt:66-71 | sorting two lists together keeps exactly the elements of both |
| Sequences.FilterMembers | app/src/main/java/com/binigrmay/studentplanner/data/db/TaskDao.kt:25-31 | a WHERE keeps exactly the rows meeting its condition |
| Tables.WithoutMembers | app/src/main/java/com/binigrmay/studentplanner/data/db/TaskDao.kt:64-65 | `@Delete` removes exactly the rows with the entity's key |
| Tables.UpsertMembers | app/src/main/java/com/binigrmay/studentplanner/data/db/TaskDao.kt:55-56 | `@Insert(REPLACE)` leaves the new row and every row with another key, and nothing else |
| Tables.UpdateAt | app/src/main/java/com/binigrmay/studentplanner/data/db/TaskDao.kt:61-62 | `@Update` rewrites in place exactly the rows with the entity's key |
| Tables.WithoutKeepsUniqueKeys | app/src/main/java/com/binigrmay/studentplanner/data/db/TaskDao.kt:64-65 | deleting keeps the primary key unique |
| Tables.UpsertKeepsUniqueKeys | app/src/main/java/com/binigrmay/studentplanner/data/db/TaskDao.kt:55-56 | the replacing insert keeps the primary key unique |
| Tables.UpdateKeepsUniqueKeys | app/src/main/java/com/binigrmay/studentplanner/data/db/TaskDao.kt:61-62 | updating keeps the primary key unique |
| Tables.UpsertThenLookup | app/src/main/java/com/binigrmay/studentplanner/data/db/LectureDao.kt:58-59 | after a replacing insert, the key names only the stored row |
| DateTimeUtils.WeekdayAfterDays | app/src/main/java/com/binigrmay/studentplanner/utils/ReminderScheduler.kt:260 | adding k days moves the Calendar weekday k places on, cyclically |
| DateTimeUtils.StartOfDay | app/src/main/java/com/binigrmay/studentplanner/utils/DateTimeUtils.kt:37-45 | the result is a midnight, at or before t, within a day of t |
| DateTimeUtils.StartOfDayUnique | app/src/main/java/com/binigrmay/studentplanner/utils/DateTimeUtils.kt:37-45 | a midnight lies at or within one day before t if and only if it is t's start of day |
| DateTimeUtils.StartOfDayIdempotent | app/src/main/java/com/binigrmay/studentplanner/utils/DateTimeUtils.kt:37-45 | the start of a start of day is itself |
| DateTimeUtils.WeekdayOfStartOfDay | app/src/main/java/com/binigrmay/studentplanner/utils/DateTimeUtils.kt:37-45 | midnight has the same weekday as every instant of its day |
| DateTimeUtils.EndOfDay | app/src/main/java/com/binigrmay/studentplanner/utils/DateTimeUtils.kt:50-58 | 23:59:59.999 of t's day: the same day as t, one millisecond before the next midnight |
| DateTimeUtils.StartOfWeek | app/src/main/java/com/binigrmay/studentplanner/utils/DateTimeUtils.kt:63-68 | a midnight falling on the first day of the week, at or before t, less than a week before t |
| DateTimeUtils.EndOfWeek | app/src/main/java/com/binigrmay/studentplanner/utils/DateTimeUtils.kt:73-78 | one week after the start of the week: after t, a midnight on the first day of the week |
| DateTimeUtils.IsToday | app/src/main/java/com/binigrmay/studentplanner/utils/DateTimeUtils.kt:83-87 | definition: `t` lies in the half-open range from today's start to today's end; its meaning is in `IsTodayMeaning`, `LastMillisecondOfToday` |
| DateTimeUtils.IsTodayMeaning | app/src/main/java/com/binigrmay/studentplanner/utils/DateTimeUtils.kt:83-87 | isToday holds if and only if t is on today's calendar day and is not its last millisecond |
| DateTimeUtils.IsPast | app/src/main/java/com/binigrmay/studentplanner/utils/DateTimeUtils.kt:92-94 | definition: `t` is before `now`; its properties are in `PastAndFuture` |
| DateTimeUtils.IsFuture | app/src/main/java/com/binigrmay/studentplanner/utils/DateTimeUtils.kt:99-101 | definition: `t` is after `now`; its properties are in `PastAndFuture` |
| DateTimeUtils.PastAndFuture | app/src/main/java/com/binigrmay/studentplanner/utils/DateTimeUtils.kt:92-101 | no instant is both past and future; one that is neither is now |
| DateTimeUtils.RelativeTimeLabel | app/src/main/java/com/binigrmay/studentplanner/utils/DateTimeUtils.kt:106-117 | for each label, the exact range of `t - now` (outside today) that yields it; the ranges cover every instant |
| DateTimeUtils.ExactlyOneDayAhead | app/src/main/java/com/binigrmay/studentplanner/utils/DateTimeUtils.kt:106-117 | exactly 24 hours ahead is "Tomorrow", not "In 2 days" |
| DateTimeUtils.LastMillisecondOfToday | app/src/main/java/com/binigrmay/studentplanner/utils/DateTimeUtils.kt:83-87 | the end of today is not today and is labelled "Tomorrow" (as written) |
| DateTimeUtils.IsTodayIntendedMeaning | app/src/main/java/com/binigrmay/studentplanner/utils/DateTimeUtils.kt:83-87 | the half-open day up to the next midnight holds exactly the instants of today, its last millisecond included |
| Model.OrdinalOrder | app/src/main/java/com/binigrmay/studentplanner/data/model/Lecture.kt:39-47 | the enum is declared Sunday to Saturday, one ordinal per day |
| Model.DayValueOf | app/src/main/java/com/binigrmay/studentplanner/worker/RecurringLectureReminderWorker.kt:68-73 | `valueOf` returns the day whose name is the string, and fails exactly when no day has that name |
| Model.DayValueOfName | app/src/main/java/com/binigrmay/studentplanner/worker/RecurringLectureReminderWorker.kt:68-73 | `valueOf(name)` gives back the day |
| Model.FromCalendar | app/src/main/java/com/binigrmay/studentplanner/data/model/Lecture.kt:49-60 | 1..7 map to Sunday..Saturday in order; anything else maps to Monday |
| Model.PriorityValueOf | app/src/main/java/com/binigrmay/studentplanner/data/model/Task.kt:33-38 | `valueOf` returns the priority whose name is the string, and fails exactly when none has it |
| Model.NewLecture | app/src/main/java/com/binigrmay/studentplanner/data/model/Lecture.kt:10-37 | a lecture given only its required fields has the declared defaults: id 0, recurring, no date, reminder off, 15 minutes ahead |
| Converters.FromPriority | app/src/main/java/com/binigrmay/studentplanner/data/db/Converters.kt:12-15 | the stored name reads back as the priority |
| Converters.ToPriority | app/src/main/java/com/binigrmay/studentplanner/data/db/Converters.kt:17-24 | an unknown name reads as MEDIUM; any other result is the priority with that name |
| Converters.PriorityRoundTrip | app/src/main/java/com/binigrmay/studentplanner/data/db/Converters.kt:12-24 | storing then reading a priority gives it back |
| Converters.ToPriorityExactly | app/src/main/java/com/binigrmay/studentplanner/data/db/Converters.kt:17-24 | a string reads as p if and only if it is p's name, or p is MEDIUM and the name is unknown |
| Converters.FromDayOfWeek | app/src/main/java/com/binigrmay/studentplanner/data/db/Converters.kt:26-29 | the stored name reads back as the day |
| Converters.ToDayOfWeek | app/src/main/java/com/binigrmay/studentplanner/data/db/Converters.kt:31-38 | an unknown name reads as MONDAY; any other result is the day with that name |
| Converters.DayOfWeekRoundTrip | app/src/main/java/com/binigrmay/studentplanner/data/db/Converters.kt:26-38 | storing then reading a day gives it back |
| Converters.ToDayOfWeekExactly | app/src/main/java/com/binigrmay/studentplanner/data/db/Converters.kt:31-38 | a string reads as d if and only if it is d's name, or d is MONDAY and the name is unknown |
| Recurrence.ToCalendar | app/src/main/java/com/binigrmay/studentplanner/utils/ReminderScheduler.kt:223-231 | each day maps to its ordinal plus one, the Calendar numbering |
| Recurrence.FromCalendarInverse | app/src/main/java/com/binigrmay/studentplanner/utils/ReminderScheduler.kt:223-231 | the scheduler's map and `fromCalendar` are inverse on 1..7 |
| Recurrence.ParseStartTime | app/src/main/java/com/binigrmay/studentplanner/utils/ReminderScheduler.kt:233-235 | definition: split at ":", each field read with `toIntOrNull`, falling back to 9 and 0; its properties are in `ParseFormattedStartTime`, `NineOClock`, `ParseStartTimeFallbacks` |
| Recurrence.ParseFormattedStartTime | app/src/main/java/com/binigrmay/studentplanner/utils/ReminderScheduler.kt:234-236 | an "HH:mm" string written by the time picker parses back to its hour and minute |
| Recurrence.NineOClock | app/src/main/java/com/binigrmay/studentplanner/utils/ReminderScheduler.kt:234-236 | "09:00" reads as 9:00 |
| Recurrence.ParseStartTimeFallbacks | app/src/main/java/com/binigrmay/studentplanner/utils/ReminderScheduler.kt:234-236 | an unreadable hour falls back to 9, a missing or unreadable minute to 0 |
| Recurrence.ReminderOffset | app/src/main/java/com/binigrmay/studentplanner/utils/ReminderScheduler.kt:259-266 | definition: the hour and minute set on the day, less the lead in minutes; its properties are in `InstantAfterDaysShape`, `NextReminderTime` |
| Recurrence.InstantAfterDays | app/src/main/java/com/binigrmay/studentplanner/utils/ReminderScheduler.kt:258-268 | definition: the midnight `days` days after today plus the offset; its properties are in `InstantAfterDaysShape` |
| Recurrence.InstantAfterDaysShape | app/src/main/java/com/binigrmay/studentplanner/utils/ReminderScheduler.kt:260-269 | every computed reminder instant is a whole minute, a whole number of days after a midnight plus the offset |
| Recurrence.FirstArmDays | app/src/main/java/com/binigrmay/studentplanner/utils/ReminderScheduler.kt:223-258 | 0..7 days ahead to the target weekday; 0 exactly when today is that day and today's candidate is still ahead, 7 exactly when it is not |
| Recurrence.NextReminderTime | app/src/main/java/com/binigrmay/studentplanner/utils/ReminderScheduler.kt:215-270 | the instant is a whole minute and is the offset after a midnight of the lecture's weekday, between today's midnight and a week later |
| Recurrence.NextReminderTimeSameDay | app/src/main/java/com/binigrmay/studentplanner/utils/ReminderScheduler.kt:239-258 | on the lecture's weekday: today's candidate if it is after now, otherwise the same instant a week later |
| Recurrence.NextReminderTimeOtherDay | app/src/main/java/com/binigrmay/studentplanner/utils/ReminderScheduler.kt:223-231 | on another weekday: the coming occurrence of the lecture's weekday, 1 to 6 days ahead |
| Recurrence.NextReminderTimeAhead | app/src/main/java/com/binigrmay/studentplanner/utils/ReminderScheduler.kt:215-270 | if the reminder falls on the lecture's own day, the instant is after now and at most a week away |
| Recurrence.NextReminderTimeCanBePast | app/src/main/java/com/binigrmay/studentplanner/utils/ReminderScheduler.kt:239-269 | with a two-day lead the computed instant can lie before now |
| Recurrence.RearmDays | app/src/main/java/com/binigrmay/studentplanner/worker/RecurringLectureReminderWorker.kt:137-155 | 1..7 days ahead to the target weekday; 7 exactly when today is that day |
| Recurrence.RearmTime | app/src/main/java/com/binigrmay/studentplanner/worker/RecurringLectureReminderWorker.kt:137-179 | a whole minute, the offset after a midnight of the lecture's weekday, between tomorrow's midnight and a week after today's |
| Recurrence.RearmTimeVersusNextReminderTime | app/src/main/java/com/binigrmay/studentplanner/worker/RecurringLectureReminderWorker.kt:137-179 | the worker's copy equals the scheduler's, except on the lecture's weekday while today's candidate is ahead, where it is a week later |
| Recurrence.OccurrenceReminderNextWeek | app/src/main/java/com/binigrmay/studentplanner/worker/RecurringLectureReminderWorker.kt:86-132 | a reminder for an occurrence of the lecture is followed one week on by another |
| Recurrence.OccurrenceReminderWeeksLater | app/src/main/java/com/binigrmay/studentplanner/worker/RecurringLectureReminderWorker.kt:86-132 | the same holds any whole number of weeks on |
| Recurrence.RearmOneWeekLater | app/src/main/java/com/binigrmay/studentplanner/worker/RecurringLectureReminderWorker.kt:137-179 | a worker running on its reminder's day re-arms exactly one week after the reminder, when the reminder falls on the lecture's day |
| Recurrence.RearmRepeatsFireInstant | app/src/main/java/com/binigrmay/studentplanner/worker/RecurringLectureReminderWorker.kt:161-167 | when the reminder falls 1 to 6 days before the lecture's day, the re-arm instant is the fire instant itself (as written) |
| Recurrence.OneDayLeadRearmsAtSameInstant | app/src/main/java/com/binigrmay/studentplanner/worker/RecurringLectureReminderWorker.kt:161-167 | Wednesday 09:00 lecture with the "1 day before" lead, fired on time: re-arm instant equals the fire instant (as written) |
| Recurrence.DaysUntilWeekday | app/src/main/java/com/binigrmay/studentplanner/worker/RecurringLectureReminderWorker.kt:161-167 | 0..6 days to reach the target weekday |
| Recurrence.NextOccurrenceAfter | app/src/main/java/com/binigrmay/studentplanner/worker/RecurringLectureReminderWorker.kt:137-179 | the first instant after now, at most a week ahead, that is the offset after a midnight of the target weekday |
| Recurrence.NextOccurrenceAfterOccurrence | app/src/main/java/com/binigrmay/studentplanner/worker/RecurringLectureReminderWorker.kt:137-179 | from an instant of that form, the next one is exactly a week later |
| Recurrence.IntendedRearmTime | app/src/main/java/com/binigrmay/studentplanner/worker/RecurringLectureReminderWorker.kt:137-179 | the corrected re-arm instant: after now, within a week, a reminder for an occurrence of the lecture |
| Recurrence.IntendedRearmOneWeekLater | app/src/main/java/com/binigrmay/studentplanner/worker/RecurringLectureReminderWorker.kt:137-179 | with the corrected rule every on-time firing re-arms a week later, whatever the lead |
| Work.WorkManager.constructor | app/src/main/java/com/binigrmay/studentplanner/utils/ReminderScheduler.kt:70-75 | nothing is pending at first |
| Work.WorkManager.EnqueueUniqueWork | app/src/main/java/com/binigrmay/studentplanner/utils/ReminderScheduler.kt:70-75 | REPLACE: the name now holds the new request, every other name is unchanged |
| Work.WorkManager.CancelUniqueWork | app/src/main/java/com/binigrmay/studentplanner/utils/ReminderScheduler.kt:275-278 | the name holds nothing afterwards, every other name is unchanged |
| Work.NotificationIdsCollide | app/src/main/java/com/binigrmay/studentplanner/utils/NotificationHelper.kt:159 | a task and a lecture notification share an id exactly when the task id is the lecture id plus 10000 |
| Work.NotificationSink.constructor | app/src/main/java/com/binigrmay/studentplanner/utils/NotificationHelper.kt:114 | nothing has been posted at first |
| Work.NotificationSink.Notify | app/src/main/java/com/binigrmay/studentplanner/utils/NotificationHelper.kt:114 | the notification is appended to those posted |
| Workers.WorkName | app/src/main/java/com/binigrmay/studentplanner/utils/ReminderScheduler.kt:72 | definition: the worker's prefix followed by the decimal id; its properties are in `WorkNameInjective`, `Text.IntToStringLiteral` |
| Workers.WorkNameInjective | app/src/main/java/com/binigrmay/studentplanner/worker/RecurringLectureReminderWorker.kt:35 | two unique work names are equal exactly when worker kind and id are |
| Workers.DecodeRecurring | app/src/main/java/com/binigrmay/studentplanner/worker/RecurringLectureReminderWorker.kt:43-48 | definition: the six input fields with their defaults; its properties are in `DecodeRecurringInput`, `DecodeRecurringDefaults` |
| Workers.DecodeRecurringInput | app/src/main/java/com/binigrmay/studentplanner/worker/RecurringLectureReminderWorker.kt:43-48 | the worker reads back exactly the data the scheduler and scheduleNextWeek write |
| Workers.DecodeRecurringDefaults | app/src/main/java/com/binigrmay/studentplanner/worker/RecurringLectureReminderWorker.kt:43-48 | missing fields read as id -1, "Lecture Reminder", empty strings and a 15-minute lead |
| Workers.NextWeek | app/src/main/java/com/binigrmay/studentplanner/worker/RecurringLectureReminderWorker.kt:86-132 | definition: re-enqueue the same data under the same name at the re-arm instant, unless its delay is not positive; its properties are in `RecurringRearmsSameData`, `ChainRenewsWeekly`, `ChainEndsWhenReminderPrecedesLectureDay` |
| Workers.RecurringWork | app/src/main/java/com/binigrmay/studentplanner/worker/RecurringLectureReminderWorker.kt:41-84 | definition: decode, notify unless the id is -1, parse the day, re-arm; its properties are in `RecurringMissingId`, `RecurringNotifiesFirst`, `RecurringRearmsSameData` |
| Workers.RecurringMissingId | app/src/main/java/com/binigrmay/studentplanner/worker/RecurringLectureReminderWorker.kt:56 | with the missing-id default nothing is posted or re-armed, and the result is success |
| Workers.RecurringNotifiesFirst | app/src/main/java/com/binigrmay/studentplanner/worker/RecurringLectureReminderWorker.kt:58-73 | a real id is always notified; an unknown day string then fails without re-arming |
| Workers.RecurringRearmsSameData | app/src/main/java/com/binigrmay/studentplanner/worker/RecurringLectureReminderWorker.kt:75-129 | on the scheduler's data the worker succeeds: it re-enqueues the same data at the re-arm instant under the same name, or nothing if that instant is not after now |
| Workers.TaskWork | app/src/main/java/com/binigrmay/studentplanner/worker/TaskReminderWorker.kt:26-57 | definition: notify with the task's fields unless the id is -1, then succeed; its properties are in `OneShotFireRemovesEntry`, `ReminderScheduler.ScheduledTaskFires` |
| Workers.LectureWork | app/src/main/java/com/binigrmay/studentplanner/worker/LectureReminderWorker.kt:20-41 | definition: notify with the lecture's fields unless the id is -1, then succeed; its properties are in `OneShotFireRemovesEntry`, `ReminderScheduler.ScheduledOneTimeLectureFires` |
| Workers.Fire | app/src/main/java/com/binigrmay/studentplanner/worker/RecurringLectureReminderWorker.kt:41-84 | definition: the entry leaves the queue and the worker of its kind runs on its data; its properties are in `OneShotFireRemovesEntry`, `ChainRenewsWeekly`, `ReminderScheduler.ScheduledTaskFires` |
| Workers.OneShotFireRemovesEntry | app/src/main/java/com/binigrmay/studentplanner/worker/TaskReminderWorker.kt:26-57 | a one-shot firing removes its entry, adds nothing and succeeds |
| Workers.ChainRenewsWeekly | app/src/main/java/com/binigrmay/studentplanner/worker/RecurringLectureReminderWorker.kt:41-132 | when the reminder falls on the lecture's day, an on-time firing leaves the queue with the same entry one week later |
| Workers.ChainEntryWeeksOn | app/src/main/java/com/binigrmay/studentplanner/worker/RecurringLectureReminderWorker.kt:86-132 | the entry moved any number of weeks on is again a chain entry, so the renewal applies again |
| Workers.ChainEndsWhenReminderPrecedesLectureDay | app/src/main/java/com/binigrmay/studentplanner/worker/RecurringLectureReminderWorker.kt:96-107 | when the reminder falls 1 to 6 days before the lecture's day, an on-time firing notifies and leaves nothing pending under the name (as written) |
| Workers.IntendedChainRenewsWeekly | app/src/main/java/com/binigrmay/studentplanner/worker/RecurringLectureReminderWorker.kt:86-132 | with the corrected rule an on-time firing of any chain re-arms it a week later, and the result is again a chain entry |
| Workers.TaskReminderDoWork | app/src/main/java/com/binigrmay/studentplanner/worker/TaskReminderWorker.kt:26-57 | posts the task notification unless the id is missing; always succeeds |
| Workers.LectureReminderDoWork | app/src/main/java/com/binigrmay/studentplanner/worker/LectureReminderWorker.kt:20-41 | posts the lecture notification unless the id is missing; always succeeds |
| Workers.ScheduleNextWeek | app/src/main/java/com/binigrmay/studentplanner/worker/RecurringLectureReminderWorker.kt:86-132 | the queue becomes that of the pure re-arm step: same name, same data, the re-arm instant, skipped unless the delay is positive |
| Workers.RecurringDoWork | app/src/main/java/com/binigrmay/studentplanner/worker/RecurringLectureReminderWorker.kt:41-84 | queue, posted notifications and result are those of the pure worker step |
| Workers.RunWork | app/src/main/java/com/binigrmay/studentplanner/worker/RecurringLectureReminderWorker.kt:41-84 | queue, notifications and result follow the pure firing step: the entry leaves the queue, then its worker runs |
| ReminderScheduler.ScheduledTask | app/src/main/java/com/binigrmay/studentplanner/utils/ReminderScheduler.kt:39-75 | definition: the queue after scheduleTaskReminder; its properties are in `ScheduledTaskEffect`, `RescheduleTaskReplaces`, `SkippedRescheduleKeepsOlder`, `ScheduledTaskFires` |
| ReminderScheduler.ScheduledTaskEffect | app/src/main/java/com/binigrmay/studentplanner/utils/ReminderScheduler.kt:32-81 | a task reminder is enqueued if and only if it is enabled, has a lead and is due after now; it is due `reminderTime` minutes before the due date and carries id, title and description; no other entry changes |
| ReminderScheduler.ScheduledOneTimeLecture | app/src/main/java/com/binigrmay/studentplanner/utils/ReminderScheduler.kt:168-185 | definition: the queue after scheduleOneTimeLectureReminder; its properties are in `ScheduledOneTimeLectureEffect` |
| ReminderScheduler.ScheduledOneTimeLectureEffect | app/src/main/java/com/binigrmay/studentplanner/utils/ReminderScheduler.kt:165-210 | a one-time lecture reminder is enqueued if and only if it has a date and is due after now; it is due `reminderMinutesBefore` minutes before the date and carries id, title, time and room; no other entry changes |
| ReminderScheduler.ScheduledRecurringLecture | app/src/main/java/com/binigrmay/studentplanner/utils/ReminderScheduler.kt:118-133 | definition: the queue after scheduleRecurringLectureReminder; its properties are in `ScheduledRecurringStartsChain`, `ScheduledRecurringWhenSameDayReminder`, `RecurringWithLongLeadCanScheduleNothing` |
| ReminderScheduler.ScheduledLecture | app/src/main/java/com/binigrmay/studentplanner/utils/ReminderScheduler.kt:96-107 | definition: nothing when disabled, otherwise the recurring or the one-time step; its properties are in `ScheduledOneTimeLectureFires` and the two steps' lemmas |
| ReminderScheduler.ScheduledRecurringStartsChain | app/src/main/java/com/binigrmay/studentplanner/utils/ReminderScheduler.kt:115-160 | a recurring lecture is enqueued if and only if the computed next reminder instant is after now, at exactly that instant with the six fields the worker reads; the entry then starts a chain (an occurrence reminder with the worker's descriptor); no other entry changes |
| ReminderScheduler.ScheduledRecurringWhenSameDayReminder | app/src/main/java/com/binigrmay/studentplanner/utils/ReminderScheduler.kt:115-160 | when the reminder falls on the lecture's day something is always enqueued, at most a week ahead |
| ReminderScheduler.RecurringWithLongLeadCanScheduleNothing | app/src/main/java/com/binigrmay/studentplanner/utils/ReminderScheduler.kt:118-133 | an enabled Friday 09:00 lecture with a two-day lead, scheduled on Thursday at noon, enqueues nothing |
| ReminderScheduler.RescheduleTaskReplaces | app/src/main/java/com/binigrmay/studentplanner/utils/ReminderScheduler.kt:70-75 | REPLACE: rescheduling leaves only the newer request |
| ReminderScheduler.SkippedRescheduleKeepsOlder | app/src/main/java/com/binigrmay/studentplanner/utils/ReminderScheduler.kt:39-46 | returning early leaves the older request pending |
| ReminderScheduler.CancelledLecture | app/src/main/java/com/binigrmay/studentplanner/utils/ReminderScheduler.kt:283-289 | definition: both lecture names removed; its properties are in `CancelledLectureEffect` |
| ReminderScheduler.CancelledLectureEffect | app/src/main/java/com/binigrmay/studentplanner/utils/ReminderScheduler.kt:283-289 | both lecture kinds for the id are gone, every other entry is kept, nothing is added, and cancelling twice is cancelling once |
| ReminderScheduler.CancelledTask | app/src/main/java/com/binigrmay/studentplanner/utils/ReminderScheduler.kt:275-278 | definition: the task name removed; its properties are in `CancelledTaskEffect` |
| ReminderScheduler.CancelledTaskEffect | app/src/main/java/com/binigrmay/studentplanner/utils/ReminderScheduler.kt:275-278 | the task's entry is gone; no lecture entry and no other task's entry changes |
| ReminderScheduler.ScheduledTaskFires | app/src/main/java/com/binigrmay/studentplanner/worker/TaskReminderWorker.kt:26-57 | a scheduled task reminder, when fired, posts that task's notification and leaves nothing pending for it |
| ReminderScheduler.ScheduledOneTimeLectureFires | app/src/main/java/com/binigrmay/studentplanner/worker/LectureReminderWorker.kt:20-41 | a scheduled one-time lecture reminder, when fired, posts that lecture's notification and leaves nothing pending under its name |
| ReminderScheduler.ScheduleTaskReminder | app/src/main/java/com/binigrmay/studentplanner/utils/ReminderScheduler.kt:32-81 | the queue becomes the pure scheduling function of the old queue |
| ReminderScheduler.ScheduleLectureReminder | app/src/main/java/com/binigrmay/studentplanner/utils/ReminderScheduler.kt:86-110 | the queue becomes the pure scheduling function: nothing if disabled, otherwise the recurring or the one-time branch |
| ReminderScheduler.ScheduleRecurringLectureReminder | app/src/main/java/com/binigrmay/studentplanner/utils/ReminderScheduler.kt:115-160 | the queue becomes the pure recurring scheduling function |
| ReminderScheduler.ScheduleOneTimeLectureReminder | app/src/main/java/com/binigrmay/studentplanner/utils/ReminderScheduler.kt:165-210 | the queue becomes the pure one-time scheduling function |
| ReminderScheduler.CancelTaskReminder | app/src/main/java/com/binigrmay/studentplanner/utils/ReminderScheduler.kt:275-278 | the queue loses the task's name only |
| ReminderScheduler.CancelLectureReminder | app/src/main/java/com/binigrmay/studentplanner/utils/ReminderScheduler.kt:283-289 | the queue loses the lecture's two names only |
| LectureViewModels.StartsNoLaterTotal | app/src/main/java/com/binigrmay/studentplanner/data/db/LectureDao.kt:30-35 | ordering by start time is total |
| LectureViewModels.LecturesForDay | app/src/main/java/com/binigrmay/studentplanner/data/db/LectureDao.kt:30-35 | definition: the recurring rows of that weekday, ordered by start time; its properties are in `LecturesForDaySorted`, `LecturesForDayMembers` |
| LectureViewModels.LecturesForDaySorted | app/src/main/java/com/binigrmay/studentplanner/data/db/LectureDao.kt:30-35 | the day's list is sorted by start time |
| LectureViewModels.LecturesForDayMembers | app/src/main/java/com/binigrmay/studentplanner/data/db/LectureDao.kt:30-35 | it holds exactly the recurring lectures held on that weekday |
| LectureViewModels.OneTimeLecturesForDate | app/src/main/java/com/binigrmay/studentplanner/data/db/LectureDao.kt:37-44 | definition: the one-time rows dated in the window, ordered by start time; its properties are in `OneTimeLecturesForDateSorted`, `OneTimeLecturesForDateMembers` |
| LectureViewModels.OneTimeLecturesForDateSorted | app/src/main/java/com/binigrmay/studentplanner/data/db/LectureDao.kt:37-44 | the dated list is sorted by start time |
| LectureViewModels.OneTimeLecturesForDateMembers | app/src/main/java/com/binigrmay/studentplanner/data/db/LectureDao.kt:37-44 | it holds exactly the one-time lectures dated in the window |
| LectureViewModels.TodaysLectures | app/src/main/java/com/binigrmay/studentplanner/viewmodel/LectureViewModel.kt:60-88 | definition: the two queries for today concatenated and sorted by start time; its properties are in `TodaysLecturesSorted`, `TodaysLecturesPermutation`, `TodaysLecturesUnion`, `TodaysLecturesMembers` |
| LectureViewModels.TodaysLecturesSorted | app/src/main/java/com/binigrmay/studentplanner/viewmodel/LectureViewModel.kt:71 | today's list is sorted by start time |
| LectureViewModels.TodaysLecturesPermutation | app/src/main/java/com/binigrmay/studentplanner/viewmodel/LectureViewModel.kt:66-71 | today's list is a permutation of the two queries' results together |
| LectureViewModels.TodaysLecturesUnion | app/src/main/java/com/binigrmay/studentplanner/viewmodel/LectureViewModel.kt:66-71 | today's list holds exactly the rows of the two queries |
| LectureViewModels.TodaysLecturesMembers | app/src/main/java/com/binigrmay/studentplanner/viewmodel/LectureViewModel.kt:60-88 | a lecture is listed today exactly when it recurs on today's weekday or is a one-time lecture dated today |
| LectureViewModels.OnLectureInserted | app/src/main/java/com/binigrmay/studentplanner/viewmodel/LectureViewModel.kt:99-112 | definition: schedule the copy with the row id when enabled and stored; its properties are in `InsertWithoutReminderLeavesQueue`, `InsertRecurringArmsUnderRowId` |
| LectureViewModels.InsertWithoutReminderLeavesQueue | app/src/main/java/com/binigrmay/studentplanner/viewmodel/LectureViewModel.kt:99-112 | an insert without a reminder, or one not stored, leaves the queue alone |
| LectureViewModels.InsertRecurringArmsUnderRowId | app/src/main/java/com/binigrmay/studentplanner/viewmodel/LectureViewModel.kt:99-112 | an inserted recurring lecture whose reminder falls on its day starts a chain under its new row id, at most a week ahead |
| LectureViewModels.OnLectureUpdated | app/src/main/java/com/binigrmay/studentplanner/viewmodel/LectureViewModel.kt:114-128 | definition: reschedule when enabled, otherwise cancel both kinds; its properties are in `DeleteOrDisableClearsReminders`, `UpdateToOneTimeKeepsRecurringEntry`, `SkippedRescheduleKeepsOldEntry` |
| LectureViewModels.OnLectureDeleted | app/src/main/java/com/binigrmay/studentplanner/viewmodel/LectureViewModel.kt:130-139 | definition: cancel both kinds; its properties are in `DeleteOrDisableClearsReminders` |
| LectureViewModels.DeleteOrDisableClearsReminders | app/src/main/java/com/binigrmay/studentplanner/viewmodel/LectureViewModel.kt:114-139 | after a delete, or an update with the reminder off, neither kind of reminder is pending for the lecture |
| LectureViewModels.UpdateToOneTimeKeepsRecurringEntry | app/src/main/java/com/binigrmay/studentplanner/viewmodel/LectureViewModel.kt:114-128 | a lecture switched from recurring to one-time keeps its old weekly chain pending, untouched |
| LectureViewModels.SkippedRescheduleKeepsOldEntry | app/src/main/java/com/binigrmay/studentplanner/viewmodel/LectureViewModel.kt:114-128 | an update whose reminder instant has passed leaves the whole queue as it was, old reminder included |
| LectureViewModels.StoredRow | app/src/main/java/com/binigrmay/studentplanner/viewmodel/LectureViewModel.kt:99-112 | the stored row takes the generated id when new (id 0), keeps its own id otherwise, and is otherwise the given lecture |
| LectureViewModels.ArmInserted | app/src/main/java/com/binigrmay/studentplanner/viewmodel/LectureViewModel.kt:103-110 | the queue becomes the pure insert dispatch: schedule the copy with the row id if enabled and stored |
| LectureViewModels.LectureViewModel.constructor | app/src/main/java/com/binigrmay/studentplanner/viewmodel/LectureViewModel.kt:56-58 | the observed lists are the answers for the initial table at the starting clock reading |
| LectureViewModels.LectureViewModel.Refresh | app/src/main/java/com/binigrmay/studentplanner/viewmodel/LectureViewModel.kt:60-97 | after a table change the observed lists are the current answers, and nothing else changes |
| LectureViewModels.LectureViewModel.LoadLecturesForDay | app/src/main/java/com/binigrmay/studentplanner/viewmodel/LectureViewModel.kt:90-97 | the selected day's list follows the chosen day |
| LectureViewModels.LectureViewModel.InsertLecture | app/src/main/java/com/binigrmay/studentplanner/viewmodel/LectureViewModel.kt:99-112 | replacing insert of the stored row; the lists stay current; the queue follows the insert dispatch |
| LectureViewModels.LectureViewModel.UpdateLecture | app/src/main/java/com/binigrmay/studentplanner/viewmodel/LectureViewModel.kt:114-128 | update of the row; the lists stay current; reschedule if enabled, otherwise cancel both kinds |
| LectureViewModels.LectureViewModel.DeleteLecture | app/src/main/java/com/binigrmay/studentplanner/viewmodel/LectureViewModel.kt:130-139 | the row is deleted; the lists stay current; both kinds of reminder are cancelled |
| TaskViewModels.TasksDueBetween | app/src/main/java/com/binigrmay/studentplanner/data/db/TaskDao.kt:25-39 | definition: the rows due in [start, end), ordered by due date; its properties are in `TasksDueBetweenSorted`, `TasksDueBetweenMembers` |
| TaskViewModels.TasksDueBetweenSorted | app/src/main/java/com/binigrmay/studentplanner/data/db/TaskDao.kt:25-39 | the window query is sorted by due date |
| TaskViewModels.TasksDueBetweenMembers | app/src/main/java/com/binigrmay/studentplanner/data/db/TaskDao.kt:25-39 | it holds exactly the tasks due in [start, end) |
| TaskViewModels.TodaysTasks | app/src/main/java/com/binigrmay/studentplanner/viewmodel/TaskViewModel.kt:73-90 | definition: the window query from today's midnight to the next; its properties are in `TodaysTasksMembers`, `TodaysTasksAreThisWeeks` |
| TaskViewModels.TodaysTasksMembers | app/src/main/java/com/binigrmay/studentplanner/viewmodel/TaskViewModel.kt:73-90 | today's tasks are exactly those due on today's calendar day |
| TaskViewModels.TodayWithinThisWeek | app/src/main/java/com/binigrmay/studentplanner/viewmodel/TaskViewModel.kt:92-110 | the week window starts on the first weekday and contains all of today |
| TaskViewModels.ThisWeekTasks | app/src/main/java/com/binigrmay/studentplanner/viewmodel/TaskViewModel.kt:92-110 | definition: the window query over the week from its first midnight; its properties are in `ThisWeekTasksMembers`, `TodaysTasksAreThisWeeks` |
| TaskViewModels.ThisWeekTasksMembers | app/src/main/java/com/binigrmay/studentplanner/viewmodel/TaskViewModel.kt:92-110 | this week's tasks are exactly those due in the seven days from the week's first midnight |
| TaskViewModels.DueTodayIsDueThisWeek | app/src/main/java/com/binigrmay/studentplanner/viewmodel/TaskViewModel.kt:73-110 | a task listed today is due within this week's window |
| TaskViewModels.TodaysTasksAreThisWeeks | app/src/main/java/com/binigrmay/studentplanner/viewmodel/TaskViewModel.kt:73-110 | every task listed today is listed this week too |
| TaskViewModels.SetCompleted | app/src/main/java/com/binigrmay/studentplanner/data/db/TaskDao.kt:73-74 | the completion update keeps the number of rows; its other properties are in `SetCompletedAt` |
| TaskViewModels.SetCompletedAt | app/src/main/java/com/binigrmay/studentplanner/data/db/TaskDao.kt:73-74 | the completion update changes only the flag of the row with that id |
| TaskViewModels.WithoutCompleted | app/src/main/java/com/binigrmay/studentplanner/data/db/TaskDao.kt:70-71 | definition: the rows not completed; its properties are in `WithoutCompletedMembers` |
| TaskViewModels.WithoutCompletedMembers | app/src/main/java/com/binigrmay/studentplanner/data/db/TaskDao.kt:70-71 | exactly the unfinished tasks remain |
| TaskViewModels.StoredTask | app/src/main/java/com/binigrmay/studentplanner/viewmodel/TaskViewModel.kt:112-125 | the stored row takes the generated id when new (id 0), keeps its own id otherwise, and is otherwise the given task |
| TaskViewModels.OnTaskInserted | app/src/main/java/com/binigrmay/studentplanner/viewmodel/TaskViewModel.kt:112-125 | definition: schedule the copy with the row id when enabled and stored; its properties are in `InsertTaskArmsUnderRowId` |
| TaskViewModels.InsertTaskArmsUnderRowId | app/src/main/java/com/binigrmay/studentplanner/viewmodel/TaskViewModel.kt:112-125 | an inserted task with a future reminder is armed under its new row id, `reminderTime` minutes before the due date; without a reminder or a stored row the queue is untouched |
| TaskViewModels.OnTaskUpdated | app/src/main/java/com/binigrmay/studentplanner/viewmodel/TaskViewModel.kt:127-141 | definition: reschedule when enabled, otherwise cancel; its properties are in `DeleteOrDisableClearsTaskReminder`, `PastRescheduleKeepsStaleReminder` |
| TaskViewModels.OnTaskDeleted | app/src/main/java/com/binigrmay/studentplanner/viewmodel/TaskViewModel.kt:143-152 | definition: cancel the task's reminder; its properties are in `DeleteOrDisableClearsTaskReminder` |
| TaskViewModels.DeleteOrDisableClearsTaskReminder | app/src/main/java/com/binigrmay/studentplanner/viewmodel/TaskViewModel.kt:127-152 | after a delete, or an update with the reminder off, no reminder is pending for the task |
| TaskViewModels.PastRescheduleKeepsStaleReminder | app/src/main/java/com/binigrmay/studentplanner/viewmodel/TaskViewModel.kt:127-141 | an update whose reminder has passed or has no lead keeps the reminder armed for the old due date |
| TaskViewModels.TaskViewModel.constructor | app/src/main/java/com/binigrmay/studentplanner/viewmodel/TaskViewModel.kt:68-71 | both lists are the answers for the initial table at the starting clock reading |
| TaskViewModels.TaskViewModel.Refresh | app/src/main/java/com/binigrmay/studentplanner/viewmodel/TaskViewModel.kt:73-110 | after a table change both lists are the current answers, and nothing else changes |
| TaskViewModels.TaskViewModel.InsertTask | app/src/main/java/com/binigrmay/studentplanner/viewmodel/TaskViewModel.kt:112-125 | replacing insert of the stored row; lists current; the queue follows the insert dispatch |
| TaskViewModels.TaskViewModel.UpdateTask | app/src/main/java/com/binigrmay/studentplanner/viewmodel/TaskViewModel.kt:127-141 | update of the row; lists current; reschedule if enabled, otherwise cancel |
| TaskViewModels.TaskViewModel.DeleteTask | app/src/main/java/com/binigrmay/studentplanner/viewmodel/TaskViewModel.kt:143-152 | the row is deleted; lists current; the reminder is cancelled |
| TaskViewModels.TaskViewModel.ToggleTaskCompletion | app/src/main/java/com/binigrmay/studentplanner/viewmodel/TaskViewModel.kt:154-158 | only the completion flag changes; lists current; the pending reminder stays |
| TaskViewModels.TaskViewModel.DeleteCompletedTasks | app/src/main/java/com/binigrmay/studentplanner/viewmodel/TaskViewModel.kt:160-164 | the completed rows are deleted; lists current; their reminders stay pending |

## Left out

- Compose UI, navigation and theme: presentation only. The `%02d` time format is used only as the input to `Recurrence.ParseFormattedStartTime`.
- NotificationHelper's channels, permission checks, intents and styling: a notification is modelled by its content and its id.
- WorkManager's durability, threads, tags, constraints and the running of requests at their instant: the queue is a map, and `Workers.RunWork` is the runtime picking one entry.
- Exceptions from the WorkManager calls, and `Result.failure()` from the catch blocks of the workers: only the `valueOf` failure path of the recurring worker is modelled.
- Android logging: it has no effect on state.
- Coroutines, `viewModelScope` and `StateFlow`:
  - each write runs to completion in order;
  - a query's re-emission is `Refresh`;
  - only the most recent `loadLecturesForDay` collector is kept;
  - `loadTodaysLectures` is private and runs once, from `init`, which is the constructor: today's list stays on the constructor's date, and no second collector is modelled.
- Time zones and daylight saving: the clock is local milliseconds with a fixed offset.
- The locale's `firstDayOfWeek` is a parameter of the task view model.
- The several clock reads inside one operation are one reading `now`.
- `formatDate` and `formatTime` (SimpleDateFormat): a label beyond Today, Tomorrow, Yesterday and "In 2 days" is `FormattedDate(t)`.
- Kotlin's 32-bit wrap-around of the ids, and the `Long.toInt()` of the inserted row id: ids are unbounded integers (the work name is printed from the full value).
- ReminderScheduler.OneTimeReminderInstant and Recurrence.ReminderOffset: the lead is an unbounded integer, while in the source it is an `Int`. `app/src/main/java/com/binigrmay/studentplanner/utils/ReminderScheduler.kt:174` computes `reminderMinutesBefore * 60` in `Int` before widening it, which wraps for a lead above 35,791,394 minutes; the recurring paths pass `-reminderMinutesBefore` to `Calendar.add(MINUTE, …)` as an `Int` (`app/src/main/java/com/binigrmay/studentplanner/utils/ReminderScheduler.kt:249`, `:267`, `app/src/main/java/com/binigrmay/studentplanner/worker/RecurringLectureReminderWorker.kt:176`). The largest lead the app offers is 2880 minutes (`app/src/main/java/com/binigrmay/studentplanner/ui/screens/lectures/AddLectureScreen.kt:299-300`).
- Unicode digits accepted by `toIntOrNull`: only ASCII digits are modelled.
- Queries and writes not used by the core (search, by priority or category, the whole-table lists, `insertTasks`, `deleteTaskById`, `deleteAllLectures`), the repositories (pure delegation), dependency injection, the `Application` class and `SettingsViewModel`: outside the reminder and query core.
- Ties under `ORDER BY`: SQLite leaves the order of rows with equal keys unspecified; the model fixes one (the insertion sort of the table order), and its lemmas speak of sortedness, permutation and membership only; `Sequences.SortBy`'s stability is not proved.
- String order of start times is compared character by character as Dafny characters; for the ASCII "HH:mm" strings the app stores this is Kotlin's and SQLite's order.
- Workers.ChainRenewsWeekly: states one firing as a step, with `Workers.ChainEntryWeeksOn` as the invariant; a quantified "fires every week for ever" over many steps is not stated as one lemma, because it is the repetition of these two.
- Workers.RunWork: the runtime's choice of which entry fires at which instant is a parameter; timing and ordering between entries are not modelled.

## Findings

| source | as written | input that shows it | evidently intended | confidence | as-written member | corrected member |
|---|---|---|---|---|---|---|
| app/src/main/java/com/binigrmay/studentplanner/worker/RecurringLectureReminderWorker.kt:161-167 | the re-arm steps 1 to 7 days from the fire instant's day to the lecture's weekday, then subtracts the lead; with a lead that moves the reminder to an earlier day (the "1 day before" and "2 days before" options), the new instant is the fire instant itself, the delay is not positive and the weekly chain ends after its first reminder | Wednesday 09:00 weekly lecture, lead 1440 minutes, worker running on time at Tuesday 6 January 1970 09:00 (5 days + 9 hours) | the next reminder of the same weekly series, one week after the one that fired | not executed | Recurrence.OneDayLeadRearmsAtSameInstant | Workers.IntendedChainRenewsWeekly |
| app/src/main/java/com/binigrmay/studentplanner/utils/DateTimeUtils.kt:83-87 | `today until endOfToday` excludes endOfToday itself, 23:59:59.999, so the day's last millisecond is not today and `getRelativeTimeString` labels it "Tomorrow" | a timestamp equal to `getEndOfDay(now)` | every instant of today's calendar day is today | not executed | DateTimeUtils.LastMillisecondOfToday | DateTimeUtils.IsTodayIntendedMeaning |

The worker model (`Workers.NextWeek`, `Workers.ScheduleNextWeek`) keeps the rule as the code writes it; `Workers.IntendedNextWeek` is the corrected step, and `Recurrence.IntendedRearmTime` the corrected instant it uses.
