/**
 * The two platform collaborators the reminder code talks to, reduced to
 * their observable state: WorkManager's queue of unique work (a map from
 * unique name to the pending one-shot request) and the notification sink
 * (the notifications posted so far, in order).
 */
module Work {
  import opened Wrappers

  datatype WorkerKind = TaskReminderWorker | LectureReminderWorker | RecurringLectureReminderWorker

  /** androidx.work.Data: typed key-value input of a request. */
  datatype WorkData = WorkData(ints: map<string, int>, strings: map<string, string>)

  /** `inputData.getInt(key, default)` */
  function GetInt(d: WorkData, key: string, default: int): int {
    if key in d.ints then d.ints[key] else default
  }

  /** `inputData.getString(key)`, null when absent. */
  function GetString(d: WorkData, key: string): Option<string> {
    if key in d.strings then Some(d.strings[key]) else None
  }

  /** A one-shot request: which worker runs, at which instant (now + initial delay), with which input. */
  datatype WorkRequest = WorkRequest(worker: WorkerKind, fireAt: int, input: WorkData)

  type Pending = map<string, WorkRequest>

  class WorkManager {
    var pending: Pending

    constructor ()
      ensures pending == map[]
    {
      pending := map[];
    }

    /** enqueueUniqueWork(name, ExistingWorkPolicy.REPLACE, request) */
    method EnqueueUniqueWork(name: string, request: WorkRequest)
      modifies this
      ensures pending == old(pending)[name := request]
    {
      pending := pending[name := request];
    }

    /** cancelUniqueWork(name); a no-op for a name with nothing pending. */
    method CancelUniqueWork(name: string)
      modifies this
      ensures pending == old(pending) - {name}
    {
      pending := pending - {name};
    }
  }

  /** The notifications of NotificationHelper, by their content. */
  datatype Notification =
    | TaskNotification(taskId: int, title: string, description: string)
    | LectureNotification(lectureId: int, title: string, time: string, room: string)

  /**
   * The id a notification is posted under: the task id, or the lecture id
   * offset by 10000 "to avoid collision with task notifications".
   */
  function NotificationId(n: Notification): int {
    match n
    case TaskNotification(id, _, _) => id
    case LectureNotification(id, _, _, _) => id + 10000
  }

  /** A task and a lecture notification share an id exactly when the task id is the lecture id plus 10000. */
  lemma NotificationIdsCollide(taskId: int, lectureId: int, a: string, b: string, c: string, d: string, e: string)
    ensures NotificationId(TaskNotification(taskId, a, b)) == NotificationId(LectureNotification(lectureId, c, d, e))
      <==> taskId == lectureId + 10000
  {
  }

  class NotificationSink {
    var shown: seq<Notification>

    constructor ()
      ensures shown == []
    {
      shown := [];
    }

    method Notify(n: Notification)
      modifies this
      ensures shown == old(shown) + [n]
    {
      shown := shown + [n];
    }
  }
}
