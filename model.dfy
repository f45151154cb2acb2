/** The planner's records: Lecture and DayOfWeek (Lecture.kt), Task and Priority (Task.kt). */
module Model {
  import opened Wrappers

  /** Declared SUNDAY first, matching Calendar's 1 = Sunday numbering. */
  datatype DayOfWeek = Sunday | Monday | Tuesday | Wednesday | Thursday | Friday | Saturday

  /** The enum's `ordinal`. */
  function Ordinal(d: DayOfWeek): (r: nat)
    ensures r < 7
  {
    match d
    case Sunday => 0
    case Monday => 1
    case Tuesday => 2
    case Wednesday => 3
    case Thursday => 4
    case Friday => 5
    case Saturday => 6
  }

  /** Ordinals run Sunday .. Saturday without gaps, so each day has its own ordinal. */
  lemma OrdinalOrder(d: DayOfWeek, e: DayOfWeek)
    ensures Ordinal(d) == Ordinal(e) <==> d == e
    ensures Ordinal(Sunday) == 0 && Ordinal(Saturday) == 6
  {
  }

  /** The enum constant's `name`. */
  function DayName(d: DayOfWeek): string {
    match d
    case Sunday => "SUNDAY"
    case Monday => "MONDAY"
    case Tuesday => "TUESDAY"
    case Wednesday => "WEDNESDAY"
    case Thursday => "THURSDAY"
    case Friday => "FRIDAY"
    case Saturday => "SATURDAY"
  }

  /** `DayOfWeek.valueOf(s)`: the constant whose name is exactly s; None where valueOf throws. */
  function DayValueOf(s: string): (r: Option<DayOfWeek>)
    ensures r.Some? ==> DayName(r.value) == s
    ensures r.None? ==> forall d :: DayName(d) != s
  {
    if s == "SUNDAY" then Some(Sunday)
    else if s == "MONDAY" then Some(Monday)
    else if s == "TUESDAY" then Some(Tuesday)
    else if s == "WEDNESDAY" then Some(Wednesday)
    else if s == "THURSDAY" then Some(Thursday)
    else if s == "FRIDAY" then Some(Friday)
    else if s == "SATURDAY" then Some(Saturday)
    else None
  }

  lemma DayValueOfName(d: DayOfWeek)
    ensures DayValueOf(DayName(d)) == Some(d)
  {
  }

  /** DayOfWeek.fromCalendar: 1..7 to SUNDAY..SATURDAY, anything else to MONDAY. */
  function FromCalendar(calendarDay: int): (r: DayOfWeek)
    ensures 1 <= calendarDay <= 7 ==> Ordinal(r) == calendarDay - 1
    ensures !(1 <= calendarDay <= 7) ==> r == Monday
  {
    match calendarDay
    case 1 => Sunday
    case 2 => Monday
    case 3 => Tuesday
    case 4 => Wednesday
    case 5 => Thursday
    case 6 => Friday
    case 7 => Saturday
    case _ => Monday
  }

  datatype Priority = Low | Medium | High | Urgent

  function PriorityName(p: Priority): string {
    match p
    case Low => "LOW"
    case Medium => "MEDIUM"
    case High => "HIGH"
    case Urgent => "URGENT"
  }

  /** `Priority.valueOf(s)`; None where valueOf throws. */
  function PriorityValueOf(s: string): (r: Option<Priority>)
    ensures r.Some? ==> PriorityName(r.value) == s
    ensures r.None? ==> forall p :: PriorityName(p) != s
  {
    if s == "LOW" then Some(Low)
    else if s == "MEDIUM" then Some(Medium)
    else if s == "HIGH" then Some(High)
    else if s == "URGENT" then Some(Urgent)
    else None
  }

  /** A lecture row; `specificDate` is the start instant of a one-time lecture. */
  datatype Lecture = Lecture(
    id: int,
    title: string,
    instructor: string,
    room: string,
    dayOfWeek: DayOfWeek,
    startTime: string,
    endTime: string,
    isRecurring: bool,
    specificDate: Option<int>,
    color: string,
    notes: string,
    reminderEnabled: bool,
    reminderMinutesBefore: int)

  /** `Lecture(title = .., dayOfWeek = .., startTime = .., endTime = ..)`: every other field at its default. */
  function NewLecture(title: string, dayOfWeek: DayOfWeek, startTime: string, endTime: string): (l: Lecture)
    ensures l.id == 0 && l.instructor == "" && l.room == ""
    ensures l.isRecurring && l.specificDate == None
    ensures !l.reminderEnabled && l.reminderMinutesBefore == 15
    ensures l.color == "#6200EE" && l.notes == ""
    ensures l.title == title && l.dayOfWeek == dayOfWeek && l.startTime == startTime && l.endTime == endTime
  {
    Lecture(0, title, "", "", dayOfWeek, startTime, endTime, true, None, "#6200EE", "", false, 15)
  }

  /** A task row; `reminderTime` is minutes before `dueDate`. */
  datatype Task = Task(
    id: int,
    title: string,
    description: string,
    dueDate: int,
    priority: Priority,
    isCompleted: bool,
    reminderEnabled: bool,
    reminderTime: Option<int>,
    createdAt: int,
    category: string)
}
