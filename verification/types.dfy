/**
 * The records the dashboard keeps (users, tasks, attendance records), the
 * shape of the key-value store they are persisted in, and the time sources
 * the logic consults. Optional fields of the records are `Option`s.
 */
module Types {
  import opened Wrappers

  /** The three user roles; their display strings are the enum's values. */
  datatype Role = Admin | Supervisor | RegularUser

  function RoleName(r: Role): (name: string)
    ensures |name| > 0
  {
    match r
    case Admin => "مدير النظام"
    case Supervisor => "مشرف"
    case RegularUser => "مستخدم عادي"
  }

  /** Distinct roles have distinct display strings. */
  lemma RoleNameInjective(a: Role, b: Role)
    ensures RoleName(a) == RoleName(b) ==> a == b
  {
  }

  datatype User = User(id: string, username: string, role: Role, password: Option<string>)

  /** One logged unit of work; `duration` is in minutes, `createdAt` an ISO timestamp. */
  datatype Task = Task(
    id: string,
    studentName: Option<string>,
    taskType: string,
    description: string,
    duration: int,
    createdAt: string,
    userId: string,
    username: string,
    rating: Option<int>,
    ratingComment: Option<string>)

  /** A task's rating is truthy: present and not zero. */
  predicate HasRating(t: Task) {
    t.rating.Some? && t.rating.value != 0
  }

  /** One student's check-in for one shift. */
  datatype Attendance = Attendance(
    id: string,
    studentId: Option<string>,
    studentName: string,
    shift: string,
    date: string,
    recordedBy: string,
    recordedByName: string)

  /** What one key of the browser's key-value store holds (the JSON value, decoded). */
  datatype Stored =
    | TaskList(tasks: seq<Task>)
    | AttendanceList(records: seq<Attendance>)
    | UserList(users: seq<User>)
    | SavedUser(user: User)

  /** The store keys the dashboard writes. */
  const TasksKey: string := "tasks"
  const AttendanceKey: string := "attendance"
  const UsersKey: string := "users"
  const CurrentUserKey: string := "currentUser"

  /**
   * One reading of the clock: `Date.now()` in milliseconds and
   * `new Date().toISOString()` of the same instant.
   */
  datatype Clock = Clock(nowMillis: nat, nowIso: string)

  /**
   * The local calendar, left abstract: how `new Date(text)` reads a
   * timestamp (`None` is an invalid date), and the local day number, month,
   * year and `ar-EG` date label of an instant given in milliseconds.
   */
  datatype Calendar = Calendar(
    parse: string -> Option<int>,
    dayNumber: int -> int,
    month: int -> int,
    year: int -> int,
    localeDate: int -> string)

  /** The result of `toDateString()`: a calendar day, or "Invalid Date". */
  datatype Day = InvalidDay | OnDay(n: int)

  function DayOf(cal: Calendar, timestamp: string): Day {
    match cal.parse(timestamp)
    case None => InvalidDay
    case Some(ms) => OnDay(cal.dayNumber(ms))
  }

  function Today(cal: Calendar, clock: Clock): (d: Day)
    ensures d.OnDay?
  {
    OnDay(cal.dayNumber(clock.nowMillis))
  }

  /** `new Date(text) … toDateString() === new Date().toDateString()`. */
  predicate IsToday(cal: Calendar, clock: Clock, timestamp: string)
    ensures IsToday(cal, clock, timestamp) ==> cal.parse(timestamp).Some?
  {
    DayOf(cal, timestamp) == Today(cal, clock)
  }

  /** `new Date(text).toLocaleDateString('ar-EG')`: the day's label, or "Invalid Date". */
  function LocaleDate(cal: Calendar, timestamp: string): (shown: string)
    ensures cal.parse(timestamp).None? ==> shown == "Invalid Date"
    ensures cal.parse(timestamp).Some? ==> shown == cal.localeDate(cal.parse(timestamp).value)
  {
    match cal.parse(timestamp)
    case None => "Invalid Date"
    case Some(ms) => cal.localeDate(ms)
  }

  /** An unreadable timestamp is never today. */
  lemma InvalidNeverToday(cal: Calendar, clock: Clock, timestamp: string)
    requires cal.parse(timestamp).None?
    ensures !IsToday(cal, clock, timestamp)
  {
  }

  /** The outcome of `fetch(url)` followed by `response.text()`. */
  datatype Response = NetworkError | Response(ok: bool, body: string)
}
