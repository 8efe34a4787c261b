/**
 * The dashboard's top-level state: the logged-in user, the selected tab,
 * the task, attendance and user lists, and the browser store they are
 * mirrored into. Every handler replaces one list and writes the whole new
 * list under that list's key, so the store always holds what is on screen.
 */
module App {
  import opened Wrappers
  import opened Seqs
  import opened Types
  import opened ListOps
  import opened SheetSync

  /** The account written to an empty store on first load. */
  const SeedAdmin: User := User("1", "admin", Admin, Some("password"))

  const DashboardTab: string := "dashboard"

  function TaskId(t: Task): string { t.id }

  function RecordId(r: Attendance): string { r.id }

  /** What `JSON.parse(localStorage.getItem('tasks'))` yields; a missing key is the empty list. */
  function StoredTasks(store: map<string, Stored>): seq<Task> {
    if TasksKey in store && store[TasksKey].TaskList? then store[TasksKey].tasks else []
  }

  function StoredAttendance(store: map<string, Stored>): seq<Attendance> {
    if AttendanceKey in store && store[AttendanceKey].AttendanceList? then store[AttendanceKey].records else []
  }

  /** The saved user list, or `None` when the key is missing. */
  function StoredUsers(store: map<string, Stored>): Option<seq<User>> {
    if UsersKey in store && store[UsersKey].UserList? then Some(store[UsersKey].users) else None
  }

  function StoredCurrentUser(store: map<string, Stored>): Option<User> {
    if CurrentUserKey in store && store[CurrentUserKey].SavedUser? then Some(store[CurrentUserKey].user) else None
  }

  /** Whether a synchronisation with this response replaces the remote tasks. */
  predicate SyncApplies(response: Response, clock: Clock) {
    response.Response? && response.ok && ParseRemoteSheet(response.body, clock).Some?
  }

  /** Writing one key leaves what the other keys decode to unchanged. */
  lemma WriteTasksOnly(store: map<string, Stored>, tasks: seq<Task>)
    ensures StoredTasks(store[TasksKey := TaskList(tasks)]) == tasks
    ensures StoredAttendance(store[TasksKey := TaskList(tasks)]) == StoredAttendance(store)
    ensures StoredUsers(store[TasksKey := TaskList(tasks)]) == StoredUsers(store)
    ensures StoredCurrentUser(store[TasksKey := TaskList(tasks)]) == StoredCurrentUser(store)
  {
  }

  class AppState {
    var user: Option<User>
    var activeTab: string
    var isRegistering: bool
    var tasks: seq<Task>
    var attendance: seq<Attendance>
    var users: seq<User>
    var isSyncing: bool
    var store: map<string, Stored>

    /** The store holds exactly the lists and the user the dashboard shows. */
    ghost predicate Persisted()
      reads this
    {
      StoredTasks(store) == tasks
      && StoredAttendance(store) == attendance
      && StoredUsers(store) == Some(users)
      && StoredCurrentUser(store) == user
    }

    /**
     * The first load: every list is read from the store, and a store without
     * a user list is given one holding only the seed administrator.
     */
    constructor Load(saved: map<string, Stored>)
      ensures Persisted()
      ensures user == StoredCurrentUser(saved)
      ensures tasks == StoredTasks(saved) && attendance == StoredAttendance(saved)
      ensures StoredUsers(saved).Some? ==> users == StoredUsers(saved).value && store == saved
      ensures StoredUsers(saved).None? ==> users == [SeedAdmin] && store == saved[UsersKey := UserList([SeedAdmin])]
      ensures activeTab == DashboardTab && !isRegistering && !isSyncing
    {
      user := StoredCurrentUser(saved);
      activeTab := DashboardTab;
      isRegistering := false;
      tasks := StoredTasks(saved);
      attendance := StoredAttendance(saved);
      isSyncing := false;
      match StoredUsers(saved)
      case Some(us) =>
        users := us;
        store := saved;
      case None =>
        users := [SeedAdmin];
        store := saved[UsersKey := UserList([SeedAdmin])];
    }

    /** `syncWithGoogleSheet`: a usable sheet replaces the remote tasks; any failure changes nothing. */
    method SyncWithSheet(response: Response, clock: Clock)
      requires Persisted()
      modifies this
      ensures Persisted()
      ensures tasks == SyncedTasks(old(tasks), response, clock)
      ensures store == if SyncApplies(response, clock) then old(store)[TasksKey := TaskList(tasks)] else old(store)
      ensures !isSyncing
      ensures user == old(user) && activeTab == old(activeTab) && isRegistering == old(isRegistering)
      ensures attendance == old(attendance) && users == old(users)
    {
      isSyncing := true;
      if response.Response? && response.ok {
        var parsed := ParseRemoteSheet(response.body, clock);
        if parsed.Some? {
          ReplaceRemoteTasks(parsed.value);
        }
      }
      isSyncing := false;
    }

    /** The state update of the synchronisation: the batch replaces the remote tasks and is saved. */
    method ReplaceRemoteTasks(batch: seq<Task>)
      requires Persisted()
      modifies this
      ensures Persisted()
      ensures tasks == Reconcile(batch, old(tasks)) && store == old(store)[TasksKey := TaskList(tasks)]
      ensures user == old(user) && attendance == old(attendance) && users == old(users)
      ensures activeTab == old(activeTab) && isRegistering == old(isRegistering) && isSyncing == old(isSyncing)
    {
      SaveTasks(Reconcile(batch, tasks));
    }

    /** `handleLogin`: the user is set and saved under "currentUser". */
    method HandleLogin(loggedIn: User)
      requires Persisted()
      modifies this
      ensures Persisted()
      ensures user == Some(loggedIn) && store == old(store)[CurrentUserKey := SavedUser(loggedIn)]
      ensures tasks == old(tasks) && attendance == old(attendance) && users == old(users)
      ensures activeTab == old(activeTab) && isRegistering == old(isRegistering) && isSyncing == old(isSyncing)
    {
      user := Some(loggedIn);
      store := store[CurrentUserKey := SavedUser(loggedIn)];
    }

    /** `handleLogout`: the user is cleared and the "currentUser" key removed. */
    method HandleLogout()
      requires Persisted()
      modifies this
      ensures Persisted()
      ensures user == None && store == old(store) - {CurrentUserKey}
      ensures tasks == old(tasks) && attendance == old(attendance) && users == old(users)
      ensures activeTab == old(activeTab) && isRegistering == old(isRegistering) && isSyncing == old(isSyncing)
    {
      user := None;
      store := store - {CurrentUserKey};
    }

    /** `setTasks` followed by writing the whole list under 'tasks'. */
    method SaveTasks(newTasks: seq<Task>)
      requires Persisted()
      modifies this
      ensures Persisted()
      ensures tasks == newTasks && store == old(store)[TasksKey := TaskList(newTasks)]
      ensures user == old(user) && attendance == old(attendance) && users == old(users)
      ensures activeTab == old(activeTab) && isRegistering == old(isRegistering) && isSyncing == old(isSyncing)
    {
      WriteTasksOnly(store, newTasks);
      tasks := newTasks;
      store := store[TasksKey := TaskList(newTasks)];
    }

    /** `addTask`: the new task goes first. */
    method AddTask(task: Task)
      requires Persisted()
      modifies this
      ensures Persisted()
      ensures tasks == [task] + old(tasks) && store == old(store)[TasksKey := TaskList(tasks)]
      ensures user == old(user) && attendance == old(attendance) && users == old(users)
      ensures activeTab == old(activeTab) && isRegistering == old(isRegistering) && isSyncing == old(isSyncing)
    {
      SaveTasks([task] + tasks);
    }

    /** `addBulkTasks`: the imported tasks go first, in their own order. */
    method AddBulkTasks(batch: seq<Task>)
      requires Persisted()
      modifies this
      ensures Persisted()
      ensures tasks == batch + old(tasks) && store == old(store)[TasksKey := TaskList(tasks)]
      ensures user == old(user) && attendance == old(attendance) && users == old(users)
      ensures activeTab == old(activeTab) && isRegistering == old(isRegistering) && isSyncing == old(isSyncing)
    {
      SaveTasks(batch + tasks);
    }

    /** `updateTask`: every task with the same id is replaced. */
    method UpdateTask(updated: Task)
      requires Persisted()
      modifies this
      ensures Persisted()
      ensures tasks == ReplaceById(old(tasks), TaskId, updated) && store == old(store)[TasksKey := TaskList(tasks)]
      ensures user == old(user) && attendance == old(attendance) && users == old(users)
      ensures activeTab == old(activeTab) && isRegistering == old(isRegistering) && isSyncing == old(isSyncing)
    {
      SaveTasks(ReplaceById(tasks, TaskId, updated));
    }

    /** `deleteTask`: every task with that id is removed. */
    method DeleteTask(taskId: string)
      requires Persisted()
      modifies this
      ensures Persisted()
      ensures tasks == RemoveById(old(tasks), TaskId, taskId) && store == old(store)[TasksKey := TaskList(tasks)]
      ensures user == old(user) && attendance == old(attendance) && users == old(users)
      ensures activeTab == old(activeTab) && isRegistering == old(isRegistering) && isSyncing == old(isSyncing)
    {
      SaveTasks(RemoveById(tasks, TaskId, taskId));
    }

    /** `addAttendanceRecord`: the new record goes first. */
    method AddAttendanceRecord(record: Attendance)
      requires Persisted()
      modifies this
      ensures Persisted()
      ensures attendance == [record] + old(attendance) && store == old(store)[AttendanceKey := AttendanceList(attendance)]
      ensures user == old(user) && tasks == old(tasks) && users == old(users)
      ensures activeTab == old(activeTab) && isRegistering == old(isRegistering) && isSyncing == old(isSyncing)
    {
      attendance := [record] + attendance;
      store := store[AttendanceKey := AttendanceList(attendance)];
    }

    /** `deleteAttendanceRecord`: every record with that id is removed. */
    method DeleteAttendanceRecord(id: string)
      requires Persisted()
      modifies this
      ensures Persisted()
      ensures attendance == RemoveById(old(attendance), RecordId, id)
      ensures store == old(store)[AttendanceKey := AttendanceList(attendance)]
      ensures user == old(user) && tasks == old(tasks) && users == old(users)
      ensures activeTab == old(activeTab) && isRegistering == old(isRegistering) && isSyncing == old(isSyncing)
    {
      attendance := RemoveById(attendance, RecordId, id);
      store := store[AttendanceKey := AttendanceList(attendance)];
    }

    /** `handleRegister`: the new account goes last and the login screen returns. */
    method HandleRegister(newUser: User)
      requires Persisted()
      modifies this
      ensures Persisted()
      ensures users == old(users) + [newUser] && store == old(store)[UsersKey := UserList(users)]
      ensures !isRegistering
      ensures user == old(user) && tasks == old(tasks) && attendance == old(attendance)
      ensures activeTab == old(activeTab) && isSyncing == old(isSyncing)
    {
      users := users + [newUser];
      store := store[UsersKey := UserList(users)];
      isRegistering := false;
    }

    /** The user-management screen hands back a whole new user list, which is kept and saved. */
    method UpdateUsers(newUsers: seq<User>)
      requires Persisted()
      modifies this
      ensures Persisted()
      ensures users == newUsers && store == old(store)[UsersKey := UserList(newUsers)]
      ensures user == old(user) && tasks == old(tasks) && attendance == old(attendance)
      ensures activeTab == old(activeTab) && isRegistering == old(isRegistering) && isSyncing == old(isSyncing)
    {
      users := newUsers;
      store := store[UsersKey := UserList(newUsers)];
    }

    /** Switching between the login and the registration screen. */
    method SetRegistering(registering: bool)
      modifies this`isRegistering
      ensures isRegistering == registering
    {
      isRegistering := registering;
    }

    /** The sidebar's `setActiveTab`. */
    method SetActiveTab(tab: string)
      modifies this`activeTab
      ensures activeTab == tab
    {
      activeTab := tab;
    }
  }
}
