/**
 * The login form's credential check against the user list saved in the
 * browser store.
 */
module Login {
  import opened Wrappers
  import opened Types
  import opened App

  const BadCredentials: string := "اسم المستخدم أو كلمة المرور غير صحيحة"

  predicate Matches(u: User, username: string, password: string) {
    u.username == username && u.password == Some(password)
  }

  /** `savedUsers.find(u => u.username === username && u.password === password)`. */
  function FindUser(users: seq<User>, username: string, password: string): (found: Option<User>)
    ensures found.None? <==> forall i :: 0 <= i < |users| ==> !Matches(users[i], username, password)
    ensures found.Some? ==> exists i :: 0 <= i < |users| && users[i] == found.value
                                         && Matches(found.value, username, password)
                                         && forall j :: 0 <= j < i ==> !Matches(users[j], username, password)
    decreases |users|
  {
    if |users| == 0 then None
    else if Matches(users[0], username, password) then Some(users[0])
    else
      var rest := FindUser(users[1..], username, password);
      assert forall i :: 1 <= i < |users| ==> users[i] == users[1..][i - 1];
      if rest.Some? then
        var i :| 0 <= i < |users[1..]| && users[1..][i] == rest.value && Matches(rest.value, username, password)
                 && forall j :: 0 <= j < i ==> !Matches(users[1..][j], username, password);
        assert users[i + 1] == rest.value;
        rest
      else rest
  }

  /**
   * What submitting the form does: log a user in, or show the error. Both
   * fields are `required` inputs, so the browser submits only non-empty ones.
   */
  datatype LoginResult = LoggedIn(user: User) | Failed(message: string)

  /** `handleSubmit`: a missing user list counts as an empty one. */
  function SubmitLogin(store: map<string, Stored>, username: string, password: string): (r: LoginResult)
    requires username != "" && password != ""
    ensures r.Failed? ==> r.message == BadCredentials
    ensures r.LoggedIn? <==> StoredUsers(store).Some?
                             && exists i :: 0 <= i < |StoredUsers(store).value| && Matches(StoredUsers(store).value[i], username, password)
    ensures r.LoggedIn? ==> r.user.username == username && r.user.password == Some(password)
  {
    var users := match StoredUsers(store) case Some(us) => us case None => [];
    match FindUser(users, username, password)
    case Some(u) => LoggedIn(u)
    case None => Failed(BadCredentials)
  }

  /** Without a saved user list every login fails. */
  lemma NoUsersNoLogin(store: map<string, Stored>, username: string, password: string)
    requires UsersKey !in store
    requires username != "" && password != ""
    ensures SubmitLogin(store, username, password) == Failed(BadCredentials)
  {
  }

  /** The user logged in is the first saved user with these credentials. */
  lemma FirstMatchLogsIn(store: map<string, Stored>, username: string, password: string, i: nat)
    requires StoredUsers(store).Some? && i < |StoredUsers(store).value|
    requires Matches(StoredUsers(store).value[i], username, password)
    requires forall j :: 0 <= j < i ==> !Matches(StoredUsers(store).value[j], username, password)
    requires username != "" && password != ""
    ensures SubmitLogin(store, username, password) == LoggedIn(StoredUsers(store).value[i])
  {
    var users := StoredUsers(store).value;
    var found := FindUser(users, username, password);
    var k :| 0 <= k < |users| && users[k] == found.value && Matches(found.value, username, password)
             && forall j :: 0 <= j < k ==> !Matches(users[j], username, password);
    assert k == i;
  }

  /** The seeded administrator can log in with its initial password while it is the first saved match. */
  lemma SeedAdminLogsIn(store: map<string, Stored>)
    requires StoredUsers(store) == Some([SeedAdmin])
    ensures SubmitLogin(store, "admin", "password") == LoggedIn(SeedAdmin)
  {
    FirstMatchLogsIn(store, "admin", "password", 0);
  }
}
