/**
 * The user administration screen: adding a user, deleting one after
 * confirmation, and changing a user's role. Each handler builds the new
 * list and hands it to the dashboard, which stores it.
 */
module UserManagement {
  import opened Wrappers
  import opened Seqs
  import opened Text
  import opened Types
  import opened ListOps

  function UserKey(u: User): string {
    u.id
  }

  /** `[...users, newUser]`, the new user's id being `Date.now().toString()`. */
  function AddUser(users: seq<User>, username: string, password: string, role: Role, clock: Clock): (r: seq<User>)
    ensures |r| == |users| + 1 && r[..|users|] == users
    ensures r[|users|] == User(NatToString(clock.nowMillis), username, role, Some(password))
  {
    users + [User(NatToString(clock.nowMillis), username, role, Some(password))]
  }

  /** Nothing checks that the name is free: adding a name already taken leaves two users with it. */
  lemma DuplicateUsernameAllowed(users: seq<User>, i: nat, password: string, role: Role, clock: Clock)
    requires i < |users|
    ensures var r := AddUser(users, users[i].username, password, role, clock);
            i < |users| < |r| && r[i].username == r[|users|].username
  {
  }

  /** `handleDeleteUser`: on confirmation the list without that id, otherwise no update at all. */
  function DeleteUser(users: seq<User>, id: string, confirmed: bool): (r: Option<seq<User>>)
    ensures r.Some? <==> confirmed
    ensures r.Some? ==> IsSubseq(r.value, users)
    ensures r.Some? ==> forall i :: 0 <= i < |r.value| ==> r.value[i].id != id
    ensures r.Some? ==> forall i :: 0 <= i < |users| && users[i].id != id ==> users[i] in r.value
  {
    if confirmed then Some(RemoveById(users, UserKey, id)) else None
  }

  /** A confirmed deletion shortens the list by exactly the number of users with that id. */
  lemma DeleteUserCount(users: seq<User>, id: string)
    ensures |DeleteUser(users, id, true).value| == |users| - CountKey(users, UserKey, id)
  {
    RemoveByIdCount(users, UserKey, id);
  }

  /** `handleChangeRole`: `users.map(u => u.id === id ? { ...u, role } : u)`. */
  function ChangeRole(users: seq<User>, id: string, role: Role): (r: seq<User>)
    ensures |r| == |users|
    ensures forall i :: 0 <= i < |users| ==>
              r[i].id == users[i].id && r[i].username == users[i].username && r[i].password == users[i].password
    ensures forall i :: 0 <= i < |users| ==> r[i].role == (if users[i].id == id then role else users[i].role)
  {
    seq(|users|, i requires 0 <= i < |users| => if users[i].id == id then users[i].(role := role) else users[i])
  }

  /** Changing a role twice to the same value is changing it once. */
  lemma ChangeRoleIdempotent(users: seq<User>, id: string, role: Role)
    ensures ChangeRole(ChangeRole(users, id, role), id, role) == ChangeRole(users, id, role)
  {
  }

  /** A role change for an id nobody has changes nothing. */
  lemma ChangeRoleAbsent(users: seq<User>, id: string, role: Role)
    requires forall i :: 0 <= i < |users| ==> users[i].id != id
    ensures ChangeRole(users, id, role) == users
  {
  }

  /** The add-user form. */
  class AddUserForm {
    var showAddUser: bool
    var newUsername: string
    var newPassword: string
    var newRole: Role

    constructor ()
      ensures !showAddUser && newUsername == "" && newPassword == "" && newRole == RegularUser
    {
      showAddUser := false;
      newUsername := "";
      newPassword := "";
      newRole := RegularUser;
    }

    method Show(visible: bool)
      modifies this`showAddUser
      ensures showAddUser == visible
    {
      showAddUser := visible;
    }

    method SetUsername(value: string)
      modifies this`newUsername
      ensures newUsername == value
    {
      newUsername := value;
    }

    method SetPassword(value: string)
      modifies this`newPassword
      ensures newPassword == value
    {
      newPassword := value;
    }

    method SetRole(value: Role)
      modifies this`newRole
      ensures newRole == value
    {
      newRole := value;
    }

    /**
     * `handleAddUser`: the list with the new user appended is handed back;
     * the name and password fields clear and the form closes. The chosen
     * role is kept for the next user. Both fields are `required` inputs, so
     * the browser submits the form only when neither is empty.
     */
    method Submit(users: seq<User>, clock: Clock) returns (updated: seq<User>)
      requires newUsername != "" && newPassword != ""
      modifies this
      ensures updated == AddUser(users, old(newUsername), old(newPassword), old(newRole), clock)
      ensures newUsername == "" && newPassword == "" && !showAddUser && newRole == old(newRole)
    {
      updated := AddUser(users, newUsername, newPassword, newRole, clock);
      newUsername := "";
      newPassword := "";
      showAddUser := false;
    }
  }
}
