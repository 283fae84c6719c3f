/** The users administration handlers: plain CRUD over the `users` table,
    without ownership checks and without passwords. */
module UserController {
  import opened Values
  import opened Tables

  const UserNotFound := "User not found"
  const NameEmailRequired := "Name and email are required"
  const EmailExists := "Email already exists"
  const CreateUserFailed := "Failed to create user"
  const UpdateUserFailed := "Failed to update user"
  const UserUpdated := "User updated successfully"
  const UserDeleted := "User deleted successfully"

  /** `s` back to front. */
  function Reverse<T>(s: seq<T>): (r: seq<T>)
    ensures |r| == |s|
    ensures forall i :: 0 <= i < |s| ==> r[i] == s[|s| - 1 - i]
  {
    if s == [] then [] else Reverse(s[1..]) + [s[0]]
  }

  /** `getUsers`: `SELECT * FROM users ORDER BY id DESC`, every column included. */
  function GetUsers(rows: seq<User>): (r: Reply<seq<User>>)
    ensures r.status == 200 && r.body.Ok? && r.body.data.Some?
    ensures |r.body.data.value| == |rows|
    ensures forall u :: u in r.body.data.value <==> u in rows
    ensures UserIdsAscending(rows) ==> UserIdsDescending(r.body.data.value)
  {
    var all := Reverse(rows);
    assert forall u :: u in all <==> u in rows by {
      forall u | u in rows ensures u in all {
        var i :| 0 <= i < |rows| && rows[i] == u;
        assert all[|rows| - 1 - i] == u;
      }
    }
    Reply(200, OkData(all))
  }

  /** `getUserById` */
  function GetUserById(rows: seq<User>, id: int): (r: Reply<User>)
    ensures r.status == 200 <==> exists i :: 0 <= i < |rows| && rows[i].id == id
    ensures r.status == 200 ==>
      r.body.Ok? && r.body.data.Some? && r.body.data.value in rows && r.body.data.value.id == id
    ensures r.status != 200 ==> r == Reply(404, Err(UserNotFound))
  {
    match UserIndex(rows, id)
    case None => Reply(404, Err(UserNotFound))
    case Some(k) => Reply(200, OkData(rows[k]))
  }

  lemma {:induction false} UserIndexAppend(rows: seq<User>, x: User, id: int)
    ensures UserIndex(rows + [x], id) ==
      if UserIndex(rows, id).Some? then UserIndex(rows, id)
      else if x.id == id then Some(|rows|) else None
  {
    if rows == [] {
      assert [x][1..] == [];
    } else {
      assert (rows + [x])[1..] == rows[1..] + [x];
      UserIndexAppend(rows[1..], x, id);
    }
  }

  /** A row appended under a fresh id is what `getUserById` answers for it. */
  lemma AppendedUserIsFound(rows: seq<User>, nextId: nat, x: User)
    requires UserIdsBelow(rows, nextId) && x.id == nextId
    ensures GetUserById(rows + [x], nextId) == Reply(200, OkData(x))
  {
    UserIndexAppend(rows, x, nextId);
  }

  /** With unique ids, a deleted row is no longer found. */
  lemma RemovedUserIsGone(rows: seq<User>, k: nat)
    requires UserIdsAscending(rows) && k < |rows|
    ensures GetUserById(rows[..k] + rows[k + 1..], rows[k].id) == Reply(404, Err(UserNotFound))
  {
    var rest := rows[..k] + rows[k + 1..];
    forall i | 0 <= i < |rest| ensures rest[i].id != rows[k].id {
      if i < k {
        assert rest[i] == rows[i];
      } else {
        assert rest[i] == rows[i + 1];
      }
    }
  }

  /** `req.body` of a create or update. */
  datatype UserBody = UserBody(name: Field<string>, email: Field<string>)

  /** The `data` of a 201 reply: `{id, name, email}`. */
  datatype CreatedUser = CreatedUser(id: nat, name: string, email: string)

  /** `createUser`: no password is stored. */
  method CreateUser(users: UserTable, body: UserBody, now: Timestamp) returns (r: Reply<CreatedUser>)
    requires users.Valid()
    modifies users
    ensures users.Valid()
    ensures !Truthy(body.name) || !Truthy(body.email) ==>
      r == Reply(400, Err(NameEmailRequired)) && users.rows == old(users.rows) && users.nextId == old(users.nextId)
    ensures Truthy(body.name) && Truthy(body.email) ==>
      if EmailTaken(old(users.rows), body.email.value) then
        r == Reply(400, Err(EmailExists)) && users.rows == old(users.rows) && users.nextId == old(users.nextId)
      else
        var id := old(users.nextId);
        r == Reply(201, OkData(CreatedUser(id, body.name.value, body.email.value))) &&
        users.rows == old(users.rows) + [User(id, body.name.value, body.email.value, None, now, now)] &&
        users.nextId == id + 1
  {
    if !Truthy(body.name) || !Truthy(body.email) {
      return Reply(400, Err(NameEmailRequired));
    }
    var result := users.Insert(body.name.value, body.email.value, None, now);
    match result {
      case Inserted(id) =>
        r := Reply(201, OkData(CreatedUser(id, body.name.value, body.email.value)));
      case InsertFailed(code) =>
        r := if code == ConstraintUnique then Reply(400, Err(EmailExists)) else Reply(500, Err(CreateUserFailed));
    }
  }

  /** `updateUser`: the fields are bound as sent, an unsent one as NULL; a
      NULL breaks NOT NULL on a row that matches and ends in the generic 500. */
  method UpdateUser(users: UserTable, id: int, body: UserBody, now: Timestamp) returns (r: Reply<()>)
    requires users.Valid()
    modifies users
    ensures users.Valid() && users.nextId == old(users.nextId)
    ensures match UserIndex(old(users.rows), id)
      case None =>
        r == Reply(404, Err(UserNotFound)) && users.rows == old(users.rows)
      case Some(k) =>
        if !body.name.Given? || !body.email.Given? then
          r == Reply(500, Err(UpdateUserFailed)) && users.rows == old(users.rows)
        else if EmailTakenByOther(old(users.rows), k, body.email.value) then
          r == Reply(400, Err(EmailExists)) && users.rows == old(users.rows)
        else
          r == Reply(200, OkMessage(UserUpdated)) &&
          users.rows == old(users.rows)[k := old(users.rows)[k].(name := body.name.value,
                                                               email := body.email.value,
                                                               updatedAt := now)]
  {
    var result := users.Update(id, Bound(body.name), Bound(body.email), now);
    match result {
      case Changed(changes) =>
        r := if changes == 0 then Reply(404, Err(UserNotFound)) else Reply(200, OkMessage(UserUpdated));
      case WriteFailed(code) =>
        r := if code == ConstraintUnique then Reply(400, Err(EmailExists)) else Reply(500, Err(UpdateUserFailed));
    }
  }

  /** `deleteUser` */
  method DeleteUser(users: UserTable, id: int) returns (r: Reply<()>)
    requires users.Valid()
    modifies users
    ensures users.Valid() && users.nextId == old(users.nextId)
    ensures match UserIndex(old(users.rows), id)
      case None =>
        r == Reply(404, Err(UserNotFound)) && users.rows == old(users.rows)
      case Some(k) =>
        r == Reply(200, OkMessage(UserDeleted)) && users.rows == old(users.rows)[..k] + old(users.rows)[k + 1..]
  {
    var changes := users.Delete(id);
    if changes == 0 {
      r := Reply(404, Err(UserNotFound));
    } else {
      r := Reply(200, OkMessage(UserDeleted));
    }
  }
}
