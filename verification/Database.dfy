/** internal/repository/database: the users table and the five statements the service runs on it. */
module Database {
  import opened Options
  import opened Errors
  import opened Domain

  type Table = map<string, User>

  /** How one statement goes: answered, refused before taking effect, or carried out with the answer lost
      (a timeout or a failing RowsAffected). The last two are both reported as a data access error. */
  datatype Fault = Served | Refused | Lost

  datatype Answer = Answer(rows: Table, err: Option<Error>)

  datatype Fetched = Row(user: User) | Failed(error: Error)

  ghost predicate Keyed(rows: Table) {
    forall id | id in rows :: rows[id].id == id
  }

  /** The migrations' unique keys on username and email. */
  ghost predicate UniqueColumns(rows: Table) {
    forall a, b | a in rows && b in rows && a != b ::
      rows[a].username != rows[b].username && rows[a].email != rows[b].email
  }

  ghost predicate ValidTable(rows: Table) {
    Keyed(rows) && UniqueColumns(rows)
  }

  predicate TakenByOther(rows: Table, user: User) {
    exists id | id in rows :: id != user.id && (rows[id].username == user.username || rows[id].email == user.email)
  }

  function DriverError(fault: Fault): Error {
    Plain(if fault.Refused? then "driver: refused" else "driver: no answer")
  }

  /** INSERT: nine bound columns, both timestamps from NOW(). */
  function Inserted(user: User, now: nat): User {
    user.(createdAt := now, updatedAt := now)
  }

  /** UPDATE: seven bound columns and updated_at; password and created_at stay. */
  function Updated(row: User, user: User, now: nat): User {
    User(row.id, user.username, user.email, row.password, user.fullName,
         user.avatar, user.role, user.isActive, user.emailVerified, row.createdAt, now)
  }

  function AddUserSpec(rows: Table, user: User, now: nat, fault: Fault): Answer {
    var down := Some(NewDataAccessError("failed to insert user", Some(DriverError(fault))));
    if fault.Refused? then
      Answer(rows, down)
    else if user.id in rows || TakenByOther(rows, user) then
      Answer(rows, if fault.Lost? then down else
               Some(NewDuplicateKeyError(user.id, "User with ID '" + user.id + "' already exists",
                   Some(Plain("duplicate")))))
    else
      Answer(rows[user.id := Inserted(user, now)], if fault.Lost? then down else None)
  }

  /** `changedOnly`: MySQL counts only rows whose contents changed, PostgreSQL counts matched rows. */
  function UpdateUserSpec(rows: Table, user: User, now: nat, fault: Fault, changedOnly: bool): Answer {
    var down := Some(NewDataAccessError("failed to update user", Some(DriverError(fault))));
    if fault.Refused? then
      Answer(rows, down)
    else if user.id !in rows then
      Answer(rows, if fault.Lost? then down else Some(NewNotFoundError("User", user.id)))
    else if TakenByOther(rows, user) then
      Answer(rows, if fault.Lost? then down else
               Some(NewDuplicateKeyError(user.id, "email or username already in use", Some(Plain("duplicate")))))
    else
      var row := Updated(rows[user.id], user, now);
      Answer(rows[user.id := row],
             if fault.Lost? then down
             else if changedOnly && row == rows[user.id] then Some(NewNotFoundError("User", user.id))
             else None)
  }

  function DeleteUserSpec(rows: Table, id: string, fault: Fault): Answer {
    var down := Some(NewDataAccessError("failed to delete user", Some(DriverError(fault))));
    if fault.Refused? then
      Answer(rows, down)
    else if id !in rows then
      Answer(rows, if fault.Lost? then down else Some(NewNotFoundError("User", id)))
    else
      Answer(rows - {id}, if fault.Lost? then down else None)
  }

  function GetUserByIDSpec(rows: Table, id: string, fault: Fault): Fetched {
    if !fault.Served? then Failed(NewDataAccessError("failed to query user", Some(DriverError(fault))))
    else if id in rows then Row(rows[id])
    else Failed(NewNotFoundError("User", id))
  }

  /** The table as the service drives it. */
  class DbReadWriter {
    var rows: Table
    const changedOnly: bool

    constructor (changedOnly: bool)
      ensures rows == map[] && this.changedOnly == changedOnly
    {
      rows, this.changedOnly := map[], changedOnly;
    }

    method AddUser(user: User, now: nat, fault: Fault) returns (err: Option<Error>)
      modifies this
      ensures Answer(rows, err) == AddUserSpec(old(rows), user, now, fault)
      ensures err.None? ==> user.id in rows && Pub(rows[user.id]) == Pub(user)
      ensures err.None? <==>
              fault.Served? && user.id !in old(rows) &&
              forall k | k in old(rows) :: old(rows)[k].username != user.username && old(rows)[k].email != user.email
      ensures err.Some? ==> CodeOf(err) == Some(if fault.Served? then DuplicateKey else DataAccess)
    {
      var down := NewDataAccessError("failed to insert user", Some(DriverError(fault)));
      if fault.Refused? {
        return Some(down);
      }
      var duplicate := user.id in rows || TakenByOther(rows, user);
      if !duplicate {
        rows := rows[user.id := user.(createdAt := now, updatedAt := now)];
      }
      if fault.Lost? {
        return Some(down);
      }
      if duplicate {
        return Some(NewDuplicateKeyError(user.id, "User with ID '" + user.id + "' already exists",
            Some(Plain("duplicate"))));
      }
      return None;
    }

    method UpdateUser(user: User, now: nat, fault: Fault) returns (err: Option<Error>)
      modifies this
      ensures Answer(rows, err) == UpdateUserSpec(old(rows), user, now, fault, changedOnly)
      ensures Keyed(old(rows)) && err.None? ==> user.id in rows && Pub(rows[user.id]) == Pub(user)
      ensures CodeOf(err) == Some(DataAccess) <==> !fault.Served?
      ensures CodeOf(err) == Some(DuplicateKey) <==>
              fault.Served? && user.id in old(rows) &&
              exists k | k in old(rows) && k != user.id ::
                old(rows)[k].username == user.username || old(rows)[k].email == user.email
      ensures fault.Served? && user.id !in old(rows) ==> CodeOf(err) == Some(NotFound)
      ensures fault.Served? && user.id in old(rows) && err.Some? && CodeOf(err) != Some(DuplicateKey) ==>
              CodeOf(err) == Some(NotFound) && changedOnly && rows == old(rows)
    {
      var down := NewDataAccessError("failed to update user", Some(DriverError(fault)));
      if fault.Refused? {
        return Some(down);
      }
      var duplicate := user.id in rows && TakenByOther(rows, user);
      var affected := 0;
      if user.id in rows && !duplicate {
        var row := rows[user.id].(username := user.username, email := user.email, fullName := user.fullName,
          avatar := user.avatar, role := user.role, isActive := user.isActive, emailVerified := user.emailVerified,
          updatedAt := now);
        affected := if changedOnly && row == rows[user.id] then 0 else 1;
        rows := rows[user.id := row];
      }
      if fault.Lost? {
        return Some(down);
      }
      if duplicate {
        return Some(NewDuplicateKeyError(user.id, "email or username already in use", Some(Plain("duplicate"))));
      }
      if affected == 0 {
        return Some(NewNotFoundError("User", user.id));
      }
      return None;
    }

    method DeleteUser(id: string, fault: Fault) returns (err: Option<Error>)
      modifies this
      ensures Answer(rows, err) == DeleteUserSpec(old(rows), id, fault)
      ensures err.None? <==> fault.Served? && id in old(rows)
      ensures err.Some? ==> CodeOf(err) == Some(if fault.Served? then NotFound else DataAccess)
      ensures rows == if fault.Refused? then old(rows) else old(rows) - {id}
    {
      var down := NewDataAccessError("failed to delete user", Some(DriverError(fault)));
      if fault.Refused? {
        return Some(down);
      }
      var affected := |rows|;
      rows := rows - {id};
      affected := affected - |rows|;
      if fault.Lost? {
        return Some(down);
      }
      if affected == 0 {
        return Some(NewNotFoundError("User", id));
      }
      return None;
    }

    method GetUserByID(id: string, fault: Fault) returns (r: Fetched)
      ensures r == GetUserByIDSpec(rows, id, fault)
      ensures r.Row? <==> fault.Served? && id in rows
      ensures r.Row? ==> r.user == rows[id]
      ensures r.Failed? ==> CodeOf(Some(r.error)) == Some(if fault.Served? then NotFound else DataAccess)
    {
      if !fault.Served? {
        return Failed(NewDataAccessError("failed to query user", Some(DriverError(fault))));
      }
      if id !in rows {
        return Failed(NewNotFoundError("User", id));
      }
      return Row(rows[id]);
    }
  }

  /** A row whose username and email nobody else has can be written under its id. */
  lemma WrittenRowKeepsValid(rows: Table, row: User)
    requires ValidTable(rows) && !TakenByOther(rows, row)
    ensures ValidTable(rows[row.id := row])
  {
  }

  lemma AddKeepsTableValid(rows: Table, user: User, now: nat, fault: Fault)
    requires ValidTable(rows)
    ensures ValidTable(AddUserSpec(rows, user, now, fault).rows)
  {
    if !TakenByOther(rows, user) {
      WrittenRowKeepsValid(rows, Inserted(user, now));
    }
  }

  lemma UpdateKeepsTableValid(rows: Table, user: User, now: nat, fault: Fault, changedOnly: bool)
    requires ValidTable(rows)
    ensures ValidTable(UpdateUserSpec(rows, user, now, fault, changedOnly).rows)
  {
    if user.id in rows && !TakenByOther(rows, user) {
      WrittenRowKeepsValid(rows, Updated(rows[user.id], user, now));
    }
  }
}
