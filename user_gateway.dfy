/**
 * The user table as the auth endpoints see it through the user gateway: rows
 * in query order, the lookups by user name and by identifier, and the insert.
 * The database generates identifiers; here the new identifier is a parameter.
 * Its exclusive constraints are taken to be on the identifier and the user name.
 */
module UserGateway {
  import opened Wrappers
  import opened Uuids
  import opened Schemas

  /**
   * `get_by_username`: the first row whose user name is `username` (`?=`
   * never matches a row without a user name).
   */
  function FindByUsername(rows: seq<User>, username: string): (r: Option<User>)
    ensures r.Some? ==> r.value in rows && r.value.username == Some(username)
    ensures r.None? <==> forall i :: 0 <= i < |rows| ==> rows[i].username != Some(username)
  {
    if |rows| == 0 then None
    else if rows[0].username == Some(username) then Some(rows[0])
    else FindByUsername(rows[1..], username)
  }

  /**
   * `get_current_user` for a gateway scoped to `id`: the row whose
   * identifier is the scoping identifier.
   */
  function FindById(rows: seq<User>, id: Uuid): (r: Option<User>)
    ensures r.Some? ==> r.value in rows && r.value.id == id
    ensures r.None? <==> forall i :: 0 <= i < |rows| ==> rows[i].id != id
  {
    if |rows| == 0 then None
    else if rows[0].id == id then Some(rows[0])
    else FindById(rows[1..], id)
  }

  /** An appended row is found by user name exactly when no earlier row has that name. */
  lemma {:induction false} FindByUsernameAppend(rows: seq<User>, u: User, username: string)
    ensures FindByUsername(rows + [u], username)
         == if FindByUsername(rows, username).Some? then FindByUsername(rows, username)
            else if u.username == Some(username) then Some(u) else None
  {
    if |rows| > 0 {
      assert (rows + [u])[1..] == rows[1..] + [u];
      FindByUsernameAppend(rows[1..], u, username);
    }
  }

  /** An appended row is found by identifier exactly when no earlier row has that identifier. */
  lemma {:induction false} FindByIdAppend(rows: seq<User>, u: User, id: Uuid)
    ensures FindById(rows + [u], id)
         == if FindById(rows, id).Some? then FindById(rows, id)
            else if u.id == id then Some(u) else None
  {
    if |rows| > 0 {
      assert (rows + [u])[1..] == rows[1..] + [u];
      FindByIdAppend(rows[1..], u, id);
    }
  }

  /** The exclusive constraints of the table. */
  ghost predicate Constrained(rows: seq<User>)
  {
    && (forall i, j :: 0 <= i < j < |rows| ==> rows[i].id != rows[j].id)
    && (forall i, j :: 0 <= i < j < |rows| && rows[i].username.Some? ==> rows[i].username != rows[j].username)
  }

  /** The row the insert of `create` produces; the audit timestamps are left empty. */
  function NewUser(fields: UserCreateFields, id: Uuid): User
  {
    User(id, None, None, Some(fields.username), Some(fields.email), fields.password)
  }

  class UserDirectory {
    var rows: seq<User>

    ghost predicate Valid()
      reads this
    {
      Constrained(rows)
    }

    constructor (rows: seq<User>)
      requires Constrained(rows)
      ensures Valid() && this.rows == rows
    {
      this.rows := rows;
    }

    /**
     * `create`: insert the fields as a new row with identifier `newId`, or
     * `None` (a constraint violation) when the identifier or the user name is
     * already taken.
     */
    method Create(fields: UserCreateFields, newId: Uuid) returns (r: Option<User>)
      requires Valid()
      modifies this
      ensures Valid()
      ensures (FindById(old(rows), newId).Some? || FindByUsername(old(rows), fields.username).Some?)
                ==> r == None && rows == old(rows)
      ensures (FindById(old(rows), newId).None? && FindByUsername(old(rows), fields.username).None?)
                ==> r == Some(NewUser(fields, newId)) && rows == old(rows) + [NewUser(fields, newId)]
    {
      if FindById(rows, newId).Some? || FindByUsername(rows, fields.username).Some? {
        return None;
      }
      var u := NewUser(fields, newId);
      rows := rows + [u];
      return Some(u);
    }
  }
}
