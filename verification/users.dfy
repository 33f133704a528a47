/**
 The `users` table, shared by the server's admin gate and the two admin
 provisioning scripts. Rows are kept in insertion order; the e-mail column is
 declared unique, and every lookup and update below is keyed the way the SQL
 statements key it (`WHERE email = ?`, `WHERE id = ?`, exact comparison).
 */
module Users {
  import opened Wrappers

  const AdminRole := "admin"

  datatype User = User(id: int, name: string, email: string, phone: string, passwordHash: string, role: string)

  /** `SELECT ... FROM users WHERE email = ?`: the first row with that e-mail, if any. */
  function FindByEmail(users: seq<User>, email: string): (r: Option<User>)
    ensures r.Some? ==> r.value in users && r.value.email == email
    ensures r.None? <==> forall i | 0 <= i < |users| :: users[i].email != email
  {
    if |users| == 0 then None
    else if users[0].email == email then Some(users[0])
    else FindByEmail(users[1..], email)
  }

  /** `SELECT ... FROM users WHERE id = ?`: the first row with that id, if any. */
  function FindById(users: seq<User>, id: int): (r: Option<User>)
    ensures r.Some? ==> r.value in users && r.value.id == id
    ensures r.None? <==> forall i | 0 <= i < |users| :: users[i].id != id
  {
    if |users| == 0 then None
    else if users[0].id == id then Some(users[0])
    else FindById(users[1..], id)
  }

  /** `UPDATE users SET role = ? WHERE email = ?`: every row with that e-mail gets the
      role, and only its role; every other row is left as it was. */
  function SetRoleWhereEmail(users: seq<User>, email: string, role: string): (r: seq<User>)
    ensures |r| == |users|
    ensures forall i | 0 <= i < |users| ::
              r[i] == if users[i].email == email then users[i].(role := role) else users[i]
  {
    if |users| == 0 then []
    else
      [if users[0].email == email then users[0].(role := role) else users[0]]
      + SetRoleWhereEmail(users[1..], email, role)
  }

  /** `UPDATE users SET password = ? WHERE email = ?`: every row with that e-mail gets
      the new hash, and only the hash; every other row is left as it was. */
  function SetPasswordWhereEmail(users: seq<User>, email: string, hash: string): (r: seq<User>)
    ensures |r| == |users|
    ensures forall i | 0 <= i < |users| ::
              r[i] == if users[i].email == email then users[i].(passwordHash := hash) else users[i]
  {
    if |users| == 0 then []
    else
      [if users[0].email == email then users[0].(passwordHash := hash) else users[0]]
      + SetPasswordWhereEmail(users[1..], email, hash)
  }

  /** The first row found by e-mail is the one an update by that e-mail changes first:
      after setting a role, the lookup sees the new role and the same other fields. */
  lemma {:induction false} FindAfterSetRole(users: seq<User>, email: string, role: string)
    ensures FindByEmail(SetRoleWhereEmail(users, email, role), email)
         == if FindByEmail(users, email).Some? then Some(FindByEmail(users, email).value.(role := role)) else None
  {
    if |users| > 0 {
      FindAfterSetRole(users[1..], email, role);
      assert SetRoleWhereEmail(users, email, role)[1..] == SetRoleWhereEmail(users[1..], email, role);
    }
  }

  /** The same for a password update. */
  lemma {:induction false} FindAfterSetPassword(users: seq<User>, email: string, hash: string)
    ensures FindByEmail(SetPasswordWhereEmail(users, email, hash), email)
         == if FindByEmail(users, email).Some? then Some(FindByEmail(users, email).value.(passwordHash := hash)) else None
  {
    if |users| > 0 {
      FindAfterSetPassword(users[1..], email, hash);
      assert SetPasswordWhereEmail(users, email, hash)[1..] == SetPasswordWhereEmail(users[1..], email, hash);
    }
  }
}
