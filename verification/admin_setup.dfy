/**
 The provisioning script that makes sure the fixed administrator account exists
 with the fixed password: it inserts the account when no user has its e-mail,
 promotes the user when the role is not 'admin', resets the password when it no
 longer checks, and otherwise leaves the table alone. bcrypt enters as a check
 `matches(password, hash)` and as the hash the script would store on this run.
 */
module AdminSetup {
  import opened Wrappers
  import opened Users

  const AdminEmail := "admin@gmail.com"
  const AdminPassword := "admin123"
  const AdminName := "Admin User"
  const AdminPhone := "0000000000"

  /** Which of the four branches a run took. */
  datatype Action = Inserted | Promoted | PasswordReset | AlreadyConfigured

  datatype Run = Run(action: Action, users: seq<User>)

  /** The row the script inserts; `newId` is the table's next row id. */
  function AdminRow(newId: int, hash: string): User {
    User(newId, AdminName, AdminEmail, AdminPhone, hash, AdminRole)
  }

  /** `createAdminUser`. `hash` is the fresh bcrypt hash of the fixed password (used
      only by the branches that store one). */
  function CreateAdminUser(users: seq<User>, matches: (string, string) -> bool, hash: string, newId: int): (r: Run)
    ensures r.action == Inserted <==> FindByEmail(users, AdminEmail).None?
    ensures r.action == Inserted ==> r.users == users + [AdminRow(newId, hash)]
    ensures r.action == Promoted <==> FindByEmail(users, AdminEmail).Some? && FindByEmail(users, AdminEmail).value.role != AdminRole
    ensures r.action == Promoted ==> r.users == SetRoleWhereEmail(users, AdminEmail, AdminRole)
    ensures r.action == PasswordReset <==>
              && FindByEmail(users, AdminEmail).Some?
              && FindByEmail(users, AdminEmail).value.role == AdminRole
              && !matches(AdminPassword, FindByEmail(users, AdminEmail).value.passwordHash)
    ensures r.action == PasswordReset ==> r.users == SetPasswordWhereEmail(users, AdminEmail, hash)
    ensures r.action == AlreadyConfigured ==> r.users == users
  {
    match FindByEmail(users, AdminEmail)
    case None => Run(Inserted, users + [AdminRow(newId, hash)])
    case Some(user) =>
      if user.role != AdminRole then Run(Promoted, SetRoleWhereEmail(users, AdminEmail, AdminRole))
      else if !matches(AdminPassword, user.passwordHash) then Run(PasswordReset, SetPasswordWhereEmail(users, AdminEmail, hash))
      else Run(AlreadyConfigured, users)
  }

  /** Every write is keyed by the fixed e-mail: the rows that were there keep their
      places, and a row with another e-mail is never touched. Only the promotion and
      the reset change existing rows, each in one column. */
  lemma OtherUsersUntouched(users: seq<User>, matches: (string, string) -> bool, hash: string, newId: int)
    ensures var r := CreateAdminUser(users, matches, hash, newId);
            && |users| <= |r.users| <= |users| + 1
            && (forall i | 0 <= i < |users| && users[i].email != AdminEmail :: r.users[i] == users[i])
            && (forall i | 0 <= i < |users| :: r.users[i] == users[i] || r.users[i] == users[i].(role := AdminRole)
                                                 || r.users[i] == users[i].(passwordHash := hash))
  {
    var r := CreateAdminUser(users, matches, hash, newId);
    if r.action == Inserted {
      assert forall i | 0 <= i < |users| :: r.users[i] == users[i];
    }
  }

  /** The promotion changes the role alone: the password the user had stays. */
  lemma PromotionKeepsPassword(users: seq<User>, matches: (string, string) -> bool, hash: string, newId: int)
    requires CreateAdminUser(users, matches, hash, newId).action == Promoted
    ensures var after := FindByEmail(CreateAdminUser(users, matches, hash, newId).users, AdminEmail);
            && after.Some?
            && after.value.passwordHash == FindByEmail(users, AdminEmail).value.passwordHash
            && after.value.role == AdminRole
  {
    FindAfterSetRole(users, AdminEmail, AdminRole);
  }

  /** A lookup after appending a row: earlier rows win. */
  lemma {:induction false} FindAfterAppend(users: seq<User>, row: User, email: string)
    ensures FindByEmail(users + [row], email)
         == if FindByEmail(users, email).Some? then FindByEmail(users, email)
            else if row.email == email then Some(row) else None
  {
    if |users| > 0 {
      assert (users + [row])[1..] == users[1..] + [row];
      FindAfterAppend(users[1..], row, email);
    } else {
      assert users + [row] == [row];
    }
  }

  /** What a run leaves behind: the account exists with the admin role, and unless
      the run was a promotion its password checks (given that a fresh hash checks). */
  lemma AfterARun(users: seq<User>, matches: (string, string) -> bool, hash: string, newId: int)
    requires matches(AdminPassword, hash)
    ensures var r := CreateAdminUser(users, matches, hash, newId);
            var found := FindByEmail(r.users, AdminEmail);
            && found.Some? && found.value.role == AdminRole
            && (r.action != Promoted ==> matches(AdminPassword, found.value.passwordHash))
  {
    var r := CreateAdminUser(users, matches, hash, newId);
    match r.action
    case Inserted => FindAfterAppend(users, AdminRow(newId, hash), AdminEmail);
    case Promoted => FindAfterSetRole(users, AdminEmail, AdminRole);
    case PasswordReset => FindAfterSetPassword(users, AdminEmail, hash);
    case AlreadyConfigured =>
  }

  /** A run on a table where the account is an admin whose password checks changes nothing. */
  lemma ConfiguredIsFixedPoint(users: seq<User>, matches: (string, string) -> bool, hash: string, newId: int)
    requires FindByEmail(users, AdminEmail).Some?
    requires FindByEmail(users, AdminEmail).value.role == AdminRole
    requires matches(AdminPassword, FindByEmail(users, AdminEmail).value.passwordHash)
    ensures CreateAdminUser(users, matches, hash, newId) == Run(AlreadyConfigured, users)
  {
  }

  /** Convergence: whatever the table, the third run finds nothing to do. (A
      promotion may leave an old password that no longer checks; the second run
      resets it.) */
  lemma ThirdRunIsNoOp(users: seq<User>, matches: (string, string) -> bool,
                       hash1: string, hash2: string, hash3: string, id1: int, id2: int, id3: int)
    requires matches(AdminPassword, hash1) && matches(AdminPassword, hash2)
    ensures var first := CreateAdminUser(users, matches, hash1, id1);
            var second := CreateAdminUser(first.users, matches, hash2, id2);
            CreateAdminUser(second.users, matches, hash3, id3) == Run(AlreadyConfigured, second.users)
  {
    var first := CreateAdminUser(users, matches, hash1, id1);
    var second := CreateAdminUser(first.users, matches, hash2, id2);
    AfterARun(first.users, matches, hash2, id2);
    if second.action == Promoted {
      AfterARun(users, matches, hash1, id1);
      assert false;
    }
  }
}
