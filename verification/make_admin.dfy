/**
 The interactive promotion tool: it lists the users, asks for the e-mail of the
 user to promote, and after each attempt asks whether to go on. Every line the
 operator types is one step of the dialogue below; the printed tables and
 messages are left out.
 */
module MakeAdmin {
  import opened Wrappers
  import opened Text
  import opened Users

  /** Where the dialogue stands: waiting for an e-mail, waiting for the y/n answer
      after an attempt (remembering how it went), or finished. */
  datatype Stage = AskEmail | NotFound(email: string) | AlreadyAdmin(email: string) | Promoted(email: string) | Closed

  datatype Tool = Tool(stage: Stage, users: seq<User>)

  /** `listUsers`: with no users the tool says so and ends; otherwise it prompts. */
  function ListUsers(users: seq<User>): (t: Tool)
    ensures t.users == users
    ensures t.stage == Closed <==> users == []
    ensures t.stage != Closed ==> t.stage == AskEmail
  {
    Tool(if users == [] then Closed else AskEmail, users)
  }

  /** `answer.toLowerCase() === 'y'` (the answer is not trimmed). */
  predicate IsYes(answer: string) {
    Lower(answer) == "y"
  }

  lemma YesIsOneLetter(answer: string)
    ensures IsYes(answer) <==> answer == "y" || answer == "Y"
  {
    if IsYes(answer) {
      assert |answer| == 1 && LowerChar(answer[0]) == 'y';
      assert answer == [answer[0]];
    }
    if answer == "y" || answer == "Y" {
      assert Lower(answer)[0] == 'y';
    }
  }

  /** The callback of `makeAdminPrompt`: an empty or blank e-mail re-prompts without
      a lookup; otherwise the trimmed e-mail is looked up, and a user who is not yet
      an admin gets the role by an update keyed by the same trimmed e-mail. */
  function EnterEmail(users: seq<User>, input: string): (t: Tool)
    ensures Trim(input) == "" ==> t == Tool(AskEmail, users)
    ensures Trim(input) != "" && FindByEmail(users, Trim(input)).None? ==> t == Tool(NotFound(Trim(input)), users)
    ensures (Trim(input) != "" && FindByEmail(users, Trim(input)).Some? && FindByEmail(users, Trim(input)).value.role == AdminRole)
              ==> t == Tool(AlreadyAdmin(Trim(input)), users)
    ensures (Trim(input) != "" && FindByEmail(users, Trim(input)).Some? && FindByEmail(users, Trim(input)).value.role != AdminRole)
              ==> t == Tool(Promoted(Trim(input)), SetRoleWhereEmail(users, Trim(input), AdminRole))
  {
    Attempt(users, Trim(input))
  }

  /** The attempt with an already trimmed e-mail. */
  function Attempt(users: seq<User>, email: string): Tool {
    if email == "" then Tool(AskEmail, users)
    else
      match FindByEmail(users, email)
      case None => Tool(NotFound(email), users)
      case Some(user) =>
        if user.role == AdminRole then Tool(AlreadyAdmin(email), users)
        else Tool(Promoted(email), SetRoleWhereEmail(users, email, AdminRole))
  }

  /** One line typed by the operator. After a failed attempt 'y' returns to the
      e-mail prompt; after a promotion it lists the users again first; any other
      answer ends the tool. A finished tool reads nothing more. */
  function Step(t: Tool, line: string): (r: Tool)
    ensures t.stage == Closed ==> r == t
    ensures t.stage.NotFound? || t.stage.AlreadyAdmin? ==> r == Tool(if IsYes(line) then AskEmail else Closed, t.users)
    ensures t.stage.Promoted? ==> r == if IsYes(line) then ListUsers(t.users) else Tool(Closed, t.users)
    ensures t.stage.AskEmail? ==> r == EnterEmail(t.users, line)
  {
    match t.stage
    case AskEmail => EnterEmail(t.users, line)
    case NotFound(_) => Tool(if IsYes(line) then AskEmail else Closed, t.users)
    case AlreadyAdmin(_) => Tool(if IsYes(line) then AskEmail else Closed, t.users)
    case Promoted(_) => if IsYes(line) then ListUsers(t.users) else Tool(Closed, t.users)
    case Closed => t
  }

  /** A whole session: the listing, then one step per typed line. */
  function Session(users: seq<User>, lines: seq<string>): Tool {
    Steps(ListUsers(users), lines)
  }

  function Steps(t: Tool, lines: seq<string>): Tool
    decreases |lines|
  {
    if lines == [] then t else Steps(Step(t, lines[0]), lines[1..])
  }

  /** The e-mail is trimmed once, before everything: padding changes nothing. */
  lemma LookupUsesTrimmedEmail(users: seq<User>, input: string)
    ensures EnterEmail(users, input) == EnterEmail(users, Trim(input))
  {
    TrimIdempotent(input);
    assert EnterEmail(users, Trim(input)) == Attempt(users, Trim(Trim(input)));
  }

  /** The table only changes on a promotion, and then only in the role of the users
      with that e-mail, which becomes 'admin'. */
  lemma EnterEmailOnlyPromotes(users: seq<User>, input: string)
    ensures var t := EnterEmail(users, input);
            && (!t.stage.Promoted? ==> t.users == users)
            && (t.stage.Promoted? ==>
                  && FindByEmail(t.users, t.stage.email).Some?
                  && FindByEmail(t.users, t.stage.email).value == FindByEmail(users, t.stage.email).value.(role := AdminRole)
                  && FindByEmail(users, t.stage.email).value.role != AdminRole
                  && forall i | 0 <= i < |users| && users[i].email != t.stage.email :: t.users[i] == users[i])
  {
    var t := EnterEmail(users, input);
    if t.stage.Promoted? {
      FindAfterSetRole(users, t.stage.email, AdminRole);
    }
  }

  /** `after` differs from `before` only in roles that became 'admin'. */
  ghost predicate OnlyPromotions(before: seq<User>, after: seq<User>) {
    |after| == |before| && forall i | 0 <= i < |before| :: after[i] == before[i] || after[i] == before[i].(role := AdminRole)
  }

  lemma StepOnlyPromotes(t: Tool, line: string)
    ensures OnlyPromotions(t.users, Step(t, line).users)
  {
  }

  /** Over a whole session nobody is created, removed, reordered or changed in any
      column but the role, and a changed role is 'admin'. */
  lemma {:induction false} SessionOnlyPromotes(t: Tool, lines: seq<string>)
    ensures OnlyPromotions(t.users, Steps(t, lines).users)
    decreases |lines|
  {
    if lines != [] {
      var next := Step(t, lines[0]);
      StepOnlyPromotes(t, lines[0]);
      SessionOnlyPromotes(next, lines[1..]);
      assert OnlyPromotions(next.users, Steps(t, lines).users);
      forall i | 0 <= i < |t.users|
        ensures Steps(t, lines).users[i] == t.users[i] || Steps(t, lines).users[i] == t.users[i].(role := AdminRole)
      {
        assert next.users[i] == t.users[i] || next.users[i] == t.users[i].(role := AdminRole);
      }
    }
  }

  /** With no users the tool ends at once, whatever is typed. */
  lemma {:induction false} NoUsersEndsAtOnce(lines: seq<string>)
    ensures Session([], lines) == Tool(Closed, [])
  {
    ClosedStaysClosed(Tool(Closed, []), lines);
  }

  lemma {:induction false} ClosedStaysClosed(t: Tool, lines: seq<string>)
    requires t.stage == Closed
    ensures Steps(t, lines) == t
    decreases |lines|
  {
    if lines != [] {
      ClosedStaysClosed(Step(t, lines[0]), lines[1..]);
    }
  }
}
