/**
 * Accounts of the PHP side: the `users` table, `find_user_by_email`, `register_user`,
 * `login_user`, `logout_user` and the `require_login` / `require_role` gates. Password
 * hashing and checking (`password_hash`, `password_verify`) and email validation
 * (`FILTER_VALIDATE_EMAIL`) are library calls, passed in as values.
 */
module PhpAuth {
  import opened Wrappers
  import opened PhpHelpers

  /** A row of `users`; `is_approved` is the integer column (0 or 1 as written here). */
  datatype PhpUser = PhpUser(id: int, name: string, email: string, passwordHash: string, role: Role, isApproved: int)

  /** Rows are kept in id order; ids are positive and below the next auto-increment value. */
  ghost predicate RowsValid(rows: seq<PhpUser>, nextId: int) {
    && 0 < nextId
    && (forall i :: 0 <= i < |rows| ==> 0 < rows[i].id < nextId)
    && (forall i, j :: 0 <= i < j < |rows| ==> rows[i].id < rows[j].id)
  }

  /**
   * `find_user_by_email`: the position of the first row (in id order) with exactly this
   * email, or none. (The query's `LIMIT 1` has no `ORDER BY`; the model takes the lowest id.)
   */
  function FindByEmail(rows: seq<PhpUser>, email: string): (r: Option<nat>)
    ensures r.Some? ==> r.value < |rows| && rows[r.value].email == email
    ensures r.Some? ==> forall i :: 0 <= i < r.value ==> rows[i].email != email
    ensures r.None? <==> forall i :: 0 <= i < |rows| ==> rows[i].email != email
  {
    if rows == [] then None
    else if rows[0].email == email then Some(0)
    else match FindByEmail(rows[1..], email)
      case None => None
      case Some(k) => Some(k + 1)
  }

  function InvalidEmailMessage(): string { "Invalid email" }
  function ShortPasswordMessage(): string { "Password must be at least 6 characters" }
  function InvalidRoleMessage(): string { "Invalid role" }
  function EmailInUseMessage(): string { "Email already in use" }
  function InvalidCredentialsMessage(): string { "Invalid credentials" }
  function AwaitingApprovalMessage(): string { "Your account is awaiting admin approval" }

  /** The validation errors of `register_user`, in the order it collects them. */
  function RegisterValidation(email: string, password: string, role: string, isEmail: string -> bool): (errs: seq<string>)
    ensures InvalidEmailMessage() in errs <==> !isEmail(email)
    ensures ShortPasswordMessage() in errs <==> |password| < 6
    ensures InvalidRoleMessage() in errs <==> ParseRole(role).None?
    ensures errs == [] <==> isEmail(email) && |password| >= 6 && ParseRole(role).Some?
  {
    (if !isEmail(email) then [InvalidEmailMessage()] else [])
    + (if |password| < 6 then [ShortPasswordMessage()] else [])
    + (if ParseRole(role).None? then [InvalidRoleMessage()] else [])
  }

  /** The approval a new account gets: interns wait for an admin, the others are approved. */
  function InitialApproval(role: Role): (approved: int)
    ensures approved == 0 <==> role == Intern
    ensures approved == 1 <==> role != Intern
  {
    if role == Intern then 0 else 1
  }

  /** What `register_user` answers: `ok` and the list of errors. */
  datatype Registration = Registration(ok: bool, errors: seq<string>)

  /**
   * `register_user`: the validation errors when there are any (the table is not consulted),
   * else "Email already in use" for a taken email, else success.
   */
  function RegisterOutcome(rows: seq<PhpUser>, email: string, password: string, role: string,
                           isEmail: string -> bool): (r: Registration)
    ensures RegisterValidation(email, password, role, isEmail) != [] ==>
      r == Registration(false, RegisterValidation(email, password, role, isEmail))
    ensures RegisterValidation(email, password, role, isEmail) == [] && FindByEmail(rows, email).Some? ==>
      r == Registration(false, [EmailInUseMessage()])
    ensures r.ok <==> r.errors == []
    ensures r.ok <==> RegisterValidation(email, password, role, isEmail) == [] && FindByEmail(rows, email).None?
  {
    var errs := RegisterValidation(email, password, role, isEmail);
    if errs != [] then Registration(false, errs)
    else if FindByEmail(rows, email).Some? then Registration(false, [EmailInUseMessage()])
    else Registration(true, [])
  }

  /**
   * An invalid request is answered with its validation errors even when the email is taken:
   * the duplicate check never runs before validation passes.
   */
  lemma ValidationBeforeDuplicate(rows: seq<PhpUser>, email: string, password: string, role: string,
                                  isEmail: string -> bool)
    requires FindByEmail(rows, email).Some? && |password| < 6
    ensures EmailInUseMessage() !in RegisterOutcome(rows, email, password, role, isEmail).errors
    ensures ShortPasswordMessage() in RegisterOutcome(rows, email, password, role, isEmail).errors
  {
    var errs := RegisterValidation(email, password, role, isEmail);
    assert EmailInUseMessage() != InvalidEmailMessage() && EmailInUseMessage() != ShortPasswordMessage();
    assert EmailInUseMessage() != InvalidRoleMessage();
  }

  /**
   * Once an email is registered, registering it again is refused with "Email already in
   * use", whatever name, password or role the second request carries.
   */
  lemma RegisterTwiceRefused(rows: seq<PhpUser>, u: PhpUser, password: string, role: string,
                             isEmail: string -> bool)
    requires RegisterValidation(u.email, password, role, isEmail) == []
    ensures RegisterOutcome(rows + [u], u.email, password, role, isEmail) == Registration(false, [EmailInUseMessage()])
  {
    assert (rows + [u])[|rows|].email == u.email;
  }

  /** The `users` table. */
  class UserTable {
    var rows: seq<PhpUser>
    var nextId: int

    ghost predicate Valid()
      reads this
    {
      RowsValid(rows, nextId)
    }

    constructor ()
      ensures Valid() && rows == []
    {
      rows, nextId := [], 1;
    }

    /** `INSERT INTO users ...`: one row under the next id, added at the end. */
    method Insert(name: string, email: string, hash: string, role: Role, approved: int) returns (id: int)
      requires Valid()
      modifies this
      ensures Valid()
      ensures id == old(nextId) && rows == old(rows) + [PhpUser(id, name, email, hash, role, approved)]
      ensures nextId == old(nextId) + 1
    {
      id := nextId;
      rows := rows + [PhpUser(id, name, email, hash, role, approved)];
      nextId := nextId + 1;
    }

    /**
     * `register_user`: collects the validation errors one by one and returns them without
     * touching the table; a taken email is refused; otherwise one row is inserted with the
     * hash `hash` (standing for `password_hash($password)`) and the role's initial approval.
     */
    method RegisterUser(name: string, email: string, password: string, role: string, isEmail: string -> bool,
                        hash: string) returns (r: Registration)
      requires Valid()
      modifies this
      ensures Valid()
      ensures r == RegisterOutcome(old(rows), email, password, role, isEmail)
      ensures !r.ok ==> rows == old(rows) && nextId == old(nextId)
      ensures r.ok ==>
        rows == old(rows) + [PhpUser(old(nextId), name, email, hash, ParseRole(role).value,
                                     InitialApproval(ParseRole(role).value))]
    {
      var errors: seq<string> := [];
      if !isEmail(email) {
        errors := errors + [InvalidEmailMessage()];
      }
      if |password| < 6 {
        errors := errors + [ShortPasswordMessage()];
      }
      var parsed := ParseRole(role);
      if parsed.None? {
        errors := errors + [InvalidRoleMessage()];
      }
      if errors != [] {
        return Registration(false, errors);
      }
      if FindByEmail(rows, email).Some? {
        return Registration(false, [EmailInUseMessage()]);
      }
      var _ := Insert(name, email, hash, parsed.value, InitialApproval(parsed.value));
      r := Registration(true, []);
    }
  }

  /**
   * `login_user`'s answer for a table: the session user on success, otherwise the error
   * text. `verify` stands for `password_verify`.
   */
  function LoginOutcome(rows: seq<PhpUser>, email: string, password: string,
                        verify: (string, string) -> bool): (r: Result<SessionUser, string>)
    ensures r.Ok? <==>
      FindByEmail(rows, email).Some? && verify(password, rows[FindByEmail(rows, email).value].passwordHash)
      && (rows[FindByEmail(rows, email).value].role == Intern ==> rows[FindByEmail(rows, email).value].isApproved == 1)
    ensures r.Ok? ==> var u := rows[FindByEmail(rows, email).value];
      r.value == SessionUser(u.id, u.name, u.email, u.role)
  {
    match FindByEmail(rows, email)
    case None => Err(InvalidCredentialsMessage())
    case Some(k) =>
      var u := rows[k];
      if !verify(password, u.passwordHash) then Err(InvalidCredentialsMessage())
      else if u.role == Intern && u.isApproved != 1 then Err(AwaitingApprovalMessage())
      else Ok(SessionUser(u.id, u.name, u.email, u.role))
  }

  /**
   * An unknown email and a wrong password give the same answer, so the answer does not tell
   * which emails are registered.
   */
  lemma UnknownAndWrongAlike(rows: seq<PhpUser>, unknown: string, known: string, password: string,
                             verify: (string, string) -> bool)
    requires FindByEmail(rows, unknown).None?
    requires FindByEmail(rows, known).Some? && !verify(password, rows[FindByEmail(rows, known).value].passwordHash)
    ensures LoginOutcome(rows, unknown, password, verify) == LoginOutcome(rows, known, password, verify)
    ensures LoginOutcome(rows, unknown, password, verify) == Err(InvalidCredentialsMessage())
  {
  }

  /**
   * With the right password an unapproved intern is refused, while an unapproved supervisor
   * or admin logs in: only interns wait for approval.
   */
  lemma ApprovalOnlyGatesInterns(rows: seq<PhpUser>, email: string, password: string,
                                 verify: (string, string) -> bool)
    requires FindByEmail(rows, email).Some?
    requires var u := rows[FindByEmail(rows, email).value]; verify(password, u.passwordHash) && u.isApproved == 0
    ensures var u := rows[FindByEmail(rows, email).value];
      u.role == Intern <==> LoginOutcome(rows, email, password, verify) == Err(AwaitingApprovalMessage())
    ensures var u := rows[FindByEmail(rows, email).value];
      u.role != Intern <==> LoginOutcome(rows, email, password, verify).Ok?
  {
  }

  /** What `login_user` answers: `ok`, and the error text when not. */
  datatype LoginAnswer = LoggedIn | LoginFailed(error: string)

  /**
   * `login_user`: on success `$_SESSION['user']` holds exactly the row's id, name, email and
   * role; on failure the session is left as it was.
   */
  method LoginUser(table: UserTable, session: Session, email: string, password: string,
                   verify: (string, string) -> bool) returns (a: LoginAnswer)
    modifies session`user
    ensures var r := LoginOutcome(table.rows, email, password, verify);
      && (a == LoggedIn <==> r.Ok?)
      && (r.Ok? ==> session.user == Some(r.value))
      && (r.Err? ==> a == LoginFailed(r.error) && session.user == old(session.user))
  {
    var r := LoginOutcome(table.rows, email, password, verify);
    if r.Err? {
      return LoginFailed(r.error);
    }
    session.user := Some(r.value);
    a := LoggedIn;
  }

  /** `logout_user`: the session array is emptied (the cookie and `session_destroy` are not modelled). */
  method LogoutUser(session: Session)
    modifies session
    ensures session.user == None && session.csrfToken == None
  {
    session.user := None;
    session.csrfToken := None;
  }

  /** What the page gates do: let the request through, redirect to the login page, or stop with 403. */
  datatype Gate = Through | ToLogin | Forbidden403

  /** `require_login`: a request without a session user goes to the login page. */
  function RequireLogin(user: Option<SessionUser>): (g: Gate)
    ensures g == Through <==> user.Some?
    ensures g != Forbidden403
  {
    if user.None? then ToLogin else Through
  }

  /**
   * `require_role($role)`: after `require_login`, a user of any other role gets 403; only a
   * logged-in user with exactly that role gets through.
   */
  function RequireRole(user: Option<SessionUser>, role: Role): (g: Gate)
    ensures g == ToLogin <==> user.None?
    ensures g == Forbidden403 <==> user.Some? && user.value.role != role
    ensures g == Through <==> user.Some? && user.value.role == role
  {
    if RequireLogin(user) != Through then ToLogin
    else if user.value.role != role then Forbidden403
    else Through
  }

  /** A user who logs in passes exactly the role gate of their row's role, and no other. */
  lemma LoggedInUserGates(rows: seq<PhpUser>, email: string, password: string,
                          verify: (string, string) -> bool, role: Role)
    requires LoginOutcome(rows, email, password, verify).Ok?
    ensures var u := Some(LoginOutcome(rows, email, password, verify).value);
      RequireRole(u, role) == Through <==> rows[FindByEmail(rows, email).value].role == role
  {
  }
}
