/**
 * The PHP admin page that manages users: behind the admin gate and the CSRF check it runs at
 * most one POSTed action (create, update, delete or approve) on the `users` table, then
 * lists the users of one role, optionally narrowed to pending or approved ones.
 */
module PhpManageUsers {
  import opened Wrappers
  import opened PhpHelpers
  import opened PhpAuth

  /** The `role` filter: a missing role or one outside the three falls back to intern. */
  function RoleFilter(param: Option<string>): (r: Role)
    ensures param.Some? && ParseRole(param.value).Some? ==> r == ParseRole(param.value).value
    ensures param.None? || ParseRole(param.value).None? ==> r == Intern
  {
    ParseRole(param.GetOr("intern")).GetOr(Intern)
  }

  /**
   * The listed users: the rows of role `role`; for the status text "pending" only those with
   * `is_approved = 0`, for "approved" only those with `is_approved = 1`, for any other text
   * all of them. Table order is kept (the page's `ORDER BY created_at DESC` is not modelled).
   */
  function ListUsers(rows: seq<PhpUser>, role: Role, status: string): (r: seq<PhpUser>)
    ensures |r| <= |rows|
    ensures status == "pending" ==> forall u :: u in r <==> u in rows && u.role == role && u.isApproved == 0
    ensures status == "approved" ==> forall u :: u in r <==> u in rows && u.role == role && u.isApproved == 1
    ensures status != "pending" && status != "approved" ==> forall u :: u in r <==> u in rows && u.role == role
  {
    if rows == [] then []
    else
      var u := rows[0];
      var keep := u.role == role && (status == "pending" ==> u.isApproved == 0)
                  && (status == "approved" ==> u.isApproved == 1);
      (if keep then [u] else []) + ListUsers(rows[1..], role, status)
  }

  /** The POSTed form, each field absent when not sent; `(int)` has already been applied to `user_id`. */
  datatype UserPost = UserPost(
    action: Option<string>,
    userId: Option<int>,
    name: Option<string>,
    email: Option<string>,
    password: Option<string>,
    role: Option<string>,
    isApprovedSet: bool,
    csrfToken: Option<string>)

  /** The four actions, and none for any other `action` text. */
  datatype Action = Create | Update | Delete | Approve | NoAction

  function ActionOf(post: UserPost): Action {
    var text := post.action.GetOr("");
    if text == "create" then Create
    else if text == "update" then Update
    else if text == "delete" then Delete
    else if text == "approve" then Approve
    else NoAction
  }

  /** Each of the four action texts selects its own handler; any other text, or none, selects none. */
  lemma ActionTexts(post: UserPost)
    ensures ActionOf(post) == Create <==> post.action == Some("create")
    ensures ActionOf(post) == Update <==> post.action == Some("update")
    ensures ActionOf(post) == Delete <==> post.action == Some("delete")
    ensures ActionOf(post) == Approve <==> post.action == Some("approve")
  {
  }

  /** The page's message after an action: `$info`, `$error`, or neither. */
  datatype Notice = Quiet | Info(message: Message) | Error(message: Message)

  function PostedName(post: UserPost): string { Trim(post.name.GetOr("")) }
  function PostedEmail(post: UserPost): string { Trim(post.email.GetOr("")) }
  function PostedRole(post: UserPost): Option<Role> { ParseRole(post.role.GetOr("intern")) }
  function PostedApproval(post: UserPost): (flag: int) ensures flag == 0 || flag == 1 { if post.isApprovedSet then 1 else 0 }
  function PostedId(post: UserPost): int { post.userId.GetOr(0) }

  /** The page's messages. */
  datatype Message =
    | InvalidCreate | EmailTaken | UserCreated
    | InvalidUpdate | UserUpdated
    | OwnAccount | UserNotFound | AdminAccount | UserDeleted
    | UserApproved

  /** The text the page shows for each message. */
  function MessageText(m: Message): string {
    match m
    case InvalidCreate => "Provide valid name, email, password (min 6), and role."
    case EmailTaken => "Create failed: Email already exists"
    case UserCreated => "User created successfully"
    case InvalidUpdate => "Update failed: invalid input."
    case UserUpdated => "User updated"
    case OwnAccount => "Delete failed: You cannot delete your own account"
    case UserNotFound => "Delete failed: User not found"
    case AdminAccount => "Delete failed: Cannot delete admin accounts"
    case UserDeleted => "User deleted"
    case UserApproved => "User approved"
  }

  /** The create form's check: a non-blank trimmed name, a valid trimmed email, a 6-byte password, a known role. */
  predicate CreateInputValid(post: UserPost, isEmail: string -> bool) {
    PostedName(post) != "" && isEmail(PostedEmail(post)) && |post.password.GetOr("")| >= 6 && PostedRole(post).Some?
  }

  /** The update form's check: a positive id, a non-blank name, a valid email, a known role. */
  predicate UpdateInputValid(post: UserPost, isEmail: string -> bool) {
    PostedId(post) > 0 && PostedName(post) != "" && isEmail(PostedEmail(post)) && PostedRole(post).Some?
  }

  /** `SELECT 1 FROM users WHERE email = ?` finds a row. */
  predicate EmailExists(rows: seq<PhpUser>, email: string) {
    exists i :: 0 <= i < |rows| && rows[i].email == email
  }

  /** No two rows share an email. */
  predicate EmailsUnique(rows: seq<PhpUser>) {
    forall i, j :: 0 <= i < j < |rows| ==> rows[i].email != rows[j].email
  }

  /** The position of the row with id `uid`, if any. */
  function FindById(rows: seq<PhpUser>, uid: int): (r: Option<nat>)
    ensures r.Some? ==> r.value < |rows| && rows[r.value].id == uid
    ensures r.None? <==> forall i :: 0 <= i < |rows| ==> rows[i].id != uid
  {
    if rows == [] then None
    else if rows[0].id == uid then Some(0)
    else match FindById(rows[1..], uid)
      case None => None
      case Some(k) => Some(k + 1)
  }

  /** `UPDATE users SET name=?, email=?, role=?, is_approved=? WHERE id=?`. */
  function UpdatedRows(rows: seq<PhpUser>, uid: int, name: string, email: string, role: Role, approved: int)
    : (r: seq<PhpUser>)
    ensures |r| == |rows|
    ensures forall i :: 0 <= i < |rows| && rows[i].id != uid ==> r[i] == rows[i]
    ensures forall i :: 0 <= i < |rows| && rows[i].id == uid ==>
      r[i] == PhpUser(uid, name, email, rows[i].passwordHash, role, approved)
  {
    seq(|rows|, i requires 0 <= i < |rows| =>
      if rows[i].id == uid then rows[i].(name := name, email := email, role := role, isApproved := approved) else rows[i])
  }

  /** `UPDATE users SET is_approved=1 WHERE id=?`. */
  function ApprovedRows(rows: seq<PhpUser>, uid: int): (r: seq<PhpUser>)
    ensures |r| == |rows|
    ensures forall i :: 0 <= i < |rows| ==> r[i] == if rows[i].id == uid then rows[i].(isApproved := 1) else rows[i]
  {
    seq(|rows|, i requires 0 <= i < |rows| => if rows[i].id == uid then rows[i].(isApproved := 1) else rows[i])
  }

  /** What one action leaves: the message, the rows and id counter, and the role to show next (after a create). */
  datatype Effect = Effect(notice: Notice, rows: seq<PhpUser>, nextId: int, showRole: Option<Role>)

  /**
   * `create`: an invalid form is refused, a taken email is refused, and otherwise exactly one
   * row is added with the trimmed name and email, the role and the approval checkbox, and the
   * page switches to that role.
   */
  function CreateEffect(rows: seq<PhpUser>, nextId: int, post: UserPost, isEmail: string -> bool, hash: string)
    : (e: Effect)
    ensures !CreateInputValid(post, isEmail) ==> e == Effect(Error(InvalidCreate), rows, nextId, None)
    ensures CreateInputValid(post, isEmail) && EmailExists(rows, PostedEmail(post)) ==>
      e == Effect(Error(EmailTaken), rows, nextId, None)
    ensures e.notice.Info? <==> CreateInputValid(post, isEmail) && !EmailExists(rows, PostedEmail(post))
    ensures e.notice.Info? ==>
      && e.rows == rows + [PhpUser(nextId, PostedName(post), PostedEmail(post), hash, PostedRole(post).value,
                                   PostedApproval(post))]
      && e.nextId == nextId + 1 && e.showRole == PostedRole(post)
  {
    if !CreateInputValid(post, isEmail) then Effect(Error(InvalidCreate), rows, nextId, None)
    else if EmailExists(rows, PostedEmail(post)) then Effect(Error(EmailTaken), rows, nextId, None)
    else
      var role := PostedRole(post).value;
      Effect(Info(UserCreated),
             rows + [PhpUser(nextId, PostedName(post), PostedEmail(post), hash, role, PostedApproval(post))],
             nextId + 1, Some(role))
  }

  /**
   * `update`: an invalid form is refused; otherwise the row with the posted id (if any) takes
   * the new name, email, role and approval, keeping its password, and "User updated" is shown
   * even when no row has that id. No email check is made.
   */
  function UpdateEffect(rows: seq<PhpUser>, nextId: int, post: UserPost, isEmail: string -> bool): (e: Effect)
    ensures e.nextId == nextId && e.showRole == None
    ensures !UpdateInputValid(post, isEmail) ==> e == Effect(Error(InvalidUpdate), rows, nextId, None)
    ensures UpdateInputValid(post, isEmail) ==>
      && e.notice == Info(UserUpdated) && e.nextId == nextId && e.showRole == None
      && e.rows == UpdatedRows(rows, PostedId(post), PostedName(post), PostedEmail(post), PostedRole(post).value,
                               PostedApproval(post))
  {
    if !UpdateInputValid(post, isEmail) then Effect(Error(InvalidUpdate), rows, nextId, None)
    else Effect(Info(UserUpdated),
                UpdatedRows(rows, PostedId(post), PostedName(post), PostedEmail(post), PostedRole(post).value,
                            PostedApproval(post)),
                nextId, None)
  }

  /**
   * `delete`: the caller's own id is refused, then a missing user, then an admin; otherwise
   * exactly the row with that id is removed.
   */
  function DeleteEffect(rows: seq<PhpUser>, nextId: int, currentId: int, post: UserPost): (e: Effect)
    ensures e.nextId == nextId && e.showRole == None
    ensures PostedId(post) == currentId ==> e == Effect(Error(OwnAccount), rows, nextId, None)
    ensures PostedId(post) != currentId && FindById(rows, PostedId(post)).None? ==>
      e == Effect(Error(UserNotFound), rows, nextId, None)
    ensures PostedId(post) != currentId && FindById(rows, PostedId(post)).Some?
            && rows[FindById(rows, PostedId(post)).value].role == Admin ==>
      e == Effect(Error(AdminAccount), rows, nextId, None)
    ensures e.notice.Info? <==>
      PostedId(post) != currentId && FindById(rows, PostedId(post)).Some?
      && rows[FindById(rows, PostedId(post)).value].role != Admin
    ensures e.notice.Info? ==> var k := FindById(rows, PostedId(post)).value;
      e.rows == rows[..k] + rows[k + 1..] && e.nextId == nextId && e.showRole == None
  {
    var uid := PostedId(post);
    if uid == currentId then Effect(Error(OwnAccount), rows, nextId, None)
    else match FindById(rows, uid)
      case None => Effect(Error(UserNotFound), rows, nextId, None)
      case Some(k) =>
        if rows[k].role == Admin then Effect(Error(AdminAccount), rows, nextId, None)
        else Effect(Info(UserDeleted), rows[..k] + rows[k + 1..], nextId, None)
  }

  /** `approve`: the row with the posted id, whatever its role, becomes approved; "User approved" is always shown. */
  function ApproveEffect(rows: seq<PhpUser>, nextId: int, post: UserPost): (e: Effect)
    ensures e.notice == Info(UserApproved) && e.nextId == nextId && e.showRole == None
    ensures |e.rows| == |rows|
    ensures forall i :: 0 <= i < |rows| ==>
      e.rows[i] == if rows[i].id == PostedId(post) then rows[i].(isApproved := 1) else rows[i]
  {
    Effect(Info(UserApproved), ApprovedRows(rows, PostedId(post)), nextId, None)
  }

  /** The effect of the POSTed action; without one, nothing happens. */
  function ActionEffect(rows: seq<PhpUser>, nextId: int, currentId: int, post: UserPost,
                        isEmail: string -> bool, hash: string): (e: Effect)
    ensures ActionOf(post) == NoAction ==> e == Effect(Quiet, rows, nextId, None)
    ensures ActionOf(post) != Create ==> e.nextId == nextId
  {
    match ActionOf(post)
    case Create => CreateEffect(rows, nextId, post, isEmail, hash)
    case Update => UpdateEffect(rows, nextId, post, isEmail)
    case Delete => DeleteEffect(rows, nextId, currentId, post)
    case Approve => ApproveEffect(rows, nextId, post)
    case NoAction => Effect(Quiet, rows, nextId, None)
  }

  /** Removing one row keeps the rows' order and ids valid. */
  lemma RemoveKeepsValid(rows: seq<PhpUser>, nextId: int, k: nat)
    requires RowsValid(rows, nextId) && k < |rows|
    ensures RowsValid(rows[..k] + rows[k + 1..], nextId)
  {
    var r := rows[..k] + rows[k + 1..];
    assert forall i :: 0 <= i < |r| ==> r[i] == if i < k then rows[i] else rows[i + 1];
  }

  /** Appending a row under the next id and moving the counter past it keeps the table valid. */
  lemma AppendKeepsValid(rows: seq<PhpUser>, nextId: int, u: PhpUser)
    requires RowsValid(rows, nextId) && u.id == nextId
    ensures RowsValid(rows + [u], nextId + 1)
  {
    assert forall i :: 0 <= i < |rows| ==> (rows + [u])[i] == rows[i];
  }

  /** A create appends one row under the next id and moves the counter past it. */
  lemma CreateKeepsValid(rows: seq<PhpUser>, nextId: int, post: UserPost, isEmail: string -> bool, hash: string)
    requires RowsValid(rows, nextId)
    ensures var e := CreateEffect(rows, nextId, post, isEmail, hash); RowsValid(e.rows, e.nextId)
  {
    if CreateInputValid(post, isEmail) && !EmailExists(rows, PostedEmail(post)) {
      AppendKeepsValid(rows, nextId, PhpUser(nextId, PostedName(post), PostedEmail(post), hash,
                                             PostedRole(post).value, PostedApproval(post)));
    }
  }

  /** An update or an approval rewrites rows in place and keeps every id. */
  lemma SameIdsKeepValid(rows: seq<PhpUser>, r: seq<PhpUser>, nextId: int)
    requires RowsValid(rows, nextId) && |r| == |rows|
    requires forall i :: 0 <= i < |rows| ==> r[i].id == rows[i].id
    ensures RowsValid(r, nextId)
  {
  }

  lemma UpdateKeepsValid(rows: seq<PhpUser>, nextId: int, post: UserPost, isEmail: string -> bool)
    requires RowsValid(rows, nextId)
    ensures var e := UpdateEffect(rows, nextId, post, isEmail); RowsValid(e.rows, e.nextId)
  {
    if UpdateInputValid(post, isEmail) {
      SameIdsKeepValid(rows, UpdatedRows(rows, PostedId(post), PostedName(post), PostedEmail(post),
                                         PostedRole(post).value, PostedApproval(post)), nextId);
    }
  }

  lemma DeleteKeepsValid(rows: seq<PhpUser>, nextId: int, currentId: int, post: UserPost)
    requires RowsValid(rows, nextId)
    ensures var e := DeleteEffect(rows, nextId, currentId, post); RowsValid(e.rows, e.nextId)
  {
    if DeleteEffect(rows, nextId, currentId, post).notice.Info? {
      RemoveKeepsValid(rows, nextId, FindById(rows, PostedId(post)).value);
    }
  }

  /** Every action keeps the table valid. */
  lemma ActionKeepsValid(rows: seq<PhpUser>, nextId: int, currentId: int, post: UserPost,
                         isEmail: string -> bool, hash: string)
    requires RowsValid(rows, nextId)
    ensures var e := ActionEffect(rows, nextId, currentId, post, isEmail, hash); RowsValid(e.rows, e.nextId)
  {
    var e := ActionEffect(rows, nextId, currentId, post, isEmail, hash);
    var a := ActionOf(post);
    if a == Create {
      assert e == CreateEffect(rows, nextId, post, isEmail, hash);
      CreateKeepsValid(rows, nextId, post, isEmail, hash);
    } else if a == Update {
      assert e == UpdateEffect(rows, nextId, post, isEmail);
      UpdateKeepsValid(rows, nextId, post, isEmail);
    } else if a == Delete {
      assert e == DeleteEffect(rows, nextId, currentId, post);
      DeleteKeepsValid(rows, nextId, currentId, post);
    } else if a == Approve {
      assert e.rows == ApprovedRows(rows, PostedId(post)) && e.nextId == nextId;
      SameIdsKeepValid(rows, e.rows, nextId);
    }
  }

  /** Dropping row `k` keeps every row with another id. */
  lemma RemoveAtKeepsOthers(rows: seq<PhpUser>, k: nat, u: PhpUser)
    requires k < |rows| && u in rows && u.id != rows[k].id
    ensures u in rows[..k] + rows[k + 1..]
  {
    var j :| 0 <= j < |rows| && rows[j] == u;
    if j < k {
      assert rows[..k][j] == u;
    } else {
      assert rows[k + 1..][j - k - 1] == u;
    }
  }

  /** With ids in increasing order, no row left after dropping row `k` has its id. */
  lemma RemoveAtDropsId(rows: seq<PhpUser>, nextId: int, k: nat, u: PhpUser)
    requires RowsValid(rows, nextId) && k < |rows| && u in rows[..k] + rows[k + 1..]
    ensures u in rows && u.id != rows[k].id
  {
    if u in rows[..k] {
      var j :| 0 <= j < k && rows[..k][j] == u;
      assert rows[j] == u;
    } else {
      var j :| 0 <= j < |rows| - k - 1 && rows[k + 1..][j] == u;
      assert rows[k + 1 + j] == u;
    }
  }

  /** With ids in increasing order, dropping row `k` drops exactly the rows with its id. */
  lemma RemoveAtMembers(rows: seq<PhpUser>, nextId: int, k: nat)
    requires RowsValid(rows, nextId) && k < |rows|
    ensures forall u :: u in rows[..k] + rows[k + 1..] <==> u in rows && u.id != rows[k].id
  {
    forall u | u in rows && u.id != rows[k].id
      ensures u in rows[..k] + rows[k + 1..]
    {
      RemoveAtKeepsOthers(rows, k, u);
    }
    forall u | u in rows[..k] + rows[k + 1..]
      ensures u in rows && u.id != rows[k].id
    {
      RemoveAtDropsId(rows, nextId, k, u);
    }
  }

  /**
   * A delete never removes the caller's own row or an admin's row, and removes at most one
   * row: every other row is still there.
   */
  lemma DeleteSparesSelfAndAdmins(rows: seq<PhpUser>, nextId: int, currentId: int, post: UserPost)
    requires RowsValid(rows, nextId)
    ensures var e := DeleteEffect(rows, nextId, currentId, post);
      forall u :: u in rows && (u.id == currentId || u.role == Admin || u.id != PostedId(post)) ==> u in e.rows
    ensures var e := DeleteEffect(rows, nextId, currentId, post);
      forall u :: u in e.rows <==> u in rows && (e.notice.Info? ==> u.id != PostedId(post))
  {
    var e := DeleteEffect(rows, nextId, currentId, post);
    if e.notice.Info? {
      RemoveAtMembers(rows, nextId, FindById(rows, PostedId(post)).value);
    }
  }

  /** A create that succeeds keeps emails unique: the duplicate check guards the insert. */
  lemma CreateKeepsEmailsUnique(rows: seq<PhpUser>, nextId: int, post: UserPost, isEmail: string -> bool, hash: string)
    requires EmailsUnique(rows)
    ensures EmailsUnique(CreateEffect(rows, nextId, post, isEmail, hash).rows)
  {
    var e := CreateEffect(rows, nextId, post, isEmail, hash);
    if e.notice.Info? {
      forall i, j | 0 <= i < j < |e.rows|
        ensures e.rows[i].email != e.rows[j].email
      {
        if j == |rows| {
          assert e.rows[i] == rows[i];
        } else {
          assert e.rows[i] == rows[i] && e.rows[j] == rows[j];
        }
      }
    }
  }

  /**
   * An update, unlike a create, can give a user an email another user already has: setting
   * one user's email to another's is accepted and leaves the two sharing it.
   */
  lemma UpdateCanDuplicateEmail(rows: seq<PhpUser>, i: nat, j: nat, post: UserPost, isEmail: string -> bool)
    requires i < j < |rows| && RowsValid(rows, rows[|rows| - 1].id + 1)
    requires UpdateInputValid(post, isEmail) && PostedId(post) == rows[j].id && PostedEmail(post) == rows[i].email
    ensures UpdateEffect(rows, rows[|rows| - 1].id + 1, post, isEmail).notice == Info(UserUpdated)
    ensures !EmailsUnique(UpdateEffect(rows, rows[|rows| - 1].id + 1, post, isEmail).rows)
  {
    var after := UpdateEffect(rows, rows[|rows| - 1].id + 1, post, isEmail).rows;
    assert after[i] == rows[i];
    assert after[j].email == rows[i].email;
  }

  /** Approving touches only `is_approved` of the row with that id, whatever its role, and is idempotent. */
  lemma ApproveOnlyFlag(rows: seq<PhpUser>, uid: int)
    ensures forall i :: 0 <= i < |rows| && rows[i].id == uid ==> ApprovedRows(rows, uid)[i].isApproved == 1
    ensures forall i :: 0 <= i < |rows| ==> ApprovedRows(rows, uid)[i].(isApproved := rows[i].isApproved) == rows[i]
    ensures ApprovedRows(ApprovedRows(rows, uid), uid) == ApprovedRows(rows, uid)
  {
  }

  /** The user id of the session, and the gates the page starts with. */
  datatype Page = Gated(gate: Gate) | CsrfRefused | Shown(notice: Notice, role: Role, users: seq<PhpUser>)

  /** The GET filters. */
  datatype Filters = Filters(role: Option<string>, status: Option<string>)

  /** The `create` branch. */
  method RunCreate(table: UserTable, post: UserPost, isEmail: string -> bool, hash: string)
    returns (notice: Notice, showRole: Option<Role>)
    requires table.Valid()
    modifies table
    ensures table.Valid()
    ensures var e := CreateEffect(old(table.rows), old(table.nextId), post, isEmail, hash);
      notice == e.notice && showRole == e.showRole && table.rows == e.rows && table.nextId == e.nextId
  {
    CreateKeepsValid(table.rows, table.nextId, post, isEmail, hash);
    var name, email, role := PostedName(post), PostedEmail(post), PostedRole(post);
    if !CreateInputValid(post, isEmail) {
      notice, showRole := Error(InvalidCreate), None;
    } else if EmailExists(table.rows, email) {
      notice, showRole := Error(EmailTaken), None;
    } else {
      var _ := table.Insert(name, email, hash, role.value, PostedApproval(post));
      notice, showRole := Info(UserCreated), role;
    }
  }

  /** The `update` branch. */
  method RunUpdate(table: UserTable, post: UserPost, isEmail: string -> bool) returns (notice: Notice)
    requires table.Valid()
    modifies table
    ensures table.Valid()
    ensures var e := UpdateEffect(old(table.rows), old(table.nextId), post, isEmail);
      notice == e.notice && table.rows == e.rows && table.nextId == e.nextId
  {
    UpdateKeepsValid(table.rows, table.nextId, post, isEmail);
    if !UpdateInputValid(post, isEmail) {
      notice := Error(InvalidUpdate);
    } else {
      table.rows := UpdatedRows(table.rows, PostedId(post), PostedName(post), PostedEmail(post),
                                PostedRole(post).value, PostedApproval(post));
      notice := Info(UserUpdated);
    }
  }

  /** The `delete` branch. */
  method RunDelete(table: UserTable, currentId: int, post: UserPost) returns (notice: Notice)
    requires table.Valid()
    modifies table
    ensures table.Valid()
    ensures var e := DeleteEffect(old(table.rows), old(table.nextId), currentId, post);
      notice == e.notice && table.rows == e.rows && table.nextId == e.nextId
  {
    DeleteKeepsValid(table.rows, table.nextId, currentId, post);
    var uid := PostedId(post);
    var found := FindById(table.rows, uid);
    if uid == currentId {
      notice := Error(OwnAccount);
    } else if found.None? {
      notice := Error(UserNotFound);
    } else if table.rows[found.value].role == Admin {
      notice := Error(AdminAccount);
    } else {
      var k := found.value;
      table.rows := table.rows[..k] + table.rows[k + 1..];
      notice := Info(UserDeleted);
    }
  }

  /** The `approve` branch. */
  method RunApprove(table: UserTable, post: UserPost) returns (notice: Notice)
    requires table.Valid()
    modifies table
    ensures table.Valid()
    ensures var e := ApproveEffect(old(table.rows), old(table.nextId), post);
      notice == e.notice && table.rows == e.rows && table.nextId == e.nextId
  {
    SameIdsKeepValid(table.rows, ApprovedRows(table.rows, PostedId(post)), table.nextId);
    table.rows := ApprovedRows(table.rows, PostedId(post));
    notice := Info(UserApproved);
  }

  /**
   * The action branches of the page. The source tests the four action texts one after the
   * other; at most one matches, so they are an if-else chain here.
   */
  method RunAction(table: UserTable, currentId: int, post: UserPost, isEmail: string -> bool, hash: string)
    returns (notice: Notice, showRole: Option<Role>)
    requires table.Valid()
    modifies table
    ensures table.Valid()
    ensures var e := ActionEffect(old(table.rows), old(table.nextId), currentId, post, isEmail, hash);
      notice == e.notice && showRole == e.showRole && table.rows == e.rows && table.nextId == e.nextId
  {
    var action := ActionOf(post);
    if action == Create {
      notice, showRole := RunCreate(table, post, isEmail, hash);
    } else if action == Update {
      notice := RunUpdate(table, post, isEmail);
      showRole := None;
    } else if action == Delete {
      notice := RunDelete(table, currentId, post);
      showRole := None;
    } else if action == Approve {
      notice := RunApprove(table, post);
      showRole := None;
    } else {
      notice, showRole := Quiet, None;
    }
  }

  /**
   * The page: `require_role('admin')`, then `check_csrf()`, then the action, then the list of
   * the filtered role (the created user's role after a create). A refused request changes
   * nothing. PHP fills `$_POST` only for a POST request, so any other request carries no action;
   * the rows therefore change only on a POST from an admin that passed the token check.
   */
  method ManageUsersPage(table: UserTable, session: Session, isPost: bool, get: Filters, post: UserPost,
                         isEmail: string -> bool, hash: string) returns (page: Page)
    requires table.Valid()
    requires !isPost ==> post.action.None?
    modifies table
    ensures table.Valid()
    ensures table.rows != old(table.rows) ==>
      isPost && RequireRole(session.user, Admin) == Through && CheckCsrf(isPost, post.csrfToken, session.csrfToken) == Pass
    ensures RequireRole(session.user, Admin) != Through ==>
      page == Gated(RequireRole(session.user, Admin)) && table.rows == old(table.rows)
      && table.nextId == old(table.nextId)
    ensures RequireRole(session.user, Admin) == Through && CheckCsrf(isPost, post.csrfToken, session.csrfToken) == Reject419 ==>
      page == CsrfRefused && table.rows == old(table.rows) && table.nextId == old(table.nextId)
    ensures RequireRole(session.user, Admin) == Through && CheckCsrf(isPost, post.csrfToken, session.csrfToken) == Pass ==>
      var e := ActionEffect(old(table.rows), old(table.nextId), session.user.value.id, post, isEmail, hash);
      && table.rows == e.rows
      && page == Shown(e.notice, e.showRole.GetOr(RoleFilter(get.role)), ListUsers(e.rows, e.showRole.GetOr(RoleFilter(get.role)), get.status.GetOr("all")))
  {
    var gate := RequireRole(session.user, Admin);
    if gate != Through {
      return Gated(gate);
    }
    if CheckCsrf(isPost, post.csrfToken, session.csrfToken) == Reject419 {
      return CsrfRefused;
    }
    var role := RoleFilter(get.role);
    var status := get.status.GetOr("all");
    var notice, switchTo := RunAction(table, session.user.value.id, post, isEmail, hash);
    if switchTo.Some? {
      role := switchTo.value;
    }
    page := Shown(notice, role, ListUsers(table.rows, role, status));
  }
}
