/**
 * The user admin's bulk actions: approve or disapprove every selected user with one
 * `UPDATE ... SET is_approved = ...`, reporting how many rows were updated.
 */
module AccountAdmin {
  import opened Accounts

  /**
   * The user rows after `is_approved` is set to `flag` on the selected ids: the same keys,
   * the flag on each selected row, and every other field and every unselected row as before.
   */
  function WithApproval(users: map<int, User>, selection: set<int>, flag: bool): (r: map<int, User>)
    ensures r.Keys == users.Keys
    ensures forall id | id in r :: r[id].isApproved == (if id in selection then flag else users[id].isApproved)
    ensures forall id | id in r :: r[id].(isApproved := users[id].isApproved) == users[id]
  {
    map id | id in users :: if id in selection then users[id].(isApproved := flag) else users[id]
  }

  /** The update leaves emails alone, so it keeps them unique. */
  lemma WithApprovalKeepsEmailsUnique(users: map<int, User>, selection: set<int>, flag: bool)
    requires EmailsUnique(users)
    ensures EmailsUnique(WithApproval(users, selection, flag))
  {
    var r := WithApproval(users, selection, flag);
    forall a, b | a in r && b in r && r[a].email == r[b].email
      ensures a == b
    {
      assert users[a].email == r[a].email && users[b].email == r[b].email;
    }
  }

  /** Applying the same action twice is the same as applying it once. */
  lemma {:induction false} WithApprovalIdempotent(users: map<int, User>, selection: set<int>, flag: bool)
    ensures WithApproval(WithApproval(users, selection, flag), selection, flag) == WithApproval(users, selection, flag)
  {
    var once := WithApproval(users, selection, flag);
    var twice := WithApproval(once, selection, flag);
    forall id | id in twice
      ensures twice[id] == once[id]
    {
      if id in selection {
        assert twice[id] == once[id].(isApproved := flag);
      }
    }
  }

  /**
   * After `disapprove_users` no selected user holds any capability; after `approve_users`
   * each selected user with a declared role holds exactly the one its role names.
   */
  lemma ApprovalDecidesCapabilities(users: map<int, User>, selection: set<int>)
    ensures forall id | id in selection && id in users ::
      var u := WithApproval(users, selection, false)[id];
      !u.CanAccessAdmin() && !u.CanSupervise() && !u.CanSubmitReports()
    ensures forall id | id in selection && id in users ::
      var u := WithApproval(users, selection, true)[id];
      && (u.CanAccessAdmin() <==> users[id].role == Admin)
      && (u.CanSupervise() <==> users[id].role == Supervisor)
      && (u.CanSubmitReports() <==> users[id].role == Intern)
  {
  }

  /** `approve_users`: every selected user becomes approved, whatever its role. */
  method ApproveUsers(table: UserTable, selection: set<int>) returns (updated: nat)
    requires table.Valid() && selection <= table.users.Keys
    modifies table`users
    ensures table.Valid()
    ensures table.users == WithApproval(old(table.users), selection, true)
    ensures updated == |selection|
  {
    WithApprovalKeepsEmailsUnique(table.users, selection, true);
    table.users := WithApproval(table.users, selection, true);
    updated := |selection|;
  }

  /** `disapprove_users`: every selected user loses its approval, and with it every capability. */
  method DisapproveUsers(table: UserTable, selection: set<int>) returns (updated: nat)
    requires table.Valid() && selection <= table.users.Keys
    modifies table`users
    ensures table.Valid()
    ensures table.users == WithApproval(old(table.users), selection, false)
    ensures updated == |selection|
  {
    WithApprovalKeepsEmailsUnique(table.users, selection, false);
    table.users := WithApproval(table.users, selection, false);
    updated := |selection|;
  }
}
