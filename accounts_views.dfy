/**
 * The login view's approval gate and role-based redirect, and which user and profile
 * the profile pages act on.
 */
module AccountViews {
  import opened Wrappers
  import opened Accounts

  /** Where a successful login redirects. */
  datatype Route = AdminDashboard | SupervisorDashboard | InternDashboard | ProfilePage

  datatype LoginOutcome = LoggedIn(route: Route) | PendingApproval

  /** `get_success_url`: the first role test that holds, in the order admin, supervisor, intern. */
  function SuccessRoute(u: User): Route {
    if u.IsAdmin() then AdminDashboard
    else if u.IsSupervisor() then SupervisorDashboard
    else if u.IsIntern() then InternDashboard
    else ProfilePage
  }

  /**
   * `CustomLoginView.form_valid` for credentials that authenticated: refused while the
   * account is neither approved nor a superuser, else redirected to its role's dashboard
   * (an admin's, a supervisor's or an intern's), or to the profile page for a role outside
   * the choices.
   */
  function Login(u: User): (r: LoginOutcome)
    ensures r.LoggedIn? <==> u.isApproved || u.isSuperuser
    ensures u.isSuperuser ==> r.LoggedIn?
    ensures r.LoggedIn? && u.role == Admin ==> r.route == AdminDashboard
    ensures r.LoggedIn? && u.role == Supervisor ==> r.route == SupervisorDashboard
    ensures r.LoggedIn? && u.role == Intern ==> r.route == InternDashboard
    ensures r.LoggedIn? && u.role == Other ==> r.route == ProfilePage
  {
    if !u.isApproved && !u.isSuperuser then PendingApproval else LoggedIn(SuccessRoute(u))
  }

  /**
   * A user holding a capability always gets in, and lands on the dashboard of that
   * capability; a user without approval gets in only as a superuser.
   */
  lemma LoginFollowsCapability(u: User)
    ensures u.CanAccessAdmin() ==> Login(u) == LoggedIn(AdminDashboard)
    ensures u.CanSupervise() ==> Login(u) == LoggedIn(SupervisorDashboard)
    ensures u.CanSubmitReports() ==> Login(u) == LoggedIn(InternDashboard)
    ensures !u.isApproved && !u.isSuperuser ==> Login(u) == PendingApproval
  {
  }

  /**
   * `ProfileEditView.get_object`: always the requester's own profile, created when the
   * row is missing, so no user can reach another user's profile through it.
   */
  method ProfileToEdit(table: UserTable, requester: User) returns (p: Profile)
    requires table.Valid() && requester.id in table.users
    modifies table`profiles
    ensures table.Valid() && requester.id in table.profiles && p == table.profiles[requester.id]
    ensures forall id | id in old(table.profiles) :: id in table.profiles && table.profiles[id] == old(table.profiles)[id]
    ensures table.profiles.Keys == old(table.profiles).Keys + {requester.id}
  {
    p := table.ProfileFor(requester.id);
  }
}
