/**
 * The admin-side application views: the admin gate, the approve / reject / create-intern
 * POST handlers with their status guards, and the status statistics of the list page.
 */
module ApplicationViews {
  import opened Wrappers
  import opened Accounts
  import opened Applications
  import opened Clock

  /** Why a request is turned away before the handler runs. */
  datatype Denial = LoginRedirect | Forbidden

  /**
   * `AdminRequiredMixin`: an anonymous caller is sent to the login page, a logged-in
   * caller without `can_access_admin` gets 403.
   */
  function AdminGate(caller: Option<User>): (d: Option<Denial>)
    ensures d.None? <==> caller.Some? && caller.value.CanAccessAdmin()
    ensures d == Some(LoginRedirect) <==> caller.None?
  {
    if caller.None? then Some(LoginRedirect)
    else if !caller.value.CanAccessAdmin() then Some(Forbidden)
    else None
  }

  /** A flash message left for the detail page. */
  datatype Flash = Success(text: string) | Failure(text: string)

  /**
   * What a POST handler answers: turned away, 404, a redirect to the detail page with a
   * message, or a server error when an exception escapes the handler.
   */
  datatype Response = Denied(denial: Denial) | NotFound | ToDetail(pk: int, flash: Flash) | ServerError(error: AttributeError)

  /** `get_object_or_404(InternshipApplication, pk=pk)`: the position of the row with that key. */
  function Find(apps: seq<InternshipApplication>, pk: int): (r: Option<nat>)
    ensures r.Some? ==> r.value < |apps| && apps[r.value].pk == pk
    ensures r.None? <==> forall i :: 0 <= i < |apps| ==> apps[i].pk != pk
  {
    if apps == [] then None
    else if apps[0].pk == pk then Some(0)
    else match Find(apps[1..], pk)
      case None => None
      case Some(k) => Some(k + 1)
  }

  /** Every row keeps the link / status agreement. */
  predicate AllLinksConsistent(apps: seq<InternshipApplication>)
    reads apps
  {
    forall i :: 0 <= i < |apps| ==> LinkConsistent(apps[i].State())
  }

  /** Every linked account id was issued before `nextId`. */
  predicate LinksIssued(apps: seq<InternshipApplication>, nextId: int)
    reads apps
  {
    forall i :: 0 <= i < |apps| && apps[i].createdIntern.Some? ==> apps[i].createdIntern.value < nextId
  }

  /** The review decision the two review views take. */
  datatype Decision = Approve | Reject

  function AfterDecision(d: Decision, s: ReviewState, admin: int, notes: string, now: int): ReviewState {
    match d
    case Approve => AfterApprove(s, admin, notes, now)
    case Reject => AfterReject(s, admin, notes, now)
  }

  /** With the clock repaired, approving or rejecting a pending, consistent row keeps it consistent and unlinked. */
  lemma DecisionKeepsLinkConsistent(d: Decision, s: ReviewState, admin: int, notes: string, now: int)
    requires s.status == Pending && LinkConsistent(s)
    ensures LinkConsistent(AfterDecision(d, s, admin, notes, now))
    ensures AfterDecision(d, s, admin, notes, now).createdIntern.None?
  {
  }

  /**
   * `ApproveApplicationView.post` / `RejectApplicationView.post` as written: behind the admin
   * gate, 404 for an unknown key; a row that is not pending gets an error; on a pending row
   * `approve` (`reject`) raises at its clock call, and the exception becomes a server error.
   * No row changes on any path.
   */
  method ReviewView(decision: Decision, caller: Option<User>, apps: seq<InternshipApplication>, pk: int,
                    notes: Option<string>) returns (resp: Response)
    ensures AdminGate(caller).Some? ==> resp == Denied(AdminGate(caller).value)
    ensures AdminGate(caller).None? && Find(apps, pk).None? ==> resp == NotFound
    ensures AdminGate(caller).None? && Find(apps, pk).Some? && apps[Find(apps, pk).value].status != Pending ==>
      resp == ToDetail(pk, Failure(OnlyPendingMessage(decision)))
    ensures AdminGate(caller).None? && Find(apps, pk).Some? && apps[Find(apps, pk).value].status == Pending ==>
      resp == ServerError(TimezoneMissing)
  {
    var gate := AdminGate(caller);
    if gate.Some? {
      return Denied(gate.value);
    }
    var found := Find(apps, pk);
    if found.None? {
      return NotFound;
    }
    var app := apps[found.value];
    if app.status != Pending {
      return ToDetail(pk, Failure(OnlyPendingMessage(decision)));
    }
    var r: Result<ReviewState, AttributeError>;
    if decision == Approve {
      r := app.Approve(caller.value.id, notes.GetOr(""));
    } else {
      r := app.Reject(caller.value.id, notes.GetOr(""));
    }
    resp := ServerError(r.error);
  }

  /**
   * The two review views with the clock call repaired: behind the admin gate, 404 for an
   * unknown key; a row that is not pending gets an error and is left alone; a pending row is
   * approved (rejected) by the caller with the posted notes ("" when absent). Every other row
   * is untouched, and the link / status agreement is kept.
   */
  method ReviewViewRepaired(decision: Decision, caller: Option<User>, apps: seq<InternshipApplication>, pk: int,
                            notes: Option<string>, now: int) returns (resp: Response)
    requires DistinctRows(apps)
    modifies apps
    ensures AdminGate(caller).Some? ==> resp == Denied(AdminGate(caller).value)
    ensures AdminGate(caller).None? && Find(apps, pk).None? ==> resp == NotFound
    ensures AdminGate(caller).None? && Find(apps, pk).Some? && old(apps[Find(apps, pk).value].status) != Pending ==>
      resp == ToDetail(pk, Failure(OnlyPendingMessage(decision)))
    ensures resp.ToDetail? ==> resp.pk == pk && Find(apps, pk).Some?
    ensures resp.ToDetail? && resp.flash.Success? <==>
      AdminGate(caller).None? && Find(apps, pk).Some? && old(apps[Find(apps, pk).value].status) == Pending
    ensures forall i :: 0 <= i < |apps| ==>
      apps[i].State() ==
        if resp.ToDetail? && resp.flash.Success? && i == Find(apps, pk).value
        then AfterDecision(decision, old(apps[i].State()), caller.value.id, notes.GetOr(""), now)
        else old(apps[i].State())
    ensures old(AllLinksConsistent(apps)) ==> AllLinksConsistent(apps)
  {
    var gate := AdminGate(caller);
    if gate.Some? {
      return Denied(gate.value);
    }
    var found := Find(apps, pk);
    if found.None? {
      return NotFound;
    }
    var app := apps[found.value];
    if app.status != Pending {
      return ToDetail(pk, Failure(OnlyPendingMessage(decision)));
    }
    OthersDiffer(apps, found.value);
    ghost var before := app.State();
    if decision == Approve {
      app.ApproveAt(caller.value.id, notes.GetOr(""), now);
    } else {
      app.RejectAt(caller.value.id, notes.GetOr(""), now);
    }
    resp := ToDetail(pk, Success(DecidedMessage(decision, app.FullName())));
    if old(AllLinksConsistent(apps)) {
      DecisionKeepsLinkConsistent(decision, before, caller.value.id, notes.GetOr(""), now);
    }
  }

  /** The error shown when the row is no longer pending. */
  function OnlyPendingMessage(decision: Decision): string {
    if decision == Approve then "Only pending applications can be approved."
    else "Only pending applications can be rejected."
  }

  /** The success message naming the applicant. */
  function DecidedMessage(decision: Decision, name: string): string {
    "Application for " + name + (if decision == Approve then " has been approved." else " has been rejected.")
  }

  /**
   * `CreateInternAccountView.post`: behind the admin gate, 404 for an unknown key; a row
   * not approved, or already linked, gets the matching error and nothing changes; else
   * `create_intern_account` runs with the configured default password, and its failure
   * becomes an error message instead of propagating. Other rows are untouched; the link /
   * status agreement and the one-application-per-intern rule are kept.
   */
  method CreateInternAccountView(caller: Option<User>, apps: seq<InternshipApplication>, pk: int,
                                 users: UserTable, defaultPassword: string) returns (resp: Response)
    requires DistinctRows(apps) && users.Valid()
    modifies apps, users
    ensures users.Valid()
    ensures AdminGate(caller).Some? ==> resp == Denied(AdminGate(caller).value)
    ensures AdminGate(caller).None? && Find(apps, pk).None? ==> resp == NotFound
    ensures resp.ToDetail? ==> resp.pk == pk && Find(apps, pk).Some?
    ensures resp.ToDetail? && resp.flash.Success? ==>
      AdminGate(caller).None? && old(MayCreateIntern(apps[Find(apps, pk).value].State()))
    ensures AdminGate(caller).None? && Find(apps, pk).Some? && old(apps[Find(apps, pk).value].status) != Approved ==>
      resp == ToDetail(pk, Failure(NotApprovedMessage()))
    ensures AdminGate(caller).None? && Find(apps, pk).Some? && old(apps[Find(apps, pk).value].status) == Approved
            && old(apps[Find(apps, pk).value].createdIntern).Some? ==>
      resp == ToDetail(pk, Failure(AlreadyLinkedMessage()))
    ensures AdminGate(caller).None? && Find(apps, pk).Some? && old(MayCreateIntern(apps[Find(apps, pk).value].State())) ==>
      var email := apps[Find(apps, pk).value].applicant.email;
      resp.ToDetail? && (resp.flash.Success? <==> email != "" && !EmailTaken(old(users.users), users.normalizeEmail(email)))
    ensures !(resp.ToDetail? && resp.flash.Success?) ==>
      && (forall i :: 0 <= i < |apps| ==> apps[i].State() == old(apps[i].State()))
      && users.users == old(users.users) && users.profiles == old(users.profiles)
      && users.nextId == old(users.nextId)
    ensures resp.ToDetail? && resp.flash.Success? ==>
      var k := Find(apps, pk).value;
      && apps[k].State() == AfterLink(old(apps[k].State()), old(users.nextId))
      && (forall i :: 0 <= i < |apps| && i != k ==> apps[i].State() == old(apps[i].State()))
      && users.users == old(users.users)[old(users.nextId) :=
           NewUser(old(users.nextId), users.normalizeEmail(apps[k].applicant.email), InternExtras(apps[k].applicant))]
      && users.profiles == old(users.profiles)[old(users.nextId) := InternProfile(apps[k].applicant)]
      && users.nextId == old(users.nextId) + 1
    ensures old(AllLinksConsistent(apps)) ==> AllLinksConsistent(apps)
    ensures old(OneApplicationPerIntern(apps) && LinksIssued(apps, users.nextId)) ==>
      OneApplicationPerIntern(apps) && LinksIssued(apps, users.nextId)
  {
    var gate := AdminGate(caller);
    if gate.Some? {
      return Denied(gate.value);
    }
    var found := Find(apps, pk);
    if found.None? {
      return NotFound;
    }
    var app := apps[found.value];
    if app.status != Approved {
      return ToDetail(pk, Failure(NotApprovedMessage()));
    }
    if app.createdIntern.Some? {
      return ToDetail(pk, Failure(AlreadyLinkedMessage()));
    }
    var r := CreateForRow(apps, found.value, users, defaultPassword);
    if r.Err? {
      return ToDetail(pk, Failure(CreateFailedMessage(r.error)));
    }
    var email := users.users[r.value].email;
    resp := ToDetail(pk, Success(CreatedMessage(app.FullName(), email, defaultPassword)));
  }

  function NotApprovedMessage(): string {
    "Only approved applications can have intern accounts created."
  }

  function AlreadyLinkedMessage(): string {
    "Intern account already exists for this application."
  }

  function CreateFailedMessage(e: CreateError): string {
    "Error creating intern account: " + e.Message()
  }

  /** The success message, which shows the new login's email and password. */
  function CreatedMessage(name: string, email: string, password: string): string {
    "Intern account created successfully for " + name + ". Login credentials: Email: " + email
      + ", Password: " + password
  }

  /**
   * `create_intern_account` on the eligible row `k`: on failure nothing changes; on
   * success row `k` is linked to the next account id, and no other row changes.
   */
  method CreateForRow(apps: seq<InternshipApplication>, k: nat, users: UserTable, defaultPassword: string)
    returns (r: Result<int, CreateError>)
    requires DistinctRows(apps) && users.Valid() && k < |apps| && MayCreateIntern(apps[k].State())
    modifies apps[k], users
    ensures users.Valid()
    ensures forall i :: 0 <= i < |apps| && i != k ==> apps[i].State() == old(apps[i].State())
    ensures r.Err? ==>
      && apps[k].State() == old(apps[k].State())
      && users.users == old(users.users) && users.profiles == old(users.profiles)
      && users.nextId == old(users.nextId)
      && r.error.AccountFailed?
    ensures r.Ok? <==>
      apps[k].applicant.email != "" && !EmailTaken(old(users.users), users.normalizeEmail(apps[k].applicant.email))
    ensures r.Ok? ==>
      && r.value == old(users.nextId)
      && apps[k].State() == AfterLink(old(apps[k].State()), old(users.nextId))
      && users.users == old(users.users)[old(users.nextId) :=
           NewUser(old(users.nextId), users.normalizeEmail(apps[k].applicant.email), InternExtras(apps[k].applicant))]
      && users.profiles == old(users.profiles)[old(users.nextId) := InternProfile(apps[k].applicant)]
      && users.nextId == old(users.nextId) + 1
    ensures old(AllLinksConsistent(apps)) ==> AllLinksConsistent(apps)
    ensures old(OneApplicationPerIntern(apps) && LinksIssued(apps, users.nextId)) ==>
      OneApplicationPerIntern(apps) && LinksIssued(apps, users.nextId)
  {
    OthersDiffer(apps, k);
    r := apps[k].CreateInternAccount(users, defaultPassword);
  }

  /** The counts shown on the application list page. */
  datatype Stats = Stats(total: nat, pending: nat, approved: nat, rejected: nat, internCreated: nat)

  /** The list page's statistics over the whole table; the four status counts add up to the total. */
  function TableStats(apps: seq<InternshipApplication>): (s: Stats)
    reads apps
    ensures s.total == |apps|
    ensures s.total == s.pending + s.approved + s.rejected + s.internCreated
    ensures s.pending == 0 <==> forall i :: 0 <= i < |apps| ==> apps[i].status != Pending
  {
    var st := Statuses(apps);
    StatusPartition(st);
    Stats(|apps|, CountStatus(st, Pending), CountStatus(st, Approved),
          CountStatus(st, Rejected), CountStatus(st, InternCreated))
  }
}
