/**
 * Internship applications: a visitor applies (pending), an admin approves or rejects,
 * and an approved application yields one intern account (intern_created).
 */
module Applications {
  import opened Wrappers
  import Text
  import opened Accounts
  import opened Clock

  datatype Status = Pending | Approved | Rejected | InternCreated

  /** What the applicant typed in: personal, address and education details. */
  datatype Applicant = Applicant(
    firstName: string, lastName: string, email: string, phone: string,
    address: string, city: string, country: string, postalCode: string,
    institution: string, fieldOfStudy: string, academicLevel: string,
    graduationYear: nat)

  /** The review part of an application row: the part the model methods change. */
  datatype ReviewState = ReviewState(
    status: Status,
    reviewedBy: Option<int>,
    reviewDate: Option<int>,
    reviewNotes: string,
    createdIntern: Option<int>)

  /** A freshly submitted application: pending, unreviewed, no account. */
  const Submitted := ReviewState(Pending, None, None, "", None)

  /**
   * `approve` and `reject` as written (`decided` is the status each assigns): the status and
   * the reviewer are set on the instance, then `models.timezone.now()` raises before `save()`,
   * so the stored row is never changed.
   */
  function ReviewAsWritten(s: ReviewState, decided: Status, admin: int, notes: string)
    : (r: Result<ReviewState, AttributeError>)
    ensures r == Err(TimezoneMissing)
  {
    Err(TimezoneMissing)
  }

  /** The state the repaired `approve(admin, notes)` writes, whatever the state before. */
  function AfterApprove(s: ReviewState, admin: int, notes: string, now: int): ReviewState {
    s.(status := Approved, reviewedBy := Some(admin), reviewDate := Some(now), reviewNotes := notes)
  }

  /** The state the repaired `reject(admin, notes)` writes, whatever the state before. */
  function AfterReject(s: ReviewState, admin: int, notes: string, now: int): ReviewState {
    s.(status := Rejected, reviewedBy := Some(admin), reviewDate := Some(now), reviewNotes := notes)
  }

  /** The state a successful `create_intern_account` leaves: linked to `intern`, intern_created. */
  function AfterLink(s: ReviewState, intern: int): ReviewState {
    s.(createdIntern := Some(intern), status := InternCreated)
  }

  /** The two guards of `create_intern_account`: approved, and no account linked yet. */
  predicate MayCreateIntern(s: ReviewState) {
    s.status == Approved && s.createdIntern.None?
  }

  /** The account link and the intern_created status go together. */
  predicate LinkConsistent(s: ReviewState) {
    s.createdIntern.Some? <==> s.status == InternCreated
  }

  datatype CreateError = NotApproved | AlreadyLinked | AccountFailed(cause: UserError)
  {
    function Message(): string {
      match this
      case NotApproved => "Application must be approved before creating intern account"
      case AlreadyLinked => "Intern account already exists for this application"
      case AccountFailed(cause) => cause.Message()
    }
  }

  /** The keyword arguments `create_intern_account` passes to `create_user`. */
  function InternExtras(a: Applicant): ExtraFields {
    NoExtras.(
      username := Some(Text.PrefixBefore(a.email, '@')),
      firstName := Some(a.firstName), lastName := Some(a.lastName), phone := Some(a.phone),
      role := Some(Intern), isApproved := Some(true))
  }

  /** The profile of a new intern: the address and education details copied over. */
  function InternProfile(a: Applicant): Profile {
    EmptyProfile.(
      address := a.address, city := a.city, country := a.country, postalCode := a.postalCode,
      institution := a.institution, fieldOfStudy := a.fieldOfStudy, academicLevel := a.academicLevel)
  }

  /**
   * The user `create_intern_account` creates: an approved intern (so able to submit
   * reports) carrying the applicant's names and phone, whose username is the email's
   * text before the first `@`: a prefix of the email holding no `@`.
   */
  lemma InternAccountShape(id: int, normalized: string, a: Applicant)
    ensures var u := NewUser(id, normalized, InternExtras(a));
      && u.role == Intern && u.isApproved && u.CanSubmitReports()
      && !u.isStaff && !u.isSuperuser && u.isActive
      && u.firstName == a.firstName && u.lastName == a.lastName && u.phone == a.phone
      && u.email == normalized
      && u.username.Some? && '@' !in u.username.value
      && u.username.value == a.email[..|u.username.value|]
  {
  }

  /** Neither guarded step can fire twice: after a link, `create_intern_account` fails again. */
  lemma LinkIsFinal(s: ReviewState, intern: int)
    ensures !MayCreateIntern(AfterLink(s, intern))
    ensures LinkConsistent(AfterLink(s, intern))
  {
  }

  /**
   * As written, neither decision is ever stored: approving or rejecting a pending
   * application raises and leaves it pending, where the repaired methods store it approved
   * (rejected) by the admin, with the notes and the time.
   */
  lemma DecisionNeverStored(s: ReviewState, admin: int, notes: string, now: int)
    requires s.status == Pending
    ensures ReviewAsWritten(s, Approved, admin, notes).Err? && ReviewAsWritten(s, Rejected, admin, notes).Err?
    ensures var a := AfterApprove(s, admin, notes, now);
      a.status == Approved && a.reviewedBy == Some(admin) && a.reviewDate == Some(now) && a != s
    ensures var r := AfterReject(s, admin, notes, now);
      r.status == Rejected && r.reviewedBy == Some(admin) && r.reviewDate == Some(now) && r != s
  {
  }

  /**
   * The model methods `approve` and `reject` check no status. As written, the call on a
   * linked application raises, so its link survives; once the clock is repaired, the same
   * call would leave the link behind under a status that is no longer intern_created.
   */
  lemma UncheckedApproveBreaksLink(admin: int, notes: string, now: int)
    ensures var s := AfterLink(AfterApprove(Submitted, admin, notes, now), 7);
      && LinkConsistent(s)
      && ReviewAsWritten(s, Approved, admin, notes).Err? && ReviewAsWritten(s, Rejected, admin, notes).Err?
      && !LinkConsistent(AfterApprove(s, admin, notes, now))
      && !LinkConsistent(AfterReject(s, admin, notes, now))
  {
  }

  class InternshipApplication {
    const pk: int
    const applicant: Applicant
    /** The id of the internship applied for. */
    const internship: int
    var status: Status
    var reviewedBy: Option<int>
    var reviewDate: Option<int>
    var reviewNotes: string
    var createdIntern: Option<int>

    function State(): ReviewState
      reads this
    {
      ReviewState(status, reviewedBy, reviewDate, reviewNotes, createdIntern)
    }

    /** A new application starts pending, unreviewed and without an account. */
    constructor (pk: int, applicant: Applicant, internship: int)
      ensures this.pk == pk && this.applicant == applicant && this.internship == internship
      ensures State() == Submitted
    {
      this.pk, this.applicant, this.internship := pk, applicant, internship;
      status, reviewedBy, reviewDate, reviewNotes, createdIntern := Pending, None, None, "", None;
    }

    predicate IsPending() reads this { status == Pending }
    predicate IsApproved() reads this { status == Approved }
    predicate IsRejected() reads this { status == Rejected }
    predicate HasInternAccount() reads this { createdIntern.Some? }

    function FullName(): string {
      Text.Strip(applicant.firstName + " " + applicant.lastName)
    }

    /**
     * `approve` as written: the call raises AttributeError and the stored row stays as it
     * was (the fields set on the instance before the clock call are never saved).
     */
    method Approve(admin: int, notes: string) returns (r: Result<ReviewState, AttributeError>)
      ensures r == ReviewAsWritten(State(), Approved, admin, notes)
    {
      r := Err(TimezoneMissing);
    }

    /** `reject` as written: the call raises AttributeError and the stored row stays as it was. */
    method Reject(admin: int, notes: string) returns (r: Result<ReviewState, AttributeError>)
      ensures r == ReviewAsWritten(State(), Rejected, admin, notes)
    {
      r := Err(TimezoneMissing);
    }

    /** The repaired `approve`: approved by `admin` with `notes` at `now`, from whatever status it had. */
    method ApproveAt(admin: int, notes: string, now: int)
      modifies this
      ensures State() == AfterApprove(old(State()), admin, notes, now)
    {
      status := Approved;
      reviewedBy := Some(admin);
      reviewDate := Some(now);
      reviewNotes := notes;
    }

    /** The repaired `reject`: rejected by `admin` with `notes` at `now`, from whatever status it had. */
    method RejectAt(admin: int, notes: string, now: int)
      modifies this
      ensures State() == AfterReject(old(State()), admin, notes, now)
    {
      status := Rejected;
      reviewedBy := Some(admin);
      reviewDate := Some(now);
      reviewNotes := notes;
    }

    /**
     * `create_intern_account`: raises unless the application is approved and has no
     * account; otherwise creates the intern user (which raises, changing nothing, when the
     * email is empty or already a user's), fills its profile from the application, links
     * it and moves to intern_created.
     */
    method CreateInternAccount(users: UserTable, password: string) returns (r: Result<int, CreateError>)
      requires users.Valid()
      modifies this, users
      ensures users.Valid()
      ensures old(status) != Approved ==> r == Err(NotApproved)
      ensures old(status) == Approved && old(createdIntern).Some? ==> r == Err(AlreadyLinked)
      ensures r.Err? ==>
        && State() == old(State())
        && users.users == old(users.users) && users.profiles == old(users.profiles)
        && users.nextId == old(users.nextId)
      ensures old(MayCreateIntern(State())) ==>
        (r.Ok? <==> applicant.email != "" && !EmailTaken(old(users.users), users.normalizeEmail(applicant.email)))
      ensures old(MayCreateIntern(State())) && r.Err? ==> r.error.AccountFailed?
      ensures r.Ok? ==>
        && old(MayCreateIntern(State()))
        && State() == AfterLink(old(State()), r.value)
        && r.value !in old(users.users) && r.value == old(users.nextId)
        && users.users == old(users.users)[r.value := NewUser(r.value, users.normalizeEmail(applicant.email), InternExtras(applicant))]
        && users.profiles == old(users.profiles)[r.value := InternProfile(applicant)]
        && users.nextId == old(users.nextId) + 1
    {
      if status != Approved {
        return Err(NotApproved);
      }
      if createdIntern.Some? {
        return Err(AlreadyLinked);
      }
      r := LinkNewAccount(users, password);
    }

    /** The part of `create_intern_account` past its two guards. */
    method LinkNewAccount(users: UserTable, password: string) returns (r: Result<int, CreateError>)
      requires users.Valid() && MayCreateIntern(State())
      modifies this, users
      ensures users.Valid()
      ensures r.Err? ==>
        && State() == old(State())
        && users.users == old(users.users) && users.profiles == old(users.profiles)
        && users.nextId == old(users.nextId)
        && r.error.AccountFailed?
      ensures r.Ok? <==> applicant.email != "" && !EmailTaken(old(users.users), users.normalizeEmail(applicant.email))
      ensures r.Ok? ==>
        && State() == AfterLink(old(State()), r.value)
        && r.value !in old(users.users) && r.value == old(users.nextId)
        && users.users == old(users.users)[r.value := NewUser(r.value, users.normalizeEmail(applicant.email), InternExtras(applicant))]
        && users.profiles == old(users.profiles)[r.value := InternProfile(applicant)]
        && users.nextId == old(users.nextId) + 1
    {
      var created := users.CreateUser(applicant.email, password, InternExtras(applicant));
      if created.Err? {
        return Err(AccountFailed(created.error));
      }
      var id := created.value;
      var added := users.profiles;
      users.profiles := added[id := InternProfile(applicant)];
      assert users.profiles == old(users.profiles)[id := InternProfile(applicant)];
      createdIntern := Some(id);
      status := InternCreated;
      r := Ok(id);
    }
  }

  /** The statuses of a list of applications, in order. */
  function Statuses(apps: seq<InternshipApplication>): (r: seq<Status>)
    reads apps
    ensures |r| == |apps| && forall i :: 0 <= i < |apps| ==> r[i] == apps[i].status
  {
    if apps == [] then [] else Statuses(apps[..|apps| - 1]) + [apps[|apps| - 1].status]
  }

  /** How many of `statuses` equal `st`. */
  function CountStatus(statuses: seq<Status>, st: Status): (n: nat)
    ensures n <= |statuses|
    ensures n == 0 <==> st !in statuses
  {
    if statuses == [] then 0
    else CountStatus(statuses[..|statuses| - 1], st) + (if statuses[|statuses| - 1] == st then 1 else 0)
  }

  /** Every application has exactly one of the four statuses, so the four counts add up to the total. */
  lemma {:induction false} StatusPartition(statuses: seq<Status>)
    ensures |statuses| == CountStatus(statuses, Pending) + CountStatus(statuses, Approved)
                          + CountStatus(statuses, Rejected) + CountStatus(statuses, InternCreated)
  {
    if statuses != [] {
      StatusPartition(statuses[..|statuses| - 1]);
    }
  }

  /** Rows are told apart by primary key (so the same object never appears twice). */
  predicate DistinctRows(apps: seq<InternshipApplication>) {
    forall i, j :: 0 <= i < j < |apps| ==> apps[i].pk != apps[j].pk
  }

  /** A row with a distinct key is a distinct object from every other row. */
  lemma OthersDiffer(apps: seq<InternshipApplication>, i: nat)
    requires DistinctRows(apps) && i < |apps|
    ensures forall j :: 0 <= j < |apps| && j != i ==> apps[j] != apps[i]
  {
    forall j | 0 <= j < |apps| && j != i
      ensures apps[j] != apps[i]
    {
      if i < j { assert apps[i].pk != apps[j].pk; } else { assert apps[j].pk != apps[i].pk; }
    }
  }

  /** `unique_together = ['email', 'internship']`: one application per email and internship. */
  predicate OnePerEmailAndInternship(apps: seq<InternshipApplication>) {
    forall i, j :: 0 <= i < j < |apps| ==>
      apps[i].applicant.email != apps[j].applicant.email || apps[i].internship != apps[j].internship
  }

  /** `created_intern` is one-to-one: no user is linked to two applications. */
  predicate OneApplicationPerIntern(apps: seq<InternshipApplication>)
    reads apps
  {
    forall i, j :: 0 <= i < j < |apps| && apps[i].createdIntern.Some? ==> apps[i].createdIntern != apps[j].createdIntern
  }
}
