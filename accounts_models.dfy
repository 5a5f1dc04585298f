/**
 * Users of the Django side: roles, the approval flag, the capability predicates built on
 * them, and the user manager (`create_user`, `create_superuser`) over the user table.
 * Every user row gets a profile row when it is created (the post-save signal).
 */
module Accounts {
  import opened Wrappers
  import Text

  /** The `role` column. Its declared choices, plus any other text a row may hold. */
  datatype Role = Admin | Supervisor | Intern | Other

  datatype User = User(
    id: int,
    email: string,
    username: Option<string>,
    firstName: string,
    lastName: string,
    phone: string,
    role: Role,
    isApproved: bool,
    isActive: bool,
    isStaff: bool,
    isSuperuser: bool)
  {
    predicate IsAdmin() { role == Admin }
    predicate IsSupervisor() { role == Supervisor }
    predicate IsIntern() { role == Intern }

    predicate CanAccessAdmin() { IsAdmin() && isApproved }
    predicate CanSupervise() { IsSupervisor() && isApproved }
    predicate CanSubmitReports() { IsIntern() && isApproved }

    /** `f"{first_name} {last_name}".strip()` */
    function FullName(): string { Text.Strip(firstName + " " + lastName) }
  }

  /** The extended profile every user owns (contact, education, professional, social links). */
  datatype Profile = Profile(
    address: string, city: string, country: string, postalCode: string,
    institution: string, fieldOfStudy: string, academicLevel: string,
    department: string, position: string, experienceYears: Option<nat>,
    linkedinUrl: string, githubUrl: string, portfolioUrl: string)

  /** The profile the post-save signal creates: every field at its blank default. */
  const EmptyProfile := Profile("", "", "", "", "", "", "", "", "", None, "", "", "")

  /** The keyword arguments `create_user` forwards to the model; `None` means not passed. */
  datatype ExtraFields = ExtraFields(
    username: Option<string>,
    firstName: Option<string>,
    lastName: Option<string>,
    phone: Option<string>,
    role: Option<Role>,
    isApproved: Option<bool>,
    isActive: Option<bool>,
    isStaff: Option<bool>,
    isSuperuser: Option<bool>)

  const NoExtras := ExtraFields(None, None, None, None, None, None, None, None, None)

  datatype UserError = EmptyEmail | DuplicateEmail | NotStaff | NotSuperuser
  {
    /** The text of the raised exception (the database's own text for a duplicate is not modelled). */
    function Message(): string {
      match this
      case EmptyEmail => "The Email field must be set"
      case DuplicateEmail => "duplicate key value violates unique constraint on email"
      case NotStaff => "Superuser must have is_staff=True."
      case NotSuperuser => "Superuser must have is_superuser=True."
    }
  }

  /**
   * The row `self.model(email=email, **extra_fields)` builds: each field not passed
   * takes the model's default. With nothing passed the user is an unapproved, active
   * intern without staff or superuser status, and so holds no capability.
   */
  function NewUser(id: int, email: string, extra: ExtraFields): (u: User)
    ensures u.id == id && u.email == email
    ensures extra == NoExtras ==>
      u.role == Intern && !u.isApproved && u.isActive && !u.isStaff && !u.isSuperuser
      && !u.CanAccessAdmin() && !u.CanSupervise() && !u.CanSubmitReports()
  {
    User(id, email, extra.username,
         extra.firstName.GetOr(""), extra.lastName.GetOr(""), extra.phone.GetOr(""),
         extra.role.GetOr(Intern), extra.isApproved.GetOr(false), extra.isActive.GetOr(true),
         extra.isStaff.GetOr(false), extra.isSuperuser.GetOr(false))
  }

  /**
   * The keyword arguments after `create_superuser`'s four `setdefault` calls: a value the
   * caller gave is kept, a missing `is_staff`, `is_superuser` or `is_approved` becomes true
   * and a missing role becomes admin; no other argument changes.
   */
  function SuperuserFields(extra: ExtraFields): (f: ExtraFields)
    ensures f.(isStaff := extra.isStaff, isSuperuser := extra.isSuperuser,
               isApproved := extra.isApproved, role := extra.role) == extra
    ensures f.isStaff == (if extra.isStaff.Some? then extra.isStaff else Some(true))
    ensures f.isSuperuser == (if extra.isSuperuser.Some? then extra.isSuperuser else Some(true))
    ensures f.isApproved == (if extra.isApproved.Some? then extra.isApproved else Some(true))
    ensures f.role == (if extra.role.Some? then extra.role else Some(Admin))
  {
    extra.(
      isStaff := Some(extra.isStaff.GetOr(true)),
      isSuperuser := Some(extra.isSuperuser.GetOr(true)),
      isApproved := Some(extra.isApproved.GetOr(true)),
      role := Some(extra.role.GetOr(Admin)))
  }

  /** `email` is declared unique: no two rows share one. */
  ghost predicate EmailsUnique(users: map<int, User>) {
    forall a, b | a in users && b in users && users[a].email == users[b].email :: a == b
  }

  predicate EmailTaken(users: map<int, User>, email: string) {
    exists id :: id in users && users[id].email == email
  }

  /** The three role predicates exclude each other, and one of them holds for every declared role. */
  lemma RolePredicatesExclusive(u: User)
    ensures !(u.IsAdmin() && u.IsSupervisor()) && !(u.IsAdmin() && u.IsIntern())
    ensures !(u.IsSupervisor() && u.IsIntern())
    ensures u.IsAdmin() || u.IsSupervisor() || u.IsIntern() <==> u.role != Other
  {
  }

  /**
   * At most one capability holds for any user; an unapproved user has none, and an
   * approved user with a declared role has exactly the one its role names.
   */
  lemma CapabilitiesExclusive(u: User)
    ensures !(u.CanAccessAdmin() && u.CanSupervise()) && !(u.CanAccessAdmin() && u.CanSubmitReports())
    ensures !(u.CanSupervise() && u.CanSubmitReports())
    ensures !u.isApproved ==> !u.CanAccessAdmin() && !u.CanSupervise() && !u.CanSubmitReports()
    ensures u.isApproved && u.role != Other ==> u.CanAccessAdmin() || u.CanSupervise() || u.CanSubmitReports()
  {
  }

  /** The full name of a user whose two name parts are trimmed is the two joined by a space. */
  lemma FullNameOfTrimmedParts(u: User)
    requires Text.Trimmed(u.firstName) && Text.Trimmed(u.lastName)
    ensures u.FullName() == u.firstName + " " + u.lastName
  {
    Text.JoinedNameStrip(u.firstName, u.lastName);
  }

  /** The user table, with the profile table the post-save signal keeps in step with it. */
  class UserTable {
    var users: map<int, User>
    var profiles: map<int, Profile>
    var nextId: int
    /** `BaseUserManager.normalize_email`, a library call kept abstract. */
    const normalizeEmail: string -> string

    ghost predicate Valid()
      reads this
    {
      && 0 < nextId
      && (forall id | id in users :: users[id].id == id && 0 < id < nextId)
      && profiles.Keys <= users.Keys
      && EmailsUnique(users)
    }

    constructor (normalize: string -> string)
      ensures Valid() && users == map[] && profiles == map[] && normalizeEmail == normalize
    {
      users, profiles, nextId := map[], map[], 1;
      normalizeEmail := normalize;
    }

    /**
     * `UserManager.create_user`: an empty email raises, an email already in use breaks the
     * unique constraint; otherwise one user row (with its empty profile) is added under a
     * fresh id. On failure nothing changes. The password is hashed into a column this model
     * does not keep.
     */
    method CreateUser(email: string, password: string, extra: ExtraFields) returns (r: Result<int, UserError>)
      requires Valid()
      modifies this
      ensures Valid()
      ensures email == "" ==> r == Err(EmptyEmail)
      ensures email != "" && EmailTaken(old(users), normalizeEmail(email)) ==> r == Err(DuplicateEmail)
      ensures r.Ok? <==> email != "" && !EmailTaken(old(users), normalizeEmail(email))
      ensures r.Err? ==> users == old(users) && profiles == old(profiles) && nextId == old(nextId)
      ensures r.Ok? ==>
        && email != "" && !EmailTaken(old(users), normalizeEmail(email))
        && r.value == old(nextId) && r.value !in old(users)
        && users == old(users)[r.value := NewUser(r.value, normalizeEmail(email), extra)]
        && profiles == old(profiles)[r.value := EmptyProfile]
        && nextId == old(nextId) + 1
    {
      if email == "" {
        return Err(EmptyEmail);
      }
      var normalized := normalizeEmail(email);
      if EmailTaken(users, normalized) {
        return Err(DuplicateEmail);
      }
      var id := nextId;
      users := users[id := NewUser(id, normalized, extra)];
      profiles := profiles[id := EmptyProfile];
      nextId := nextId + 1;
      r := Ok(id);
    }

    /**
     * `UserManager.create_superuser`: `is_staff`, `is_superuser` and `is_approved` default to
     * true and `role` to admin; an explicit false for `is_staff` or `is_superuser` raises
     * before any row is written. Past those checks it is `create_user` with the completed
     * fields: an empty or taken email raises, and otherwise one staff superuser is added under
     * the next id, with a blank profile.
     */
    method CreateSuperuser(email: string, password: string, extra: ExtraFields) returns (r: Result<int, UserError>)
      requires Valid()
      modifies this
      ensures Valid()
      ensures extra.isStaff == Some(false) ==> r == Err(NotStaff)
      ensures extra.isStaff != Some(false) && extra.isSuperuser == Some(false) ==> r == Err(NotSuperuser)
      ensures r.Ok? <==>
        && extra.isStaff != Some(false) && extra.isSuperuser != Some(false)
        && email != "" && !EmailTaken(old(users), normalizeEmail(email))
      ensures r.Err? ==> users == old(users) && profiles == old(profiles) && nextId == old(nextId)
      ensures r.Ok? ==>
        && r.value == old(nextId) && r.value !in old(users)
        && users == old(users)[r.value := NewUser(r.value, normalizeEmail(email), SuperuserFields(extra))]
        && profiles == old(profiles)[r.value := EmptyProfile]
        && nextId == old(nextId) + 1
      ensures r.Ok? ==>
        && users[r.value].isStaff && users[r.value].isSuperuser
        && users[r.value].isApproved == extra.isApproved.GetOr(true)
        && users[r.value].role == extra.role.GetOr(Admin)
        && users[r.value].email == normalizeEmail(email)
    {
      var fields := SuperuserFields(extra);
      if fields.isStaff != Some(true) {
        assert extra.isStaff.GetOr(true) == false;
        return Err(NotStaff);
      }
      if fields.isSuperuser != Some(true) {
        assert extra.isSuperuser.GetOr(true) == false;
        return Err(NotSuperuser);
      }
      r := CreateUser(email, password, fields);
    }

    /**
     * `Profile.objects.get_or_create(user=...)`: the user's profile, created blank when
     * the row is missing. Nothing else changes.
     */
    method ProfileFor(uid: int) returns (p: Profile)
      requires Valid() && uid in users
      modifies this`profiles
      ensures Valid() && uid in profiles && p == profiles[uid]
      ensures uid in old(profiles) ==> profiles == old(profiles)
      ensures uid !in old(profiles) ==> p == EmptyProfile && profiles == old(profiles)[uid := EmptyProfile]
    {
      if uid !in profiles {
        profiles := profiles[uid := EmptyProfile];
      }
      p := profiles[uid];
    }
  }
}
