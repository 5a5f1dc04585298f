/**
 * `InternshipApplicationForm`: which fields are required, the per-field cleaners for the
 * email and the CV, and the unique (email, internship) check the model form adds after
 * the fields are cleaned.
 */
module ApplicationForms {
  import opened Wrappers
  import opened Applications

  datatype ApplicationField =
    | FirstName | LastName | Email | Phone
    | Address | City | Country | PostalCode
    | Institution | FieldOfStudy | AcademicLevel | GraduationYear | Gpa
    | InternshipChoice
    | CvResume | CoverLetter | Transcript
    | MotivationLetter | PreviousExperience | Skills
    | AvailableStartDate | DurationMonths

  /** `Meta.fields`, the order in which the form cleans its fields. */
  const FieldOrder: seq<ApplicationField> := [
    FirstName, LastName, Email, Phone,
    Address, City, Country, PostalCode,
    Institution, FieldOfStudy, AcademicLevel, GraduationYear, Gpa,
    InternshipChoice,
    CvResume, CoverLetter, Transcript,
    MotivationLetter, PreviousExperience, Skills,
    AvailableStartDate, DurationMonths]

  /** The fields `__init__` marks required; the rest stay optional. */
  const RequiredFields: set<ApplicationField> := {
    FirstName, LastName, Email, Phone,
    Address, City, Country,
    Institution, FieldOfStudy, AcademicLevel, GraduationYear,
    InternshipChoice, CvResume, MotivationLetter, AvailableStartDate, DurationMonths }

  /** The CV ceiling: 5 MiB. */
  const MaxCvBytes: nat := 5 * 1024 * 1024

  /** The fields already in `cleaned_data` when the cleaner of `f` runs: `f` and those before it. */
  function CleanedBy(f: ApplicationField): (r: set<ApplicationField>)
    ensures f in r
  {
    OrderListsEveryField(f);
    var k := IndexIn(FieldOrder, f);
    set i | 0 <= i <= k :: FieldOrder[i]
  }

  lemma OrderListsEveryField(f: ApplicationField)
    ensures f in FieldOrder
  {
    match f
    case FirstName => case LastName => case Email => case Phone =>
    case Address => case City => case Country => case PostalCode =>
    case Institution => case FieldOfStudy => case AcademicLevel => case GraduationYear => case Gpa =>
    case InternshipChoice =>
    case CvResume => case CoverLetter => case Transcript =>
    case MotivationLetter => case PreviousExperience => case Skills =>
    case AvailableStartDate => case DurationMonths =>
  }

  function IndexIn(order: seq<ApplicationField>, f: ApplicationField): (k: nat)
    requires f in order
    ensures k < |order| && order[k] == f && f !in order[..k]
  {
    if order[0] == f then 0 else 1 + IndexIn(order[1..], f)
  }

  /**
   * `clean_email` runs third, before `internship` is cleaned, so the internship it reads
   * from `cleaned_data` is always absent.
   */
  lemma InternshipNotCleanedBeforeEmail()
    ensures InternshipChoice !in CleanedBy(Email)
  {
    OrderListsEveryField(Email);
    var k := IndexIn(FieldOrder, Email);
    assert FieldOrder[2] == Email;
    forall i | 0 <= i <= k
      ensures FieldOrder[i] != InternshipChoice
    {
      assert i == 0 || i == 1 || i == 2;
    }
  }

  /** Whether another row (not the one being edited) already holds this email and internship. */
  predicate AppliedBefore(apps: seq<InternshipApplication>, email: string, internship: int, editing: Option<int>) {
    exists i :: 0 <= i < |apps| && apps[i].applicant.email == email && apps[i].internship == internship
      && Some(apps[i].pk) != editing
  }

  /**
   * `clean_email`: with both an email and an internship in `cleaned_data`, an email
   * already used for that internship by another application is rejected; with either
   * absent the email passes unchecked.
   */
  function CleanEmail(email: Option<string>, internship: Option<int>, apps: seq<InternshipApplication>,
                      editing: Option<int>): (r: Result<Option<string>, string>)
    ensures r.Err? <==> email.Some? && email.value != "" && internship.Some?
                        && AppliedBefore(apps, email.value, internship.value, editing)
    ensures r.Ok? ==> r.value == email
  {
    if email.Some? && email.value != "" && internship.Some? then
      if AppliedBefore(apps, email.value, internship.value, editing) then
        Err("You have already applied for this internship with this email address.")
      else Ok(email)
    else Ok(email)
  }

  /** As the form calls it, `clean_email` never rejects: the internship is not cleaned yet. */
  lemma CleanEmailNeverFires(email: Option<string>, apps: seq<InternshipApplication>, editing: Option<int>)
    ensures CleanEmail(email, None, apps, editing) == Ok(email)
  {
  }

  /**
   * `clean_cv_resume`: a present file larger than 5 MiB is rejected, exactly 5 MiB is
   * accepted, and an absent file passes (the required flag reports it instead).
   */
  function CleanCvResume(cvSize: Option<nat>): (r: Result<Option<nat>, string>)
    ensures r.Err? <==> cvSize.Some? && cvSize.value > MaxCvBytes
    ensures r.Ok? ==> r.value == cvSize
  {
    if cvSize.Some? && cvSize.value > 5 * 1024 * 1024 then Err("File size must be less than 5MB.")
    else Ok(cvSize)
  }

  lemma CvCeilingBoundary()
    ensures CleanCvResume(Some(5242880)).Ok?
    ensures CleanCvResume(Some(5242881)).Err?
  {
  }

  /**
   * What was posted: the fields given a value, and the values the checks look at (each
   * meaningful only when its field is in `supplied`).
   */
  datatype Submission = Submission(supplied: set<ApplicationField>, email: string, internship: int, cvSize: nat)

  datatype FormError = Missing(field: ApplicationField) | CvEmpty | CvTooLarge | AlreadyApplied | NotUnique

  /**
   * The errors modelled of the bound form: each missing required field, an empty CV (a file
   * field refuses a zero-byte upload before any cleaner runs), the CV cleaner, the
   * email cleaner as called (internship not yet cleaned), and the model's unique check on
   * (email, internship), which runs only when both fields cleaned without error.
   */
  function FormErrors(sub: Submission, apps: seq<InternshipApplication>, editing: Option<int>): (errs: set<FormError>)
    ensures forall f :: Missing(f) in errs <==> f in RequiredFields && f !in sub.supplied
    ensures CvEmpty in errs <==> CvResume in sub.supplied && sub.cvSize == 0
    ensures CvTooLarge in errs <==> CvResume in sub.supplied && sub.cvSize > MaxCvBytes
    ensures AlreadyApplied !in errs
    ensures NotUnique in errs <==>
      Email in sub.supplied && InternshipChoice in sub.supplied
      && AppliedBefore(apps, sub.email, sub.internship, editing)
  {
    var email := if Email in sub.supplied then Some(sub.email) else None;
    var cv := if CvResume in sub.supplied then Some(sub.cvSize) else None;
    var missing := set f | f in RequiredFields && f !in sub.supplied :: Missing(f);
    var emptyErr: set<FormError> := if cv == Some(0) then {CvEmpty} else {};
    var cvErr: set<FormError> := if CleanCvResume(cv).Err? then {CvTooLarge} else {};
    assert CvTooLarge !in missing && CvEmpty !in missing;
    var emailErr: set<FormError> := if CleanEmail(email, None, apps, editing).Err? then {AlreadyApplied} else {};
    var uniqueErr: set<FormError> :=
      if Email in sub.supplied && InternshipChoice in sub.supplied
         && AppliedBefore(apps, sub.email, sub.internship, editing) then {NotUnique} else {};
    assert NotUnique !in missing && AlreadyApplied !in missing;
    CleanEmailNeverFires(email, apps, editing);
    missing + emptyErr + cvErr + emailErr + uniqueErr
  }

  /**
   * A submission the form accepts, saved as a new application, keeps the table free of
   * two applications with the same email and internship.
   */
  lemma AcceptedKeepsOnePerEmail(sub: Submission, apps: seq<InternshipApplication>, saved: InternshipApplication)
    requires OnePerEmailAndInternship(apps)
    requires FormErrors(sub, apps, None) == {}
    requires saved.applicant.email == sub.email && saved.internship == sub.internship
    ensures OnePerEmailAndInternship(apps + [saved])
  {
    assert Email in sub.supplied && InternshipChoice in sub.supplied by {
      assert Missing(Email) !in FormErrors(sub, apps, None);
      assert Missing(InternshipChoice) !in FormErrors(sub, apps, None);
    }
    var all := apps + [saved];
    forall i, j | 0 <= i < j < |all|
      ensures all[i].applicant.email != all[j].applicant.email || all[i].internship != all[j].internship
    {
      if j == |apps| {
        assert !AppliedBefore(apps, sub.email, sub.internship, None);
        assert all[i] == apps[i];
      }
    }
  }
}
