/**
 * The internship form: its required fields, the date-ordering check of `clean`, and the
 * users offered as supervisors. As written, `__init__` reads `settings`, a name the module
 * never imports, so the form cannot be built; the checks below are those of the form once
 * `settings` is imported.
 */
module InternshipForms {
  import opened Wrappers
  import opened Accounts

  /** The fields the form lists. */
  datatype InternshipField =
    | Title | Description | Requirements | Responsibilities | Department | Location
    | Type | Duration | SalaryAmount | Benefits
    | ApplicationDeadline | StartDate | EndDate | MaxApplicants
    | SupervisorField | IsActive | IsFeatured

  /**
   * The required fields: the six text fields and the three dates `__init__` marks required,
   * and the three the model declares without `blank=True` (type, duration, maximum
   * applicants), which a model form requires whatever their defaults.
   */
  const RequiredFields: set<InternshipField> :=
    {Title, Description, Requirements, Responsibilities, Department, Location,
     Type, Duration, MaxApplicants, ApplicationDeadline, StartDate, EndDate}

  const EndBeforeStart := "End date must be after start date."
  const DeadlineNotBeforeStart := "Application deadline must be before start date."

  /**
   * `InternshipForm.clean` over the dates that cleaned (absent when missing or invalid):
   * the end-date check runs first and its error wins; the deadline check needs the deadline
   * strictly before the start, so an equal day is refused.
   */
  function CleanDates(deadline: Option<int>, start: Option<int>, end: Option<int>): (r: Option<string>)
    ensures r == Some(EndBeforeStart) <==> start.Some? && end.Some? && start.value >= end.value
    ensures r == Some(DeadlineNotBeforeStart) <==>
      !(start.Some? && end.Some? && start.value >= end.value)
      && deadline.Some? && start.Some? && deadline.value >= start.value
    ensures r.None? || r == Some(EndBeforeStart) || r == Some(DeadlineNotBeforeStart)
  {
    if start.Some? && end.Some? && start.value >= end.value then Some(EndBeforeStart)
    else if deadline.Some? && start.Some? && deadline.value >= start.value then Some(DeadlineNotBeforeStart)
    else None
  }

  /** When all three dates are present and `clean` accepts them, deadline < start < end. */
  lemma CleanDatesOrders(deadline: int, start: int, end: int)
    ensures CleanDates(Some(deadline), Some(start), Some(end)).None? <==> deadline < start < end
  {
  }

  /** A form error: a missing required field, or the error `clean` raised. */
  datatype FormError = Missing(field: InternshipField) | DateOrder(message: string)

  /**
   * A submission: the non-date fields supplied, and each date as it cleaned. A date counts
   * as supplied exactly when it cleaned.
   */
  datatype Submission = Submission(supplied: set<InternshipField>,
                                   deadline: Option<int>, start: Option<int>, end: Option<int>)
  {
    predicate Has(f: InternshipField) {
      match f
      case ApplicationDeadline => deadline.Some?
      case StartDate => start.Some?
      case EndDate => end.Some?
      case _ => f in supplied
    }
  }

  /** The errors modelled of the form: one per missing required field, plus the one `clean` raised. */
  function FormErrors(sub: Submission): (errs: set<FormError>)
    ensures forall f :: Missing(f) in errs <==> f in RequiredFields && !sub.Has(f)
    ensures forall m :: DateOrder(m) in errs <==> CleanDates(sub.deadline, sub.start, sub.end) == Some(m)
  {
    var missing := set f | f in RequiredFields && !sub.Has(f) :: Missing(f);
    var clean := CleanDates(sub.deadline, sub.start, sub.end);
    if clean.Some? then missing + {DateOrder(clean.value)} else missing
  }

  /**
   * A form without errors has all three dates, in the order deadline < start < end, because
   * the dates are required.
   */
  lemma ValidFormIsOrdered(sub: Submission)
    requires FormErrors(sub) == {}
    ensures sub.deadline.Some? && sub.start.Some? && sub.end.Some?
    ensures sub.deadline.value < sub.start.value < sub.end.value
  {
    var errs := FormErrors(sub);
    assert Missing(ApplicationDeadline) !in errs && Missing(StartDate) !in errs && Missing(EndDate) !in errs;
    var clean := CleanDates(sub.deadline, sub.start, sub.end);
    assert clean.None?;
  }

  /** The exception raised when a name is read that the module never defined or imported. */
  datatype NameError = NameError(name: string)

  /** What a built form carries: the supervisors offered and the fields marked required. */
  datatype BuiltForm = BuiltForm(supervisors: set<int>, required: set<InternshipField>)

  /**
   * `InternshipForm(...)` as written: `__init__` narrows the supervisor queryset and marks
   * the required fields, then formats the salary help text with `settings.CURRENCY`; the
   * module imports no `settings`, so every construction raises NameError. The create and
   * update views build this form on every request, so `clean` never runs.
   */
  function ConstructAsWritten(users: map<int, User>): (r: Result<BuiltForm, NameError>)
    ensures r == Err(NameError("settings"))
  {
    Err(NameError("settings"))
  }

  /** The form with `settings` imported: built with the supervisor choices and the required fields. */
  function ConstructRepaired(users: map<int, User>): (r: Result<BuiltForm, NameError>)
    ensures r.Ok? && r.value.required == RequiredFields
    ensures forall id :: id in r.value.supervisors <==> id in users && users[id].CanSupervise() && users[id].isActive
  {
    Ok(BuiltForm(SupervisorChoices(users), RequiredFields))
  }

  /**
   * As written no submission is ever validated: construction raises for every user table,
   * while the repaired form accepts a complete submission with well-ordered dates.
   */
  lemma FormNeverBuilt(users: map<int, User>, deadline: int, start: int, end: int)
    requires deadline < start < end
    ensures ConstructAsWritten(users).Err? && ConstructRepaired(users).Ok?
    ensures FormErrors(Submission(RequiredFields, Some(deadline), Some(start), Some(end))) == {}
  {
    var sub := Submission(RequiredFields, Some(deadline), Some(start), Some(end));
    forall f | f in RequiredFields ensures sub.Has(f) { }
    CleanDatesOrders(deadline, start, end);
    assert forall e :: e !in FormErrors(sub);
  }

  /** The users the supervisor field offers: role supervisor, approved and active. */
  function SupervisorChoices(users: map<int, User>): (r: set<int>)
    ensures r <= users.Keys
    ensures forall id | id in r :: users[id].CanSupervise() && users[id].isActive
  {
    set id | id in users && users[id].role == Supervisor && users[id].isApproved && users[id].isActive
  }

  /** Exactly the active users able to supervise are offered. */
  lemma SupervisorChoicesExact(users: map<int, User>, id: int)
    requires id in users
    ensures id in SupervisorChoices(users) <==> users[id].CanSupervise() && users[id].isActive
  {
  }
}
