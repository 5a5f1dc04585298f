/**
 * The internship catalog: an internship's fields and defaults, the application counts
 * derived from its applications, whether it still accepts applications, the salary text,
 * and the one-requirement-per-skill rule.
 */
module Internships {
  import opened Wrappers
  import opened Applications

  datatype InternshipType = Paid | Unpaid | Stipend

  /** The duration choices: 1-3, 3-6, 6-12 and 12+ months. */
  datatype Duration = OneToThree | ThreeToSix | SixToTwelve | OverTwelve

  /**
   * One internship row. Dates are day numbers; `salaryAmount` is the decimal amount in
   * hundredths (two decimal places), absent when the column is null.
   */
  datatype Internship = Internship(
    id: int,
    title: string,
    description: string,
    requirements: string,
    responsibilities: string,
    department: string,
    location: string,
    kind: InternshipType,
    duration: Duration,
    salaryAmount: Option<int>,
    benefits: string,
    applicationDeadline: int,
    startDate: int,
    endDate: int,
    maxApplicants: nat,
    supervisor: Option<int>,
    isActive: bool,
    isFeatured: bool,
    createdBy: int)
  {
    /** `is_paid`: only the paid type counts; a stipend does not. */
    predicate IsPaid() { kind == Paid }

    /**
     * `is_application_open` on day `today`: active, deadline not yet passed (the deadline
     * day itself is open), and room left. `count` stands for `application_count`, the number
     * of applications of every status linked to this internship (`self.applications.count()`).
     */
    function IsApplicationOpen(today: int, count: nat): (open: bool)
      ensures open ==> isActive && today <= applicationDeadline && count < maxApplicants
      ensures count >= maxApplicants ==> !open
      ensures isActive && today <= applicationDeadline && count < maxApplicants ==> open
    {
      isActive && applicationDeadline >= today && count < maxApplicants
    }
  }

  /** A new internship with only the columns that have no default given. */
  function NewInternship(id: int, title: string, description: string, requirements: string,
                         responsibilities: string, department: string, location: string,
                         deadline: int, start: int, end: int, createdBy: int): (r: Internship)
    ensures r.kind == Unpaid && !r.IsPaid()
    ensures r.duration == ThreeToSix && r.maxApplicants == 50
    ensures r.isActive && !r.isFeatured
    ensures r.salaryAmount.None? && r.supervisor.None? && r.benefits == ""
    ensures r.id == id && r.applicationDeadline == deadline && r.startDate == start && r.endDate == end
  {
    Internship(id, title, description, requirements, responsibilities, department, location,
               Unpaid, ThreeToSix, None, "", deadline, start, end, 50, None, true, false, createdBy)
  }

  /** A new internship with fewer than 50 applications is open exactly up to its deadline day. */
  lemma NewInternshipOpenUntilDeadline(i: Internship, today: int, count: nat)
    requires i == NewInternship(i.id, i.title, i.description, i.requirements, i.responsibilities,
                                i.department, i.location, i.applicationDeadline, i.startDate,
                                i.endDate, i.createdBy)
    requires count < 50
    ensures i.IsApplicationOpen(today, count) <==> today <= i.applicationDeadline
  {
  }

  /** Closing is for good: an internship closed today stays closed later and with more applications. */
  lemma ClosedStaysClosed(i: Internship, today: int, count: nat, later: int, more: nat)
    requires today <= later && count <= more
    requires !i.IsApplicationOpen(today, count)
    ensures !i.IsApplicationOpen(later, more)
  {
  }

  /** `pending_applications_count`, over the statuses of the internship's applications. */
  function PendingCount(statuses: seq<Status>): (n: nat)
    ensures n <= |statuses|
  {
    CountStatus(statuses, Pending)
  }

  /** `approved_applications_count`: approved only, so intern_created applications are not in it. */
  function ApprovedCount(statuses: seq<Status>): (n: nat)
    ensures n <= |statuses|
  {
    CountStatus(statuses, Approved)
  }

  /**
   * Pending and approved together never exceed `application_count`, and reach it exactly when
   * no application is rejected or linked to an intern.
   */
  lemma CountsBounded(statuses: seq<Status>)
    ensures PendingCount(statuses) + ApprovedCount(statuses) <= |statuses|
    ensures PendingCount(statuses) + ApprovedCount(statuses) == |statuses|
            <==> Rejected !in statuses && InternCreated !in statuses
  {
    StatusPartition(statuses);
  }

  /** Changing one application's status moves exactly that one between the counts. */
  lemma {:induction false} CountAfterUpdate(statuses: seq<Status>, k: nat, v: Status, st: Status)
    requires k < |statuses|
    ensures CountStatus(statuses[k := v], st) + (if statuses[k] == st then 1 else 0)
            == CountStatus(statuses, st) + (if v == st then 1 else 0)
  {
    var n := |statuses| - 1;
    if k < n {
      CountAfterUpdate(statuses[..n], k, v, st);
      assert statuses[k := v][..n] == statuses[..n][k := v];
    } else {
      assert statuses[k := v][..n] == statuses[..n];
    }
  }

  /**
   * Creating the intern account of an approved application takes it out of the approved
   * count, since intern_created is a status of its own; the total is unchanged.
   */
  lemma LinkingLeavesApproved(statuses: seq<Status>, k: nat)
    requires k < |statuses| && statuses[k] == Approved
    ensures ApprovedCount(statuses[k := InternCreated]) == ApprovedCount(statuses) - 1
    ensures PendingCount(statuses[k := InternCreated]) == PendingCount(statuses)
    ensures |statuses[k := InternCreated]| == |statuses|
  {
    CountAfterUpdate(statuses, k, InternCreated, Approved);
    CountAfterUpdate(statuses, k, InternCreated, Pending);
  }

  /**
   * `get_salary_display`: a null or zero amount reads "Not specified"; any other amount is
   * written by the locale formatter `format` and followed by the currency and period.
   */
  function SalaryDisplay(salary: Option<int>, format: int -> string): (r: string)
    ensures salary.None? || salary.value == 0 ==> r == "Not specified"
    ensures salary.Some? && salary.value != 0 ==> r == format(salary.value) + " CFA/month"
  {
    if salary.Some? && salary.value != 0 then format(salary.value) + " CFA/month" else "Not specified"
  }

  /** The two texts cannot be confused: "Not specified" appears exactly when there is no amount. */
  lemma SalaryDisplayDistinguishes(salary: Option<int>, format: int -> string)
    ensures SalaryDisplay(salary, format) == "Not specified" <==> salary.None? || salary.value == 0
  {
    if salary.Some? && salary.value != 0 {
      var r := SalaryDisplay(salary, format);
      assert r[|r| - 1] == 'h';
    }
  }

  datatype SkillLevel = Beginner | Intermediate | Advanced | Expert

  /** A skill an internship asks for; new requirements are at beginner level and required. */
  datatype SkillRequirement = SkillRequirement(internship: int, skill: int, level: SkillLevel, isRequired: bool)

  /** `unique_together = ['internship', 'skill']`. */
  predicate OneRequirementPerSkill(reqs: seq<SkillRequirement>) {
    forall a, b :: 0 <= a < b < |reqs| ==>
      reqs[a].internship != reqs[b].internship || reqs[a].skill != reqs[b].skill
  }

  /** Whether the internship already lists the skill. */
  predicate Lists(reqs: seq<SkillRequirement>, internship: int, skill: int) {
    exists a :: 0 <= a < |reqs| && reqs[a].internship == internship && reqs[a].skill == skill
  }

  /** Inserting a requirement: refused when the pair is already listed, appended otherwise. */
  function AddRequirement(reqs: seq<SkillRequirement>, r: SkillRequirement): (res: Option<seq<SkillRequirement>>)
    ensures res.None? <==> Lists(reqs, r.internship, r.skill)
    ensures res.Some? ==> res.value == reqs + [r]
    ensures res.Some? && OneRequirementPerSkill(reqs) ==> OneRequirementPerSkill(res.value)
  {
    if exists a :: 0 <= a < |reqs| && reqs[a].internship == r.internship && reqs[a].skill == r.skill then None
    else
      var out := reqs + [r];
      assert forall a :: 0 <= a < |reqs| ==> out[a] == reqs[a];
      Some(out)
  }

  /** The catalog of internships, keyed by id; the admin's bulk actions update it in place. */
  class Catalog {
    var internships: map<int, Internship>

    ghost predicate Valid()
      reads this
    {
      forall id | id in internships :: internships[id].id == id
    }

    constructor ()
      ensures Valid() && internships == map[]
    {
      internships := map[];
    }
  }
}
