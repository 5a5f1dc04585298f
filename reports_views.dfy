/**
 * The report views: the intern and supervisor gates, the querysets that scope what each
 * caller may list, view, edit, delete or review, the submit and review POST handlers, the
 * supervisor's statistics, and the evaluation views.
 */
module ReportViews {
  import opened Wrappers
  import opened Clock
  import opened Accounts
  import opened Applications
  import opened Reports
  import opened ReportForms
  import ApplicationViews

  /**
   * `InternRequiredMixin` / `SupervisorRequiredMixin`: an anonymous caller is sent to log in,
   * a logged-in caller of another role gets 403. Only the role is tested, never the approval flag.
   */
  function RoleGate(caller: Option<User>, role: Role): (d: Option<ApplicationViews.Denial>)
    ensures d.None? <==> caller.Some? && caller.value.role == role
    ensures d == Some(ApplicationViews.LoginRedirect) <==> caller.None?
  {
    if caller.None? then Some(ApplicationViews.LoginRedirect)
    else if caller.value.role != role then Some(ApplicationViews.Forbidden)
    else None
  }

  /**
   * The report views let in interns and supervisors who are not approved, who lack the
   * matching capability.
   */
  lemma GateIgnoresApproval(u: User)
    requires !u.isApproved
    ensures u.IsIntern() ==> RoleGate(Some(u), Intern).None? && !u.CanSubmitReports()
    ensures u.IsSupervisor() ==> RoleGate(Some(u), Supervisor).None? && !u.CanSupervise()
  {
  }

  /** `ReportListView` / `ReportDetailView`: the positions of the caller's own reports. */
  function OwnReports(reports: seq<InternReport>, user: int): (r: set<nat>)
    ensures forall i: nat :: i in r <==> i < |reports| && reports[i].intern == user
  {
    set i: nat | i < |reports| && reports[i].intern == user
  }

  /** `ReportUpdateView` and `SubmitReportView`: own reports in draft or needs_revision. */
  function EditableReports(reports: seq<InternReport>, user: int): (r: set<nat>)
    reads reports
    ensures forall i: nat :: i in r <==>
      i < |reports| && reports[i].intern == user && reports[i].status in {Draft, NeedsRevision}
  {
    set i: nat | i < |reports| && reports[i].intern == user && reports[i].status in {Draft, NeedsRevision}
  }

  /** `ReportDeleteView`: own drafts only. */
  function DeletableReports(reports: seq<InternReport>, user: int): (r: set<nat>)
    reads reports
    ensures forall i: nat :: i in r <==> i < |reports| && reports[i].intern == user && reports[i].status == Draft
  {
    set i: nat | i < |reports| && reports[i].intern == user && reports[i].status == Draft
  }

  /**
   * The intern scopes nest (delete within edit within own), none reaches a report that is
   * submitted, under review or reviewed, and two interns never share a report.
   */
  lemma InternScopesNest(reports: seq<InternReport>, user: int, other: int)
    requires user != other
    ensures DeletableReports(reports, user) <= EditableReports(reports, user) <= OwnReports(reports, user)
    ensures forall i | i in EditableReports(reports, user) :: !IsSubmitted(reports[i].State())
    ensures OwnReports(reports, user) !! OwnReports(reports, other)
  {
    var del, ed, own := DeletableReports(reports, user), EditableReports(reports, user), OwnReports(reports, user);
    forall i | i in del ensures i in ed { }
    forall i | i in ed ensures i in own { }
    forall i | i in own ensures i !in OwnReports(reports, other) { }
  }

  /** The reports a supervisor sees: those on an internship they supervise. */
  function SupervisedReports(reports: seq<InternReport>, supervised: set<int>): (r: set<nat>)
    ensures forall i: nat :: i in r <==> i < |reports| && reports[i].internship in supervised
  {
    set i: nat | i < |reports| && reports[i].internship in supervised
  }

  /**
   * `SupervisorReportListView.get_queryset`: the supervised reports, narrowed to the status
   * text `status` when one is given and non-empty; an empty text is no filter.
   */
  function StatusFiltered(reports: seq<InternReport>, supervised: set<int>, status: Option<string>): (r: set<nat>)
    reads reports
    ensures r <= SupervisedReports(reports, supervised)
    ensures status.None? || status.value == "" ==> r == SupervisedReports(reports, supervised)
    ensures status.Some? && status.value != "" ==>
      forall i :: i in r <==> i in SupervisedReports(reports, supervised) && StatusCode(reports[i].status) == status.value
  {
    var all := SupervisedReports(reports, supervised);
    if status.None? || status.value == "" then all
    else set i | i in all && StatusCode(reports[i].status) == status.value
  }

  /** Distinct statuses are stored under distinct texts. */
  lemma StatusCodeInjective(a: ReportStatus, b: ReportStatus)
    requires StatusCode(a) == StatusCode(b)
    ensures a == b
  {
  }

  /**
   * Filtering by a status's text keeps exactly the supervised reports in that status; a text
   * that names no status keeps nothing.
   */
  lemma StatusFilterExact(reports: seq<InternReport>, supervised: set<int>, st: ReportStatus, bogus: string)
    requires bogus != "" && forall s: ReportStatus :: StatusCode(s) != bogus
    ensures forall i :: i in StatusFiltered(reports, supervised, Some(StatusCode(st))) <==>
      i in SupervisedReports(reports, supervised) && reports[i].status == st
    ensures StatusFiltered(reports, supervised, Some(bogus)) == {}
  {
    var r := StatusFiltered(reports, supervised, Some(StatusCode(st)));
    forall i | i in r ensures reports[i].status == st {
      StatusCodeInjective(reports[i].status, st);
    }
    forall i | i in SupervisedReports(reports, supervised)
      ensures StatusCode(reports[i].status) != bogus
    {
    }
  }

  /** How many of `statuses` equal `st`. */
  function CountReports(statuses: seq<ReportStatus>, st: ReportStatus): (n: nat)
    ensures n <= |statuses|
  {
    if statuses == [] then 0
    else CountReports(statuses[..|statuses| - 1], st) + (if statuses[|statuses| - 1] == st then 1 else 0)
  }

  /** The statistics of the supervisor's list page. */
  datatype ReportStats = ReportStats(total: nat, pending: nat, underReview: nat, reviewed: nat, needsRevision: nat)

  /** `get_context_data`'s stats over the statuses of the supervised reports; "pending" means submitted. */
  function SupervisorStats(statuses: seq<ReportStatus>): (s: ReportStats)
    ensures s.total == |statuses|
    ensures s.pending == CountReports(statuses, Submitted) && s.underReview == CountReports(statuses, UnderReview)
    ensures s.reviewed == CountReports(statuses, Reviewed) && s.needsRevision == CountReports(statuses, NeedsRevision)
  {
    ReportStats(|statuses|, CountReports(statuses, Submitted), CountReports(statuses, UnderReview),
                CountReports(statuses, Reviewed), CountReports(statuses, NeedsRevision))
  }

  /**
   * The four counters miss exactly the drafts: the total is their sum plus the number of
   * drafts, so the counters add up to the total only when no supervised report is a draft.
   */
  lemma {:induction false} StatsMissDrafts(statuses: seq<ReportStatus>)
    ensures var s := SupervisorStats(statuses);
      s.total == s.pending + s.underReview + s.reviewed + s.needsRevision + CountReports(statuses, Draft)
    ensures var s := SupervisorStats(statuses);
      s.total == s.pending + s.underReview + s.reviewed + s.needsRevision <==> Draft !in statuses
    decreases |statuses|
  {
    if statuses != [] {
      var n := |statuses| - 1;
      StatsMissDrafts(statuses[..n]);
      assert statuses == statuses[..n] + [statuses[n]];
      assert Draft in statuses <==> Draft in statuses[..n] || statuses[n] == Draft;
    }
  }

  /** `get_object_or_404` by primary key: the position of the report with key `pk`. */
  function FindReport(reports: seq<InternReport>, pk: int): (r: Option<nat>)
    ensures r.Some? ==> r.value < |reports| && reports[r.value].pk == pk
    ensures r.None? <==> forall i :: 0 <= i < |reports| ==> reports[i].pk != pk
  {
    if reports == [] then None
    else if reports[0].pk == pk then Some(0)
    else match FindReport(reports[1..], pk)
      case None => None
      case Some(k) => Some(k + 1)
  }

  /**
   * `get_object_or_404` on a filtered queryset: the report with key `pk` when it lies within
   * `scope`, otherwise "not found", even when a report with that key exists outside it.
   */
  function Lookup(reports: seq<InternReport>, pk: int, scope: set<nat>): (r: Option<nat>)
    requires DistinctReports(reports)
    ensures r.Some? ==> r.value < |reports| && r.value in scope && reports[r.value].pk == pk
    ensures r.None? <==> forall i :: i in scope && i < |reports| ==> reports[i].pk != pk
  {
    match FindReport(reports, pk)
    case None => None
    case Some(k) => if k in scope then Some(k) else None
  }

  /**
   * What a POST handler answers: turned away, 404, a redirect to the report with a message,
   * or a server error for an exception the handler does not catch.
   */
  datatype Response =
    | Denied(denial: ApplicationViews.Denial)
    | NotFound
    | Redirect(pk: int, flash: ApplicationViews.Flash)
    | ServerError(error: AttributeError)
    | StorageError(fault: IntegrityError)

  function SubmittedMessage(title: string): string {
    "Report \"" + title + "\" has been submitted for review!"
  }

  function ReviewCompletedMessage(title: string): string {
    "Review completed for \"" + title + "\""
  }

  function RevisionRequestedMessage(title: string): string {
    "Revision requested for \"" + title + "\""
  }

  function InvalidReviewMessage(): string {
    "Please correct the errors in the form."
  }

  /**
   * `SubmitReportView.post` as written: behind the intern gate, the caller's own report with
   * key `pk` in draft or needs_revision, else 404. Then `submit()`: on a draft it raises at the
   * clock call, so the answer is a server error; a report sent back is left in needs_revision
   * and the success message is shown. No report is saved either way.
   */
  method SubmitReportView(caller: Option<User>, reports: seq<InternReport>, pk: int) returns (resp: Response)
    requires DistinctReports(reports)
    ensures RoleGate(caller, Intern).Some? ==> resp == Denied(RoleGate(caller, Intern).value)
    ensures resp == ServerError(TimezoneMissing) <==> (RoleGate(caller, Intern).None? &&
      exists i :: 0 <= i < |reports| && reports[i].pk == pk && reports[i].intern == caller.value.id
                  && reports[i].status == Draft)
    ensures resp.Redirect? <==> (RoleGate(caller, Intern).None? &&
      exists i :: 0 <= i < |reports| && reports[i].pk == pk && reports[i].intern == caller.value.id
                  && reports[i].status == NeedsRevision)
    ensures resp.Redirect? ==> resp.pk == pk && resp.flash.Success?
  {
    var gate := RoleGate(caller, Intern);
    if gate.Some? {
      return Denied(gate.value);
    }
    var found := Lookup(reports, pk, EditableReports(reports, caller.value.id));
    if found.None? {
      return NotFound;
    }
    var report := reports[found.value];
    var r := report.Submit();
    if r.Err? {
      return ServerError(r.error);
    }
    resp := Redirect(pk, ApplicationViews.Success(SubmittedMessage(report.title)));
  }

  /**
   * `SubmitReportView.post` with the repaired `submit`: a draft becomes submitted, stamped
   * `now`, while a report sent back stays in needs_revision. No other report changes.
   */
  method SubmitReportViewRepaired(caller: Option<User>, reports: seq<InternReport>, pk: int, now: int) returns (resp: Response)
    requires DistinctReports(reports)
    modifies reports
    ensures RoleGate(caller, Intern).Some? ==> resp == Denied(RoleGate(caller, Intern).value)
    ensures resp.Redirect? <==> (RoleGate(caller, Intern).None? &&
      exists i :: 0 <= i < |reports| && reports[i].pk == pk && reports[i].intern == caller.value.id
                  && old(reports[i].status) in {Draft, NeedsRevision})
    ensures resp.Redirect? ==> resp.pk == pk && resp.flash.Success?
    ensures forall i :: 0 <= i < |reports| ==>
      reports[i].State() ==
        if resp.Redirect? && reports[i].pk == pk then AfterSubmit(old(reports[i].State()), now)
        else old(reports[i].State())
  {
    var gate := RoleGate(caller, Intern);
    if gate.Some? {
      return Denied(gate.value);
    }
    var found := Lookup(reports, pk, EditableReports(reports, caller.value.id));
    if found.None? {
      return NotFound;
    }
    var report := reports[found.value];
    OtherReportsDiffer(reports, found.value);
    report.SubmitAt(now);
    resp := Redirect(pk, ApplicationViews.Success(SubmittedMessage(report.title)));
  }

  /** Whether the repaired review call saves: a revision always does, a completion only with a storable rating. */
  predicate ReviewSaves(input: ReviewInput) {
    input.action == Revision || RatingStorable(input.rating)
  }

  /** The new state a saved review leaves under the repaired clock: reviewed for "complete", needs_revision otherwise. */
  function ReviewOutcome(s: ReportState, supervisor: int, input: ReviewInput, now: int): (r: ReportState)
    ensures r.status == Reviewed <==> input.action == Complete
    ensures r.status == NeedsRevision <==> input.action == Revision
    ensures ReviewStamped(r) && r.reviewedBy == Some(supervisor) && r.feedback == input.feedback
    ensures r.rating == if input.action == Complete then Some(input.rating) else s.rating
  {
    match input.action
    case Complete => AfterCompleteReview(s, supervisor, input.feedback, input.rating, now)
    case Revision => AfterRequestRevision(s, supervisor, input.feedback, now)
  }

  /**
   * `CompleteReviewView.post` as written: behind the supervisor gate, the report with key `pk`
   * on one of the caller's internships, else 404; an invalid form is sent back with an error
   * message, and a valid one calls `complete_review` or `request_revision`, which raise at the
   * clock call, so the answer is a server error. No report is saved.
   */
  method CompleteReviewView(caller: Option<User>, internships: map<int, Option<int>>, reports: seq<InternReport>,
                            pk: int, post: ReviewPost) returns (resp: Response)
    requires DistinctReports(reports)
    ensures RoleGate(caller, Supervisor).Some? ==> resp == Denied(RoleGate(caller, Supervisor).value)
    ensures resp.Redirect? || resp.ServerError? <==> (RoleGate(caller, Supervisor).None? &&
      exists i :: 0 <= i < |reports| && reports[i].pk == pk
                  && reports[i].internship in SupervisedInternships(internships, caller.value.id))
    ensures resp.Redirect? ==> resp == Redirect(pk, ApplicationViews.Failure(InvalidReviewMessage()))
    ensures resp.Redirect? ==> CleanReview(post).None?
    ensures resp.ServerError? ==> resp.error == TimezoneMissing && CleanReview(post).Some?
  {
    var gate := RoleGate(caller, Supervisor);
    if gate.Some? {
      return Denied(gate.value);
    }
    var supervised := SupervisedInternships(internships, caller.value.id);
    var found := Lookup(reports, pk, SupervisedReports(reports, supervised));
    if found.None? {
      return NotFound;
    }
    var report := reports[found.value];
    var input := CleanReview(post);
    if input.None? {
      return Redirect(pk, ApplicationViews.Failure(InvalidReviewMessage()));
    }
    var r;
    if input.value.action == Complete {
      r := report.CompleteReview(caller.value.id, input.value.feedback, input.value.rating);
    } else {
      r := report.RequestRevision(caller.value.id, input.value.feedback);
    }
    resp := ServerError(r.error);
  }

  /**
   * `CompleteReviewView.post` with the repaired review methods: an invalid form changes
   * nothing, a valid one completes the review or requests a revision, whatever status the
   * report is in, except that a completion with a negative rating fails at the save with a
   * server error and stores nothing. No other report changes.
   */
  method CompleteReviewViewRepaired(caller: Option<User>, internships: map<int, Option<int>>, reports: seq<InternReport>,
                                    pk: int, post: ReviewPost, now: int) returns (resp: Response)
    requires DistinctReports(reports)
    modifies reports
    ensures RoleGate(caller, Supervisor).Some? ==> resp == Denied(RoleGate(caller, Supervisor).value)
    ensures resp.Redirect? || resp.StorageError? <==> (RoleGate(caller, Supervisor).None? &&
      exists i :: 0 <= i < |reports| && reports[i].pk == pk
                  && reports[i].internship in SupervisedInternships(internships, caller.value.id))
    ensures resp.Redirect? ==> resp.pk == pk && (resp.flash.Success? <==> CleanReview(post).Some?)
    ensures resp.Redirect? ==> CleanReview(post).None? || ReviewSaves(CleanReview(post).value)
    ensures resp.StorageError? ==>
      CleanReview(post).Some? && !ReviewSaves(CleanReview(post).value) && resp.fault == RatingCheck
    ensures forall i :: 0 <= i < |reports| ==>
      reports[i].State() ==
        if resp.Redirect? && resp.flash.Success? && reports[i].pk == pk
        then ReviewOutcome(old(reports[i].State()), caller.value.id, CleanReview(post).value, now)
        else old(reports[i].State())
  {
    var gate := RoleGate(caller, Supervisor);
    if gate.Some? {
      return Denied(gate.value);
    }
    resp := ReviewSupervised(caller.value.id, SupervisedInternships(internships, caller.value.id), reports, pk,
                             CleanReview(post), now);
  }

  /**
   * The body of the repaired `CompleteReviewView.post` past the gate, for a supervisor of the internships
   * `supervised` and the cleaned form `input` (None when invalid): 404 outside them, the
   * form's outcome on the one report with key `pk` inside, or the save's refusal.
   */
  method ReviewSupervised(supervisor: int, supervised: set<int>, reports: seq<InternReport>,
                          pk: int, input: Option<ReviewInput>, now: int) returns (resp: Response)
    requires DistinctReports(reports)
    modifies reports
    ensures resp.NotFound? || resp.Redirect? || resp.StorageError?
    ensures resp.Redirect? || resp.StorageError? <==>
      exists i :: 0 <= i < |reports| && reports[i].pk == pk && reports[i].internship in supervised
    ensures resp.Redirect? ==> resp.pk == pk && (resp.flash.Success? <==> input.Some?)
    ensures resp.Redirect? ==> input.None? || ReviewSaves(input.value)
    ensures resp.StorageError? ==> input.Some? && !ReviewSaves(input.value) && resp.fault == RatingCheck
    ensures forall i :: 0 <= i < |reports| ==>
      reports[i].State() ==
        if resp.Redirect? && resp.flash.Success? && reports[i].pk == pk
        then ReviewOutcome(old(reports[i].State()), supervisor, input.value, now)
        else old(reports[i].State())
  {
    var found := Lookup(reports, pk, SupervisedReports(reports, supervised));
    if found.None? {
      return NotFound;
    }
    var k := found.value;
    var report := reports[k];
    if input.None? {
      return Redirect(pk, ApplicationViews.Failure(InvalidReviewMessage()));
    }
    OtherReportsDiffer(reports, k);
    var r := ApplyReview(report, supervisor, input.value, now);
    if r.Err? {
      return StorageError(r.error);
    }
    resp := Redirect(pk, ApplicationViews.Success(r.value));
    forall i | 0 <= i < |reports| && i != k
      ensures reports[i].pk != pk
    {
      if i < k { assert reports[i].pk != reports[k].pk; } else { assert reports[k].pk != reports[i].pk; }
    }
  }

  /**
   * The valid branch of the repaired `CompleteReviewView.post`: the model method the action
   * names and its message, or the exception its save raised.
   */
  method ApplyReview(report: InternReport, supervisor: int, form: ReviewInput, now: int)
    returns (r: Result<string, IntegrityError>)
    modifies report
    ensures r.Err? <==> !ReviewSaves(form)
    ensures r.Err? ==> r.error == RatingCheck && report.State() == old(report.State())
    ensures r.Ok? ==> report.State() == ReviewOutcome(old(report.State()), supervisor, form, now)
  {
    if form.action == Complete {
      var saved := report.CompleteReviewAt(supervisor, form.feedback, form.rating, now);
      if saved.Err? {
        return Err(saved.error);
      }
      r := Ok(ReviewCompletedMessage(report.title));
    } else {
      report.RequestRevisionAt(supervisor, form.feedback, now);
      r := Ok(RevisionRequestedMessage(report.title));
    }
  }

  /** Why `ReportCreateView` stores nothing. */
  datatype CreateRefusal =
    | CreateDenied(denial: ApplicationViews.Denial)
    | FormInvalid
    | PeriodTaken

  /** Whether `intern` already has a report on `internship` for `periodLabel`. */
  predicate HasReportFor(reports: seq<InternReport>, intern: int, internship: int, periodLabel: string) {
    exists i :: 0 <= i < |reports| && reports[i].intern == intern && reports[i].internship == internship
                && reports[i].periodLabel == periodLabel
  }

  /**
   * `ReportCreateView`: behind the intern gate, a valid form creates a draft owned by the
   * caller under the fresh key `pk`. The intern is not a form field, so the form's uniqueness
   * check skips (intern, internship, period label); a second report for the same period
   * passes the form and fails at `save()` on the database constraint, storing nothing.
   */
  method ReportCreateView(caller: Option<User>, all: set<int>, apps: seq<InternshipApplication>,
                          reports: seq<InternReport>, pk: int, post: ReportPost)
    returns (r: Result<InternReport, CreateRefusal>)
    requires forall i :: 0 <= i < |reports| ==> reports[i].pk != pk
    ensures RoleGate(caller, Intern).Some? ==> r == Err(CreateDenied(RoleGate(caller, Intern).value))
    ensures RoleGate(caller, Intern).None? && !ReportFormValid(caller, all, apps, post) ==> r == Err(FormInvalid)
    ensures RoleGate(caller, Intern).None? && (|post.title| > MaxTitleLength || |post.periodLabel| > MaxPeriodLabelLength)
      ==> r == Err(FormInvalid)
    ensures r == Err(PeriodTaken) <==> (RoleGate(caller, Intern).None? && ReportFormValid(caller, all, apps, post)
      && HasReportFor(reports, caller.value.id, post.internship, post.periodLabel))
    ensures r.Ok? <==> (RoleGate(caller, Intern).None? && ReportFormValid(caller, all, apps, post)
      && !HasReportFor(reports, caller.value.id, post.internship, post.periodLabel))
    ensures r.Ok? ==> fresh(r.value) && r.value.pk == pk && r.value.intern == caller.value.id
    ensures r.Ok? ==> r.value.internship == post.internship && r.value.periodLabel == post.periodLabel
    ensures r.Ok? ==> r.value.title == post.title && r.value.State() == NewReport
    ensures r.Ok? && DistinctReports(reports) ==> DistinctReports(reports + [r.value])
    ensures r.Ok? && OneReportPerPeriod(reports) ==> OneReportPerPeriod(reports + [r.value])
  {
    var gate := RoleGate(caller, Intern);
    if gate.Some? {
      return Err(CreateDenied(gate.value));
    }
    if !ReportFormValid(caller, all, apps, post) {
      return Err(FormInvalid);
    }
    if HasReportFor(reports, caller.value.id, post.internship, post.periodLabel) {
      return Err(PeriodTaken);
    }
    var report := new InternReport(pk, caller.value.id, post.internship, post.periodLabel, post.title);
    r := Ok(report);
  }

  /**
   * `ReportDeleteView`: behind the intern gate, the caller's own draft with key `pk` is
   * removed and every other report kept; any other key is "not found" and removes nothing.
   * The success message comes from the overridden `delete()`, which a POST reaches on Django
   * before 4.0 (the version assumed here); from 4.0 on, `DeleteView` posts through
   * `form_valid` and the row is removed without the message.
   */
  method ReportDeleteView(caller: Option<User>, reports: seq<InternReport>, pk: int)
    returns (resp: Response, remaining: seq<InternReport>)
    requires DistinctReports(reports)
    ensures RoleGate(caller, Intern).Some? ==> resp == Denied(RoleGate(caller, Intern).value)
    ensures resp.Redirect? <==> (RoleGate(caller, Intern).None? &&
      exists i :: 0 <= i < |reports| && reports[i].pk == pk && reports[i].intern == caller.value.id
                  && reports[i].status == Draft)
    ensures !resp.Redirect? ==> remaining == reports
    ensures resp.Redirect? ==> |remaining| == |reports| - 1
    ensures resp.Redirect? ==> forall r :: r in remaining <==> r in reports && r.pk != pk
    ensures DistinctReports(remaining)
  {
    var gate := RoleGate(caller, Intern);
    if gate.Some? {
      return Denied(gate.value), reports;
    }
    var found := Lookup(reports, pk, DeletableReports(reports, caller.value.id));
    if found.None? {
      return NotFound, reports;
    }
    var k := found.value;
    remaining := reports[..k] + reports[k + 1..];
    RemoveReportAt(reports, k);
    resp := Redirect(pk, ApplicationViews.Success(DeletedMessage(reports[k].title)));
  }

  /** Dropping the report at `k` from a list with distinct keys drops exactly the report with its key. */
  lemma RemoveReportAt(reports: seq<InternReport>, k: nat)
    requires DistinctReports(reports) && k < |reports|
    ensures var r := reports[..k] + reports[k + 1..];
      && |r| == |reports| - 1
      && (forall x :: x in r <==> x in reports && x.pk != reports[k].pk)
      && DistinctReports(r)
  {
    var r := reports[..k] + reports[k + 1..];
    assert forall j :: 0 <= j < |r| ==> r[j] == if j < k then reports[j] else reports[j + 1];
    forall x | x in reports && x.pk != reports[k].pk
      ensures x in r
    {
      var j :| 0 <= j < |reports| && reports[j] == x;
      if j < k { assert r[j] == x; } else { assert r[j - 1] == x; }
    }
  }

  function DeletedMessage(title: string): string {
    "Report \"" + title + "\" has been deleted."
  }

  /** `EvaluationListView` / `EvaluationDetailView`: the evaluations the caller wrote. */
  function EvaluationsBy(evals: map<int, Evaluation>, supervisor: int): (r: set<int>)
    ensures r <= evals.Keys
    ensures forall id :: id in r <==> id in evals && evals[id].supervisor == supervisor
  {
    set id | id in evals && evals[id].supervisor == supervisor
  }

  /** Why an evaluation is not saved. */
  datatype EvaluationRefusal =
    | Gate(denial: ApplicationViews.Denial)
    | NotYours
    | Invalid(errors: set<EvaluationError>)
    | NotOffered
    | Duplicate

  /**
   * Whether an evaluation other than `except` already covers the same intern, internship,
   * period type and period label (the form's unique-together check).
   */
  predicate Conflicts(evals: map<int, Evaluation>, e: Evaluation, except: Option<int>) {
    exists id :: id in evals && Some(id) != except && evals[id].intern == e.intern
      && evals[id].internship == e.internship && evals[id].periodType == e.periodType
      && evals[id].periodLabel == e.periodLabel
  }

  /**
   * The form checks shared by create and update: field errors, an intern or internship not
   * offered to the caller, and a duplicate period.
   */
  function EvaluationFormRefusal(caller: User, users: map<int, User>, internships: map<int, Option<int>>,
                                 apps: seq<InternshipApplication>, evals: map<int, Evaluation>,
                                 post: EvaluationPost, except: Option<int>): (r: Option<EvaluationRefusal>)
    reads apps
    ensures r.None? <==>
      && EvaluationErrors(post) == {}
      && post.evaluation.intern in EvaluationFormChoices(Some(caller), users, internships, apps).interns
      && post.evaluation.internship in EvaluationFormChoices(Some(caller), users, internships, apps).internships
      && !Conflicts(evals, post.evaluation, except)
  {
    var choices := EvaluationFormChoices(Some(caller), users, internships, apps);
    if EvaluationErrors(post) != {} then Some(Invalid(EvaluationErrors(post)))
    else if post.evaluation.intern !in choices.interns || post.evaluation.internship !in choices.internships
    then Some(NotOffered)
    else if Conflicts(evals, post.evaluation, except) then Some(Duplicate)
    else None
  }

  /**
   * `EvaluationCreateView`: behind the supervisor gate, a clean form adds the evaluation under
   * the fresh key `newId` with the caller as its supervisor; nothing else changes.
   */
  function CreateEvaluation(caller: Option<User>, users: map<int, User>, internships: map<int, Option<int>>,
                            apps: seq<InternshipApplication>, evals: map<int, Evaluation>, newId: int,
                            post: EvaluationPost): (r: Result<map<int, Evaluation>, EvaluationRefusal>)
    requires newId !in evals
    reads apps
    ensures RoleGate(caller, Supervisor).Some? ==> r == Err(Gate(RoleGate(caller, Supervisor).value))
    ensures r.Ok? <==> RoleGate(caller, Supervisor).None?
                       && EvaluationFormRefusal(caller.value, users, internships, apps, evals, post, None).None?
    ensures r.Ok? ==> r.value.Keys == evals.Keys + {newId} && r.value[newId].supervisor == caller.value.id
    ensures r.Ok? ==> r.value[newId] == post.evaluation.(supervisor := caller.value.id)
    ensures r.Ok? ==> forall id | id in evals :: r.value[id] == evals[id]
    ensures r.Ok? ==> RatingsValid(r.value[newId])
    ensures r.Ok? && OneEvaluationPerPeriod(evals) ==> OneEvaluationPerPeriod(r.value)
  {
    var gate := RoleGate(caller, Supervisor);
    if gate.Some? then Err(Gate(gate.value))
    else match EvaluationFormRefusal(caller.value, users, internships, apps, evals, post, None)
      case Some(refusal) => Err(refusal)
      case None =>
        AcceptedEvaluationAverage(post);
        Ok(evals[newId := post.evaluation.(supervisor := caller.value.id)])
  }

  /**
   * `EvaluationUpdateView`: behind the supervisor gate, only an evaluation the caller wrote
   * (else 404); a clean form replaces it, keeping the caller as supervisor, and leaves the
   * others alone. The duplicate check skips the evaluation being edited.
   */
  function UpdateEvaluation(caller: Option<User>, users: map<int, User>, internships: map<int, Option<int>>,
                            apps: seq<InternshipApplication>, evals: map<int, Evaluation>, id: int,
                            post: EvaluationPost): (r: Result<map<int, Evaluation>, EvaluationRefusal>)
    reads apps
    ensures RoleGate(caller, Supervisor).Some? ==> r == Err(Gate(RoleGate(caller, Supervisor).value))
    ensures RoleGate(caller, Supervisor).None? && id !in EvaluationsBy(evals, caller.value.id) ==> r == Err(NotYours)
    ensures r.Ok? <==> RoleGate(caller, Supervisor).None? && id in EvaluationsBy(evals, caller.value.id)
                       && EvaluationFormRefusal(caller.value, users, internships, apps, evals, post, Some(id)).None?
    ensures r.Ok? ==> r.value == evals[id := post.evaluation.(supervisor := caller.value.id)]
    ensures r.Ok? ==> r.value.Keys == evals.Keys && RatingsValid(r.value[id])
    ensures r.Ok? ==> EvaluationsBy(r.value, caller.value.id) == EvaluationsBy(evals, caller.value.id)
    ensures r.Ok? && OneEvaluationPerPeriod(evals) ==> OneEvaluationPerPeriod(r.value)
  {
    var gate := RoleGate(caller, Supervisor);
    if gate.Some? then Err(Gate(gate.value))
    else if id !in EvaluationsBy(evals, caller.value.id) then Err(NotYours)
    else match EvaluationFormRefusal(caller.value, users, internships, apps, evals, post, Some(id))
      case Some(refusal) => Err(refusal)
      case None =>
        AcceptedEvaluationAverage(post);
        Ok(evals[id := post.evaluation.(supervisor := evals[id].supervisor)])
  }
}
