/**
 * Intern reports and supervisor evaluations: the report's review state machine, the status
 * predicates, the evaluation's average rating and performance level, and the uniqueness
 * rules on both tables.
 */
module Reports {
  import opened Wrappers
  import opened Clock

  datatype ReportStatus = Draft | Submitted | UnderReview | Reviewed | NeedsRevision

  /** The stored text of each status. */
  function StatusCode(s: ReportStatus): string {
    match s
    case Draft => "draft"
    case Submitted => "submitted"
    case UnderReview => "under_review"
    case Reviewed => "reviewed"
    case NeedsRevision => "needs_revision"
  }

  /** The review columns of a report. Times are instants given by the caller. */
  datatype ReportState = ReportState(
    status: ReportStatus,
    submittedAt: Option<int>,
    reviewedBy: Option<int>,
    feedback: string,
    rating: Option<int>,
    reviewDate: Option<int>)

  /** A new report: a draft, never submitted or reviewed. */
  const NewReport := ReportState(Draft, None, None, "", None, None)

  /** `is_draft`. */
  predicate IsDraft(s: ReportState) { s.status == Draft }

  /** `is_submitted`: submitted, under review or reviewed; a draft or a report sent back is not. */
  predicate IsSubmitted(s: ReportState) { s.status in {Submitted, UnderReview, Reviewed} }

  /** `is_reviewed`. */
  predicate IsReviewed(s: ReportState) { s.status == Reviewed }

  /** `is_submitted` holds past draft except for needs_revision; a reviewed report is submitted, a draft is not. */
  lemma SubmittedStatuses(s: ReportState)
    ensures IsSubmitted(s) <==> !IsDraft(s) && s.status != NeedsRevision
    ensures IsReviewed(s) ==> IsSubmitted(s)
    ensures !(IsDraft(s) && IsSubmitted(s))
  {
  }

  /**
   * `submit` as written: a report that is not a draft is left as it is, with nothing saved;
   * on a draft the status is set on the instance, then `models.timezone.now()` raises before
   * `save()`, so the stored draft never changes.
   */
  function SubmitAsWritten(s: ReportState): (r: Result<ReportState, AttributeError>)
    ensures r.Err? <==> s.status == Draft
    ensures r.Err? ==> r.error == TimezoneMissing
    ensures r.Ok? ==> r.value == s
  {
    if s.status == Draft then Err(TimezoneMissing) else Ok(s)
  }

  /**
   * `complete_review` and `request_revision` as written: whatever the report, they set the
   * review fields on the instance, then raise at `models.timezone.now()` before `save()`.
   */
  function FinishReviewAsWritten(s: ReportState): (r: Result<ReportState, AttributeError>)
    ensures r == Err(TimezoneMissing)
  {
    Err(TimezoneMissing)
  }

  /** The repaired `submit`: only a draft moves, to submitted, stamped `now`; any other report is left as it is. */
  function AfterSubmit(s: ReportState, now: int): (r: ReportState)
    ensures s.status == Draft ==> r.status == Submitted && r.submittedAt == Some(now)
    ensures s.status == Draft ==> r.(status := Draft, submittedAt := s.submittedAt) == s
    ensures s.status != Draft ==> r == s
  {
    if s.status == Draft then s.(status := Submitted, submittedAt := Some(now)) else s
  }

  /** `start_review`: only a submitted report moves, to under review, recording the supervisor. */
  function AfterStartReview(s: ReportState, supervisor: int): (r: ReportState)
    ensures s.status == Submitted ==> r == s.(status := UnderReview, reviewedBy := Some(supervisor))
    ensures s.status != Submitted ==> r == s
  {
    if s.status == Submitted then s.(status := UnderReview, reviewedBy := Some(supervisor)) else s
  }

  /** The exception the database raises when a row breaks a column's check constraint. */
  datatype IntegrityError = CheckFailed(column: string)

  /** The refusal of a negative `supervisor_rating`. */
  const RatingCheck := CheckFailed("supervisor_rating")

  /**
   * Whether the database stores a supervisor rating: the column is a positive-integer field,
   * which the database keeps at zero or more; the 1..5 validators run only in forms, not on
   * `save()`.
   */
  predicate RatingStorable(rating: int) { rating >= 0 }

  /**
   * The row the repaired `complete_review` saves, from any status: reviewed, with reviewer,
   * feedback, rating and date. The save succeeds only for a `RatingStorable` rating.
   */
  function AfterCompleteReview(s: ReportState, supervisor: int, feedback: string, rating: int, now: int): (r: ReportState)
    ensures r.status == Reviewed && r.reviewedBy == Some(supervisor) && r.feedback == feedback
    ensures r.rating == Some(rating) && r.reviewDate == Some(now) && r.submittedAt == s.submittedAt
  {
    s.(status := Reviewed, reviewedBy := Some(supervisor), feedback := feedback, rating := Some(rating),
       reviewDate := Some(now))
  }

  /** The repaired `request_revision`: from any status, needs revision, with reviewer, feedback and date; the rating stays. */
  function AfterRequestRevision(s: ReportState, supervisor: int, feedback: string, now: int): (r: ReportState)
    ensures r.status == NeedsRevision && r.reviewedBy == Some(supervisor) && r.feedback == feedback
    ensures r.reviewDate == Some(now) && r.rating == s.rating && r.submittedAt == s.submittedAt
  {
    s.(status := NeedsRevision, reviewedBy := Some(supervisor), feedback := feedback, reviewDate := Some(now))
  }

  /** One of the four transitions, with its arguments (the time is the repaired clock's). */
  datatype Transition =
    | Submit(now: int)
    | StartReview(supervisor: int)
    | CompleteReview(supervisor: int, feedback: string, rating: int, at: int)
    | RequestRevision(supervisor: int, feedback: string, at: int)

  function Apply(s: ReportState, t: Transition): ReportState {
    match t
    case Submit(now) => AfterSubmit(s, now)
    case StartReview(sup) => AfterStartReview(s, sup)
    case CompleteReview(sup, fb, rating, at) =>
      if RatingStorable(rating) then AfterCompleteReview(s, sup, fb, rating, at) else s
    case RequestRevision(sup, fb, at) => AfterRequestRevision(s, sup, fb, at)
  }

  function ApplyAll(s: ReportState, ts: seq<Transition>): ReportState
    decreases |ts|
  {
    if ts == [] then s else ApplyAll(Apply(s, ts[0]), ts[1..])
  }

  /**
   * The stored row after a transition as written: `start_review` is the only one that
   * saves, because the other three raise at the clock call (or, for `submit` on a report
   * that is not a draft, do nothing).
   */
  function ApplyAsWritten(s: ReportState, t: Transition): (r: ReportState)
    ensures t.StartReview? ==> r == AfterStartReview(s, t.supervisor)
    ensures t.Submit? ==> (SubmitAsWritten(s).Err? || SubmitAsWritten(s) == Ok(r)) && r == s
    ensures t.CompleteReview? || t.RequestRevision? ==> FinishReviewAsWritten(s).Err? && r == s
  {
    if t.StartReview? then AfterStartReview(s, t.supervisor) else s
  }

  function ApplyAllAsWritten(s: ReportState, ts: seq<Transition>): ReportState
    decreases |ts|
  {
    if ts == [] then s else ApplyAllAsWritten(ApplyAsWritten(s, ts[0]), ts[1..])
  }

  /**
   * As written, a new report stays a stored draft whatever the model methods are called
   * on it: `submit` raises on a draft and `start_review` moves only a submitted report;
   * the repaired `submit` would have moved it to submitted.
   */
  lemma {:induction false} NewReportStaysDraft(ts: seq<Transition>, now: int)
    ensures ApplyAllAsWritten(NewReport, ts) == NewReport
    ensures AfterSubmit(NewReport, now).status == Submitted
    decreases |ts|
  {
    if ts != [] {
      assert ApplyAsWritten(NewReport, ts[0]) == NewReport;
      NewReportStaysDraft(ts[1..], now);
    }
  }

  /** A report that has left draft never returns to it, whatever transitions follow. */
  lemma {:induction false} NeverBackToDraft(s: ReportState, ts: seq<Transition>)
    requires s.status != Draft
    ensures ApplyAll(s, ts).status != Draft
    decreases |ts|
  {
    if ts != [] {
      NeverBackToDraft(Apply(s, ts[0]), ts[1..]);
    }
  }

  /** Reviewed and sent-back reports always name a reviewer and a review date. */
  predicate ReviewStamped(s: ReportState) {
    s.status in {Reviewed, NeedsRevision} ==> s.reviewedBy.Some? && s.reviewDate.Some?
  }

  /** Every sequence of transitions keeps the review stamp (a new report has it trivially). */
  lemma {:induction false} ReviewStampKept(s: ReportState, ts: seq<Transition>)
    requires ReviewStamped(s)
    ensures ReviewStamped(ApplyAll(s, ts))
    decreases |ts|
  {
    if ts != [] {
      ReviewStampKept(Apply(s, ts[0]), ts[1..]);
    }
  }

  /**
   * The resubmission loop does not move: once revision is requested, submitting leaves the
   * report in needs_revision, however often it is repeated.
   */
  lemma {:induction false} ResubmitStaysInRevision(s: ReportState, times: seq<int>)
    requires s.status == NeedsRevision
    ensures ApplyAll(s, seq(|times|, k requires 0 <= k < |times| => Submit(times[k]))) == s
    decreases |times|
  {
    if times != [] {
      var ts := seq(|times|, k requires 0 <= k < |times| => Submit(times[k]));
      assert ts[1..] == seq(|times[1..]|, k requires 0 <= k < |times[1..]| => Submit(times[1..][k]));
      ResubmitStaysInRevision(s, times[1..]);
    }
  }

  /**
   * `complete_review` checks no status. As written, the call on a draft raises and the
   * draft stays stored as it was; once the clock is repaired, a draft could be marked
   * reviewed directly with any rating the column stores, and would then count as submitted
   * without ever having been submitted.
   */
  lemma DraftCanBeReviewed(supervisor: int, feedback: string, rating: int, now: int)
    ensures FinishReviewAsWritten(NewReport).Err?
    ensures var r := Apply(NewReport, CompleteReview(supervisor, feedback, rating, now));
      (IsSubmitted(r) && r.submittedAt.None?) <==> RatingStorable(rating)
  {
  }

  class InternReport {
    const pk: int
    const intern: int
    const internship: int
    const periodLabel: string
    const title: string
    var status: ReportStatus
    var submittedAt: Option<int>
    var reviewedBy: Option<int>
    var feedback: string
    var rating: Option<int>
    var reviewDate: Option<int>

    function State(): ReportState
      reads this
    {
      ReportState(status, submittedAt, reviewedBy, feedback, rating, reviewDate)
    }

    /** A report is created as a draft. */
    constructor (pk: int, intern: int, internship: int, periodLabel: string, title: string)
      ensures this.pk == pk && this.intern == intern && this.internship == internship
      ensures this.periodLabel == periodLabel && this.title == title
      ensures State() == NewReport
    {
      this.pk, this.intern, this.internship, this.periodLabel, this.title := pk, intern, internship, periodLabel, title;
      status, submittedAt, reviewedBy, feedback, rating, reviewDate := Draft, None, None, "", None, None;
    }

    /** `submit` as written: raises on a draft, does nothing otherwise; the stored row never changes. */
    method Submit() returns (r: Result<ReportState, AttributeError>)
      ensures r == SubmitAsWritten(State())
    {
      if status == Draft {
        return Err(TimezoneMissing);
      }
      r := Ok(State());
    }

    /** The repaired `submit`, stamping `now`. */
    method SubmitAt(now: int)
      modifies this
      ensures State() == AfterSubmit(old(State()), now)
    {
      if status == Draft {
        status := Submitted;
        submittedAt := Some(now);
      }
    }

    method StartReview(supervisor: int)
      modifies this
      ensures State() == AfterStartReview(old(State()), supervisor)
    {
      if status == Submitted {
        status := UnderReview;
        reviewedBy := Some(supervisor);
      }
    }

    /** `complete_review` as written: raises at the clock call; the stored row never changes. */
    method CompleteReview(supervisor: int, feedback: string, rating: int) returns (r: Result<ReportState, AttributeError>)
      ensures r == FinishReviewAsWritten(State())
    {
      r := Err(TimezoneMissing);
    }

    /** `request_revision` as written: raises at the clock call; the stored row never changes. */
    method RequestRevision(supervisor: int, feedback: string) returns (r: Result<ReportState, AttributeError>)
      ensures r == FinishReviewAsWritten(State())
    {
      r := Err(TimezoneMissing);
    }

    /**
     * The repaired `complete_review`, dated `now`: the save raises for a negative rating and
     * nothing is stored.
     */
    method CompleteReviewAt(supervisor: int, feedback: string, rating: int, now: int)
      returns (r: Result<ReportState, IntegrityError>)
      modifies this
      ensures r.Err? <==> !RatingStorable(rating)
      ensures r.Err? ==> r.error == RatingCheck && State() == old(State())
      ensures r.Ok? ==> State() == AfterCompleteReview(old(State()), supervisor, feedback, rating, now)
      ensures r.Ok? ==> r.value == State()
    {
      if !RatingStorable(rating) {
        return Err(RatingCheck);
      }
      status := Reviewed;
      reviewedBy := Some(supervisor);
      this.feedback := feedback;
      this.rating := Some(rating);
      reviewDate := Some(now);
      r := Ok(State());
    }

    /** The repaired `request_revision`, dated `now`. */
    method RequestRevisionAt(supervisor: int, feedback: string, now: int)
      modifies this
      ensures State() == AfterRequestRevision(old(State()), supervisor, feedback, now)
    {
      status := NeedsRevision;
      reviewedBy := Some(supervisor);
      this.feedback := feedback;
      reviewDate := Some(now);
    }
  }

  /** Rows are told apart by primary key (so the same object never appears twice). */
  predicate DistinctReports(reports: seq<InternReport>) {
    forall i, j :: 0 <= i < j < |reports| ==> reports[i].pk != reports[j].pk
  }

  /** A row with a distinct key is a distinct object from every other row. */
  lemma OtherReportsDiffer(reports: seq<InternReport>, i: nat)
    requires DistinctReports(reports) && i < |reports|
    ensures forall j :: 0 <= j < |reports| && j != i ==> reports[j] != reports[i]
  {
    forall j | 0 <= j < |reports| && j != i
      ensures reports[j] != reports[i]
    {
      if i < j { assert reports[i].pk != reports[j].pk; } else { assert reports[j].pk != reports[i].pk; }
    }
  }

  /** `unique_together = ['intern', 'internship', 'period_label']`. */
  predicate OneReportPerPeriod(reports: seq<InternReport>) {
    forall i, j :: 0 <= i < j < |reports| ==>
      reports[i].intern != reports[j].intern || reports[i].internship != reports[j].internship
      || reports[i].periodLabel != reports[j].periodLabel
  }

  datatype PeriodType = Weekly | Monthly | Quarterly | Final

  /** An evaluation; the six ratings are the 1-5 scores the form validates. */
  datatype Evaluation = Evaluation(
    intern: int,
    supervisor: int,
    internship: int,
    periodType: PeriodType,
    periodLabel: string,
    evaluationDate: int,
    technical: int,
    communication: int,
    teamwork: int,
    initiative: int,
    reliability: int,
    overall: int,
    strengths: string,
    areasForImprovement: string,
    wouldRecommend: bool)

  /** Each of the six ratings passes the 1..5 validators. */
  predicate RatingsValid(e: Evaluation) {
    && 1 <= e.technical <= 5 && 1 <= e.communication <= 5 && 1 <= e.teamwork <= 5
    && 1 <= e.initiative <= 5 && 1 <= e.reliability <= 5 && 1 <= e.overall <= 5
  }

  /** The five criteria `average_rating` adds up; `overall_performance` is not one of them. */
  function RatingSum(e: Evaluation): int {
    e.technical + e.communication + e.teamwork + e.initiative + e.reliability
  }

  /** `average_rating`: the mean of the five criteria, an exact real here. */
  function AverageRating(e: Evaluation): (avg: real)
    ensures avg * 5.0 == RatingSum(e) as real
  {
    RatingSum(e) as real / 5.0
  }

  /** With valid ratings the average lies in [1, 5], and the overall rating has no effect on it. */
  lemma AverageInRange(e: Evaluation, overall: int)
    requires RatingsValid(e)
    ensures 1.0 <= AverageRating(e) <= 5.0
    ensures AverageRating(e.(overall := overall)) == AverageRating(e)
  {
  }

  /** `performance_level`, from `overall_performance` alone. */
  function PerformanceLevel(overall: int): (level: string)
    ensures overall >= 5 ==> level == "Excellent"
    ensures overall == 4 ==> level == "Good"
    ensures overall == 3 ==> level == "Satisfactory"
    ensures overall == 2 ==> level == "Needs Improvement"
    ensures overall <= 1 ==> level == "Unsatisfactory"
  {
    if overall >= 5 then "Excellent"
    else if overall >= 4 then "Good"
    else if overall >= 3 then "Satisfactory"
    else if overall >= 2 then "Needs Improvement"
    else "Unsatisfactory"
  }

  /** The five valid ratings give five different levels. */
  lemma PerformanceLevelsDistinct(a: int, b: int)
    requires 1 <= a <= 5 && 1 <= b <= 5 && a != b
    ensures PerformanceLevel(a) != PerformanceLevel(b)
  {
    var la, lb := PerformanceLevel(a), PerformanceLevel(b);
    assert la[0] != lb[0];
  }

  /** `unique_together = ['intern', 'internship', 'period_type', 'period_label']`, over the table by id. */
  predicate OneEvaluationPerPeriod(evals: map<int, Evaluation>) {
    forall a, b | a in evals && b in evals && a != b ::
      evals[a].intern != evals[b].intern || evals[a].internship != evals[b].internship
      || evals[a].periodType != evals[b].periodType || evals[a].periodLabel != evals[b].periodLabel
  }
}
