/**
 * The report forms: the intern's report form (required fields, internship choices limited to
 * the intern's own placements), the supervisor's review form, and the evaluation form
 * (required fields, rating validators, intern and internship choices of the supervisor).
 */
module ReportForms {
  import opened Wrappers
  import Text
  import opened Accounts
  import opened Applications
  import opened Reports

  /** The fields of the report form. */
  datatype ReportField =
    | Title | PeriodLabel | InternshipField
    | Summary | ActivitiesCompleted | ChallengesFaced
    | SolutionsImplemented | SkillsLearned | GoalsNextPeriod
    | SelfRating | HoursWorked
    | ReportFile | AdditionalFiles

  /** The fields `__init__` marks required. */
  const ReportRequired: set<ReportField> :=
    {Title, PeriodLabel, InternshipField, Summary, ActivitiesCompleted, SelfRating, HoursWorked}

  /** The internships of the applications that created `user`'s intern account. */
  function InternInternships(apps: seq<InternshipApplication>, user: int): (r: set<int>)
    reads apps
    ensures forall i :: 0 <= i < |apps| && apps[i].createdIntern == Some(user) && apps[i].status == InternCreated
              ==> apps[i].internship in r
    ensures forall k :: k in r ==>
      exists i :: 0 <= i < |apps| && apps[i].internship == k && apps[i].createdIntern == Some(user)
                  && apps[i].status == InternCreated
  {
    set i | 0 <= i < |apps| && apps[i].createdIntern == Some(user) && apps[i].status == InternCreated
      :: apps[i].internship
  }

  /**
   * The internship choices of the report form: for an intern, only the internships `all`
   * offers that the intern holds; for anyone else (or no user), all of them.
   */
  function ReportInternshipChoices(caller: Option<User>, all: set<int>, apps: seq<InternshipApplication>): (r: set<int>)
    reads apps
    ensures r <= all
    ensures caller.Some? && caller.value.IsIntern() ==>
      forall k :: k in r <==> k in all && k in InternInternships(apps, caller.value.id)
    ensures !(caller.Some? && caller.value.IsIntern()) ==> r == all
  {
    if caller.Some? && caller.value.IsIntern() then all * InternInternships(apps, caller.value.id) else all
  }

  /** An intern can file a report only on an internship an application placed them in. */
  lemma InternReportsOnOwnPlacement(caller: User, all: set<int>, apps: seq<InternshipApplication>, k: int)
    requires caller.IsIntern() && k in ReportInternshipChoices(Some(caller), all, apps)
    ensures exists i :: (0 <= i < |apps| && apps[i].internship == k
      && apps[i].createdIntern == Some(caller.id) && apps[i].status == InternCreated)
  {
  }

  /** The `max_length` of the report's title. */
  const MaxTitleLength: nat := 200

  /** The `max_length` of a report's or an evaluation's period label. */
  const MaxPeriodLabelLength: nat := 100

  /**
   * What the report form receives: the fields supplied and the values that matter here. The
   * title and the period label are the values as the text fields clean them (stripped), which
   * is what their length limits are checked against and what is stored.
   */
  datatype ReportPost = ReportPost(supplied: set<ReportField>, internship: int, periodLabel: string, title: string,
                                   selfRating: int, hoursWorked: int)

  /**
   * Validation of the report form: every required field present, an internship among the
   * choices, a self rating within 1..5 (its two validators), a number of hours that is not
   * negative (a positive-integer field), and a title and a period label within their
   * `max_length` (200 and 100 characters).
   */
  predicate ReportFormValid(caller: Option<User>, all: set<int>, apps: seq<InternshipApplication>, post: ReportPost)
    reads apps
  {
    && ReportRequired <= post.supplied
    && |post.title| <= MaxTitleLength
    && |post.periodLabel| <= MaxPeriodLabelLength
    && post.internship in ReportInternshipChoices(caller, all, apps)
    && 1 <= post.selfRating <= 5
    && post.hoursWorked >= 0
  }

  /** The review form's action choices. */
  datatype ReviewAction = Complete | Revision

  /** The POSTed review form; `rating` is absent when missing or not an integer. */
  datatype ReviewPost = ReviewPost(feedback: Option<string>, rating: Option<int>, action: Option<string>)

  /** The cleaned review form. */
  datatype ReviewInput = ReviewInput(feedback: string, rating: int, action: ReviewAction)

  /** The action text as cleaned: only the two choice values are accepted. */
  function ParseAction(a: string): (r: Option<ReviewAction>)
    ensures r == Some(Complete) <==> a == "complete"
    ensures r == Some(Revision) <==> a == "revision"
  {
    if a == "complete" then Some(Complete) else if a == "revision" then Some(Revision) else None
  }

  /**
   * `ReviewReportForm.is_valid`: feedback non-blank after stripping and free of the NUL
   * character (a text field's null-character validator), any integer rating, and a valid
   * action; all three are required, the rating even when asking for a revision.
   */
  function CleanReview(post: ReviewPost): (r: Option<ReviewInput>)
    ensures r.Some? <==>
      && post.feedback.Some? && Text.Strip(post.feedback.value) != "" && '\0' !in post.feedback.value
      && post.rating.Some?
      && post.action.Some? && post.action.value in {"complete", "revision"}
    ensures r.Some? ==> r.value.feedback == Text.Strip(post.feedback.value) && r.value.rating == post.rating.value
    ensures r.Some? ==> (r.value.action == Complete <==> post.action.value == "complete")
  {
    if post.feedback.None? || Text.Strip(post.feedback.value) == "" || '\0' in post.feedback.value
       || post.rating.None? || post.action.None? then None
    else match ParseAction(post.action.value)
      case None => None
      case Some(a) => Some(ReviewInput(Text.Strip(post.feedback.value), post.rating.value, a))
  }

  /** The review form puts no bound on the rating: 0 and 99 are accepted like 1 to 5. */
  lemma ReviewRatingUnbounded(feedback: string, rating: int)
    requires Text.Strip(feedback) != "" && '\0' !in feedback
    ensures CleanReview(ReviewPost(Some(feedback), Some(rating), Some("complete"))).Some?
    ensures CleanReview(ReviewPost(Some(feedback), Some(rating), Some("complete"))).value.rating == rating
  {
  }

  /** The fields of the evaluation form. */
  datatype EvaluationField =
    | InternField | EvalInternship | PeriodTypeField | EvalPeriodLabel | EvaluationDate
    | Technical | Communication | Teamwork | Initiative | Reliability | Overall
    | Strengths | AreasForImprovement | Achievements | Recommendations
    | GoalsMet | EvalGoalsNextPeriod | WouldRecommend | AdditionalComments

  /** The thirteen fields `__init__` marks required. */
  const EvaluationRequired: set<EvaluationField> :=
    {InternField, EvalInternship, PeriodTypeField, EvalPeriodLabel, EvaluationDate,
     Technical, Communication, Teamwork, Initiative, Reliability, Overall,
     Strengths, AreasForImprovement}

  /** The internships `supervisor` is assigned to, among `internships` (id to supervisor). */
  function SupervisedInternships(internships: map<int, Option<int>>, supervisor: int): (r: set<int>)
    ensures forall k :: k in r <==> k in internships && internships[k] == Some(supervisor)
  {
    set k | k in internships && internships[k] == Some(supervisor)
  }

  /**
   * The interns a supervisor may evaluate: users with role intern whose account was created
   * from an application to one of the supervisor's internships.
   */
  function SupervisedInterns(users: map<int, User>, apps: seq<InternshipApplication>, supervised: set<int>): (r: set<int>)
    reads apps
    ensures r <= users.Keys
    ensures forall u :: u in r <==>
      (u in users && users[u].role == Role.Intern
       && exists i :: 0 <= i < |apps| && apps[i].createdIntern == Some(u)
            && apps[i].status == InternCreated && apps[i].internship in supervised)
  {
    set u, i | u in users && users[u].role == Role.Intern && 0 <= i < |apps| && apps[i].createdIntern == Some(u)
               && apps[i].status == InternCreated && apps[i].internship in supervised :: u
  }

  /** The users whose role is intern: the choices the evaluation's intern field is limited to. */
  function InternUsers(users: map<int, User>): (r: set<int>)
    ensures forall u :: u in r <==> u in users && users[u].role == Role.Intern
  {
    set u | u in users && users[u].role == Role.Intern
  }

  /** The intern and internship choices of the evaluation form. */
  datatype EvaluationChoices = EvaluationChoices(interns: set<int>, internships: set<int>)

  /**
   * The evaluation form's choices: for a supervisor, the supervised interns and internships;
   * for anyone else, every user whose role is intern (the field's `limit_choices_to`) and
   * every internship.
   */
  function EvaluationFormChoices(caller: Option<User>, users: map<int, User>, internships: map<int, Option<int>>,
                                 apps: seq<InternshipApplication>): (r: EvaluationChoices)
    reads apps
    ensures caller.Some? && caller.value.IsSupervisor() ==>
      r.internships == SupervisedInternships(internships, caller.value.id)
      && r.interns == SupervisedInterns(users, apps, r.internships)
    ensures !(caller.Some? && caller.value.IsSupervisor()) ==> r == EvaluationChoices(InternUsers(users), internships.Keys)
  {
    if caller.Some? && caller.value.IsSupervisor() then
      var mine := SupervisedInternships(internships, caller.value.id);
      EvaluationChoices(SupervisedInterns(users, apps, mine), mine)
    else EvaluationChoices(InternUsers(users), internships.Keys)
  }

  /** Whoever the caller, every user the evaluation form offers as intern has the intern role. */
  lemma ChoicesAreInterns(caller: Option<User>, users: map<int, User>, internships: map<int, Option<int>>,
                          apps: seq<InternshipApplication>, u: int)
    requires u in EvaluationFormChoices(caller, users, internships, apps).interns
    ensures u in users && users[u].role == Role.Intern
  {
    if caller.Some? && caller.value.IsSupervisor() {
      var mine := SupervisedInternships(internships, caller.value.id);
      assert u in SupervisedInterns(users, apps, mine);
    }
  }

  /** A supervisor is offered only interns placed on their own internships, and only those internships. */
  lemma SupervisorChoicesAreOwn(caller: User, users: map<int, User>, internships: map<int, Option<int>>,
                                apps: seq<InternshipApplication>, u: int)
    requires caller.IsSupervisor()
    requires u in EvaluationFormChoices(Some(caller), users, internships, apps).interns
    ensures users[u].IsIntern()
    ensures exists i :: (0 <= i < |apps| && apps[i].createdIntern == Some(u) && apps[i].status == InternCreated
      && apps[i].internship in internships && internships[apps[i].internship] == Some(caller.id))
  {
    var mine := SupervisedInternships(internships, caller.id);
    assert u in SupervisedInterns(users, apps, mine);
  }

  /**
   * A submitted evaluation: the fields supplied, and the evaluation built from them (its period
   * label as the text field cleans it, stripped).
   */
  datatype EvaluationPost = EvaluationPost(supplied: set<EvaluationField>, evaluation: Evaluation)

  /**
   * The evaluation form's errors: a missing required field, a rating outside 1..5, or a period
   * label over its `max_length`.
   */
  datatype EvaluationError =
    | MissingField(field: EvaluationField)
    | RatingOutOfRange(field: EvaluationField)
    | PeriodLabelTooLong

  function RatingOf(e: Evaluation, f: EvaluationField): int
    requires f in {Technical, Communication, Teamwork, Initiative, Reliability, Overall}
  {
    match f
    case Technical => e.technical
    case Communication => e.communication
    case Teamwork => e.teamwork
    case Initiative => e.initiative
    case Reliability => e.reliability
    case Overall => e.overall
  }

  const RatingFields: set<EvaluationField> := {Technical, Communication, Teamwork, Initiative, Reliability, Overall}

  /**
   * Validation of the evaluation form: every required field present, each supplied rating
   * within the model's 1..5 validators, and a supplied period label of at most 100 characters.
   */
  function EvaluationErrors(post: EvaluationPost): (errs: set<EvaluationError>)
    ensures forall f :: MissingField(f) in errs <==> f in EvaluationRequired && f !in post.supplied
    ensures forall f :: RatingOutOfRange(f) in errs <==>
      f in RatingFields && f in post.supplied && !(1 <= RatingOf(post.evaluation, f) <= 5)
    ensures PeriodLabelTooLong in errs <==>
      EvalPeriodLabel in post.supplied && |post.evaluation.periodLabel| > MaxPeriodLabelLength
  {
    var tooLong := if EvalPeriodLabel in post.supplied && |post.evaluation.periodLabel| > MaxPeriodLabelLength
                   then {PeriodLabelTooLong} else {};
    (set f | f in EvaluationRequired && f !in post.supplied :: MissingField(f))
    + (set f | f in RatingFields && f in post.supplied && !(1 <= RatingOf(post.evaluation, f) <= 5) :: RatingOutOfRange(f))
    + tooLong
  }

  /** An evaluation form without errors has valid ratings, so its average lies in [1, 5]. */
  lemma AcceptedEvaluationAverage(post: EvaluationPost)
    requires EvaluationErrors(post) == {}
    ensures RatingsValid(post.evaluation)
    ensures 1.0 <= AverageRating(post.evaluation) <= 5.0
  {
    var errs := EvaluationErrors(post);
    forall f | f in RatingFields
      ensures 1 <= RatingOf(post.evaluation, f) <= 5
    {
      assert MissingField(f) !in errs && RatingOutOfRange(f) !in errs;
    }
    assert 1 <= RatingOf(post.evaluation, Technical) <= 5;
    assert 1 <= RatingOf(post.evaluation, Communication) <= 5;
    assert 1 <= RatingOf(post.evaluation, Teamwork) <= 5;
    assert 1 <= RatingOf(post.evaluation, Initiative) <= 5;
    assert 1 <= RatingOf(post.evaluation, Reliability) <= 5;
    assert 1 <= RatingOf(post.evaluation, Overall) <= 5;
    AverageInRange(post.evaluation, post.evaluation.overall);
  }
}
