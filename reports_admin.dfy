/**
 * The report admin: the two bulk actions that move the selected reports that are submitted
 * or under review to reviewed or to needs_revision with one `UPDATE ... SET status = ...`,
 * and the evaluation list's average-rating column.
 */
module ReportAdmin {
  import opened Wrappers
  import opened Reports

  /** The two bulk actions and the status each writes. */
  datatype BulkAction = MarkAsReviewed | SendBack

  function Target(a: BulkAction): (st: ReportStatus)
    ensures st !in {Draft, Submitted, UnderReview}
  {
    match a
    case MarkAsReviewed => Reviewed
    case SendBack => NeedsRevision
  }

  /** The statuses the actions' filter lets through. */
  predicate Movable(s: ReportState) {
    s.status in {Submitted, UnderReview}
  }

  /** One row after the action: a movable row takes the action's status and nothing else changes. */
  function Bulked(s: ReportState, a: BulkAction): (r: ReportState)
    ensures Movable(s) ==> r.status == Target(a)
    ensures !Movable(s) ==> r == s
    ensures r.(status := s.status) == s
    ensures !Movable(r)
  {
    if Movable(s) then s.(status := Target(a)) else s
  }

  /** The rows of a selection after the action, in order. */
  function BulkedAll(states: seq<ReportState>, a: BulkAction): (r: seq<ReportState>)
    ensures |r| == |states| && forall i :: 0 <= i < |states| ==> r[i] == Bulked(states[i], a)
  {
    seq(|states|, i requires 0 <= i < |states| => Bulked(states[i], a))
  }

  /** How many rows the action's filter lets through: the number `update()` returns. */
  function CountMovable(states: seq<ReportState>): (n: nat)
    ensures n <= |states|
  {
    if states == [] then 0
    else CountMovable(states[..|states| - 1]) + (if Movable(states[|states| - 1]) then 1 else 0)
  }

  /** How many positions hold a different status in `a` and `b`. */
  function CountChanged(a: seq<ReportState>, b: seq<ReportState>): (n: nat)
    requires |a| == |b|
    ensures n <= |a|
  {
    if a == [] then 0
    else CountChanged(a[..|a| - 1], b[..|b| - 1]) + (if a[|a| - 1].status != b[|b| - 1].status then 1 else 0)
  }

  lemma BulkedAllPrefix(states: seq<ReportState>, a: BulkAction)
    requires states != []
    ensures BulkedAll(states, a)[..|states| - 1] == BulkedAll(states[..|states| - 1], a)
  {
  }

  /**
   * The reported count is the number of reports whose status the action changed, and a
   * second run of the same action reports 0 and changes nothing.
   */
  lemma {:induction false} CountIsChanged(states: seq<ReportState>, a: BulkAction)
    ensures CountMovable(states) == CountChanged(states, BulkedAll(states, a))
    ensures CountMovable(BulkedAll(states, a)) == 0
    decreases |states|
  {
    if states != [] {
      var n := |states| - 1;
      BulkedAllPrefix(states, a);
      CountIsChanged(states[..n], a);
    }
  }

  /** After either action, running either action again leaves every row as it is. */
  lemma BulkedIdempotent(states: seq<ReportState>, a: BulkAction, b: BulkAction)
    ensures BulkedAll(BulkedAll(states, a), b) == BulkedAll(states, a)
  {
  }

  /** Drafts, reports already reviewed and reports sent back are never touched. */
  lemma BulkSkipsOtherStatuses(s: ReportState, a: BulkAction)
    requires s.status in {Draft, Reviewed, NeedsRevision}
    ensures Bulked(s, a) == s
  {
  }

  /**
   * Unlike `complete_review`, the action writes no reviewer, feedback, rating or review
   * date: a submitted report that nobody reviewed becomes "reviewed" without a reviewer.
   */
  lemma BulkReviewedUnstamped(s: ReportState)
    requires s.status == Submitted && s.reviewedBy.None?
    ensures Bulked(s, MarkAsReviewed).status == Reviewed && !ReviewStamped(Bulked(s, MarkAsReviewed))
  {
  }

  /** The review states of a list of reports, in order. */
  function StatesOf(reports: seq<InternReport>): (r: seq<ReportState>)
    reads reports
    ensures |r| == |reports| && forall i :: 0 <= i < |reports| ==> r[i] == reports[i].State()
  {
    seq(|reports|, i requires 0 <= i < |reports| reads reports => reports[i].State())
  }

  /**
   * `mark_as_reviewed` / `request_revision`: `queryset.filter(status__in=[submitted,
   * under_review]).update(status=...)` over the selection, returning the number of rows
   * updated. Every selected report becomes `Bulked` of what it was.
   */
  method BulkUpdate(selection: seq<InternReport>, a: BulkAction) returns (updated: nat)
    requires DistinctReports(selection)
    modifies selection
    ensures updated == CountMovable(old(StatesOf(selection)))
    ensures forall i :: 0 <= i < |selection| ==> selection[i].State() == Bulked(old(selection[i].State()), a)
  {
    updated := CountMovable(StatesOf(selection));
    var target := Target(a);
    forall i | 0 <= i < |selection| && selection[i].status in {Submitted, UnderReview} {
      selection[i].status := target;
    }
  }

  /** `mark_as_reviewed`. */
  method MarkSelectedReviewed(selection: seq<InternReport>) returns (updated: nat)
    requires DistinctReports(selection)
    modifies selection
    ensures updated == CountMovable(old(StatesOf(selection)))
    ensures forall i :: 0 <= i < |selection| ==> selection[i].State() == Bulked(old(selection[i].State()), MarkAsReviewed)
  {
    updated := BulkUpdate(selection, MarkAsReviewed);
  }

  /** `request_revision`. */
  method RequestSelectedRevision(selection: seq<InternReport>) returns (updated: nat)
    requires DistinctReports(selection)
    modifies selection
    ensures updated == CountMovable(old(StatesOf(selection)))
    ensures forall i :: 0 <= i < |selection| ==> selection[i].State() == Bulked(old(selection[i].State()), SendBack)
  {
    updated := BulkUpdate(selection, SendBack);
  }

  datatype Colour = Green | Orange | Red

  /** `average_rating_display`'s colour: green from 4.5, orange from 3.5, red below. */
  function AverageColour(avg: real): (c: Colour)
    ensures c == Green <==> avg >= 4.5
    ensures c == Orange <==> 3.5 <= avg < 4.5
    ensures c == Red <==> avg < 3.5
  {
    if avg >= 4.5 then Green
    else if avg >= 3.5 then Orange
    else Red
  }

  /**
   * In terms of the five ratings' sum: green from a sum of 23, orange from 18 to 22, red up
   * to 17 (the average is the sum over 5, and the sums are whole numbers).
   */
  lemma AverageColourBySum(e: Evaluation)
    ensures AverageColour(AverageRating(e)) == Green <==> RatingSum(e) >= 23
    ensures AverageColour(AverageRating(e)) == Orange <==> 18 <= RatingSum(e) <= 22
    ensures AverageColour(AverageRating(e)) == Red <==> RatingSum(e) <= 17
  {
    var s := RatingSum(e);
    assert AverageRating(e) * 5.0 == s as real;
    assert s >= 23 <==> s as real >= 22.5;
    assert s >= 18 <==> s as real >= 17.5;
  }

  /**
   * An argument as `str.format` sees it: a number, or the safe string `conditional_escape`
   * makes of an argument (its text is not modelled).
   */
  datatype FormatArg = Number(x: real) | SafeText

  datatype ValueError = UnknownFormatCode(code: char)

  /** The `{:.1f}` field of `str.format`: defined on a number, a `ValueError` on a string. */
  function FixedOneDecimal(a: FormatArg): (r: Result<real, ValueError>)
    ensures r.Ok? <==> a.Number?
    ensures r.Ok? ==> r.value == a.x
    ensures r.Err? ==> r.error == UnknownFormatCode('f')
  {
    match a
    case Number(x) => Ok(x)
    case SafeText => Err(UnknownFormatCode('f'))
  }

  /** What the column shows: the colour and the average it prints to one decimal. */
  datatype RatingDisplay = RatingDisplay(colour: Colour, average: real)

  /**
   * `average_rating_display` as written: `format_html` escapes every argument, the average
   * included, before calling `str.format`, so the `{:.1f}` field meets a string and raises.
   */
  function AverageRatingDisplayAsWritten(e: Evaluation): (r: Result<RatingDisplay, ValueError>)
    ensures r == Err(UnknownFormatCode('f'))
  {
    var colour := AverageColour(AverageRating(e));
    match FixedOneDecimal(SafeText)
    case Ok(avg) => Ok(RatingDisplay(colour, avg))
    case Err(err) => Err(err)
  }

  /**
   * The column with the average formatted before it is handed to `format_html`: the colour
   * of the average, and the average itself.
   */
  function AverageRatingDisplay(e: Evaluation): (r: RatingDisplay)
    ensures r.average == AverageRating(e) && r.colour == AverageColour(r.average)
  {
    var avg := FixedOneDecimal(Number(AverageRating(e))).value;
    RatingDisplay(AverageColour(avg), avg)
  }

  /**
   * As written the column fails for every evaluation; formatted first, it shows green from
   * a rating sum of 23, orange from 18 and red below.
   */
  lemma RatingColumnFails(e: Evaluation)
    ensures AverageRatingDisplayAsWritten(e).Err?
    ensures AverageRatingDisplay(e).colour == Green <==> RatingSum(e) >= 23
    ensures AverageRatingDisplay(e).colour == Red <==> RatingSum(e) <= 17
  {
    AverageColourBySum(e);
  }
}
