/**
 * The application admin's bulk actions: approve or reject the pending applications of a
 * selection, and create intern accounts for its approved, unlinked applications.
 */
module ApplicationAdmin {
  import opened Wrappers
  import opened Accounts
  import opened Applications
  import opened ApplicationViews
  import opened Clock

  /** What a bulk review action reports. */
  datatype ReviewOutcome = NoPendingSelected | Reviewed(count: nat)

  /** The note a bulk review writes. */
  function BulkNote(d: Decision): string {
    match d
    case Approve => "Approved via admin action"
    case Reject => "Rejected via admin action"
  }

  /** The review states of a list of applications, in order. */
  function States(apps: seq<InternshipApplication>): (r: seq<ReviewState>)
    reads apps
    ensures |r| == |apps| && forall i :: 0 <= i < |apps| ==> r[i] == apps[i].State()
  {
    seq(|apps|, i requires 0 <= i < |apps| reads apps => apps[i].State())
  }

  /** How many states pass the two guards of `create_intern_account`. */
  function CountEligible(states: seq<ReviewState>): (n: nat)
    ensures n <= |states|
    ensures n == 0 <==> forall i :: 0 <= i < |states| ==> !MayCreateIntern(states[i])
  {
    if states == [] then 0
    else CountEligible(states[..|states| - 1]) + (if MayCreateIntern(states[|states| - 1]) then 1 else 0)
  }

  /** `has_intern_account` column: yes exactly when an account is linked. */
  function HasAccountColumn(app: InternshipApplication): (yes: bool)
    reads app
    ensures yes <==> app.HasInternAccount()
    ensures app.status != InternCreated && LinkConsistent(app.State()) ==> !yes
  {
    app.createdIntern.Some?
  }

  /** What the repaired bulk review leaves in one row: a pending row is decided, any other is kept. */
  function BulkReviewed(decision: Decision, s: ReviewState, admin: int, now: int): (r: ReviewState)
    ensures r.status != Pending
    ensures s.status != Pending ==> r == s
    ensures LinkConsistent(s) ==> LinkConsistent(r)
  {
    if s.status == Pending then AfterDecision(decision, s, admin, BulkNote(decision), now) else s
  }

  /** One turn of the repaired bulk review loop. */
  method ReviewRow(decision: Decision, admin: int, app: InternshipApplication, now: int) returns (hit: bool)
    modifies app
    ensures hit <==> old(app.status) == Pending
    ensures app.State() == BulkReviewed(decision, old(app.State()), admin, now)
  {
    hit := app.status == Pending;
    if hit {
      if decision == Approve {
        app.ApproveAt(admin, BulkNote(decision), now);
      } else {
        app.RejectAt(admin, BulkNote(decision), now);
      }
    }
  }

  /**
   * `approve_applications` / `reject_applications` as written: with no pending application
   * selected, a warning; otherwise the loop over the pending ones calls `approve` (`reject`)
   * on the first, which raises, so the action fails with nothing saved and no message.
   * No row changes on any path.
   */
  method BulkReview(decision: Decision, admin: int, selection: seq<InternshipApplication>)
    returns (out: Result<ReviewOutcome, AttributeError>)
    ensures out == Ok(NoPendingSelected) <==> Pending !in Statuses(selection)
    ensures out.Err? <==> Pending in Statuses(selection)
    ensures out.Err? ==> out.error == TimezoneMissing
  {
    ghost var st := Statuses(selection);
    // `pending_applications.exists()`, then the first turn of the loop over them
    var i := 0;
    while i < |selection| && selection[i].status != Pending
      invariant 0 <= i <= |selection|
      invariant forall j :: 0 <= j < i ==> st[j] != Pending
    {
      i := i + 1;
    }
    if i == |selection| {
      return Ok(NoPendingSelected);
    }
    assert st[i] == Pending;
    var r: Result<ReviewState, AttributeError>;
    if decision == Approve {
      r := selection[i].Approve(admin, BulkNote(decision));
    } else {
      r := selection[i].Reject(admin, BulkNote(decision));
    }
    out := Err(r.error);
  }

  /**
   * The two bulk review actions with the clock call repaired: with no pending application
   * selected, a warning and no change; otherwise every pending one is approved (rejected) by
   * the admin with the fixed note, every other one is left alone, the reported count is the
   * number of pending ones, and none of the selection is pending afterwards.
   */
  method BulkReviewRepaired(decision: Decision, admin: int, selection: seq<InternshipApplication>, now: int)
    returns (out: ReviewOutcome)
    requires DistinctRows(selection)
    modifies selection
    ensures Pending !in old(Statuses(selection)) ==> out == NoPendingSelected
    ensures Pending in old(Statuses(selection)) ==> out == Reviewed(CountStatus(old(Statuses(selection)), Pending))
    ensures forall i :: 0 <= i < |selection| ==>
      selection[i].State() == BulkReviewed(decision, old(selection[i].State()), admin, now)
    ensures forall i :: 0 <= i < |selection| ==> selection[i].status != Pending
    ensures old(AllLinksConsistent(selection)) ==> AllLinksConsistent(selection)
  {
    if Pending !in Statuses(selection) {
      ghost var st := Statuses(selection);
      forall i | 0 <= i < |selection|
        ensures BulkReviewed(decision, selection[i].State(), admin, now) == selection[i].State()
      {
        assert st[i] == selection[i].status;
      }
      return NoPendingSelected;
    }
    var count := ReviewEach(decision, admin, selection, now);
    out := Reviewed(count);
  }

  /** The loop of the repaired bulk review: every row reviewed in turn, pending ones counted. */
  method ReviewEach(decision: Decision, admin: int, selection: seq<InternshipApplication>, now: int)
    returns (count: nat)
    requires DistinctRows(selection)
    modifies selection
    ensures count == CountStatus(old(Statuses(selection)), Pending)
    ensures forall i :: 0 <= i < |selection| ==>
      selection[i].State() == BulkReviewed(decision, old(selection[i].State()), admin, now)
  {
    ghost var before := States(selection);
    ghost var st := StatusesOf(before);
    StatusesOfStates(selection);
    count := 0;
    for i := 0 to |selection|
      invariant forall j :: 0 <= j < |selection| ==>
        selection[j].State() == ReviewedUpTo(decision, before, admin, now, i)[j]
      invariant count == CountStatus(st[..i], Pending)
    {
      CountPrefixStep(st, i, Pending);
      var hit := ReviewStep(decision, admin, selection, now, i, before);
      if hit {
        count := count + 1;
      }
    }
    assert st[..|selection|] == st;
    forall j | 0 <= j < |selection|
      ensures selection[j].State() == BulkReviewed(decision, old(selection[j].State()), admin, now)
    {
      assert before[j] == old(selection[j].State());
    }
  }

  /** The statuses of the rows are the statuses of their states. */
  lemma StatusesOfStates(apps: seq<InternshipApplication>)
    ensures Statuses(apps) == StatusesOf(States(apps))
  {
  }

  /** The states of a selection whose first `n` rows have been through the bulk review. */
  function ReviewedUpTo(decision: Decision, before: seq<ReviewState>, admin: int, now: int, n: nat): (r: seq<ReviewState>)
    ensures |r| == |before|
    ensures forall j :: 0 <= j < |before| ==>
      r[j] == if j < n then BulkReviewed(decision, before[j], admin, now) else before[j]
  {
    seq(|before|, j requires 0 <= j < |before| =>
      if j < n then BulkReviewed(decision, before[j], admin, now) else before[j])
  }

  lemma ReviewedUpToStep(decision: Decision, before: seq<ReviewState>, admin: int, now: int, n: nat)
    requires n < |before|
    ensures ReviewedUpTo(decision, before, admin, now, n + 1)
         == ReviewedUpTo(decision, before, admin, now, n)[n := BulkReviewed(decision, before[n], admin, now)]
  {
  }

  /** Row `i` of the bulk review: the first `i + 1` rows are now reviewed, the rest untouched. */
  method ReviewStep(decision: Decision, admin: int, selection: seq<InternshipApplication>, now: int,
                    i: nat, ghost before: seq<ReviewState>) returns (hit: bool)
    requires DistinctRows(selection) && i < |selection| == |before|
    requires forall j :: 0 <= j < |selection| ==>
      selection[j].State() == ReviewedUpTo(decision, before, admin, now, i)[j]
    modifies selection[i]
    ensures hit <==> before[i].status == Pending
    ensures forall j :: 0 <= j < |selection| ==>
      selection[j].State() == ReviewedUpTo(decision, before, admin, now, i + 1)[j]
  {
    OthersDiffer(selection, i);
    ReviewedUpToStep(decision, before, admin, now, i);
    hit := ReviewRow(decision, admin, selection[i], now);
  }

  /** Extending a prefix by one status adds one to its count exactly when the status matches. */
  lemma CountPrefixStep(st: seq<Status>, i: nat, x: Status)
    requires i < |st|
    ensures CountStatus(st[..i + 1], x) == CountStatus(st[..i], x) + (if st[i] == x then 1 else 0)
  {
    assert st[..i + 1][..i] == st[..i];
  }

  /** What `create_intern_accounts` reports: a warning, or the number created and the keys that failed. */
  datatype CreateOutcome = NoneEligible | Created(count: nat, failed: seq<int>)

  /** How one row of `create_intern_accounts` went. */
  datatype RowResult = Skipped | Linked | Failed

  /** One turn of the create-accounts loop: only an approved, unlinked row is tried. */
  method CreateRow(app: InternshipApplication, users: UserTable, defaultPassword: string) returns (res: RowResult)
    requires users.Valid()
    modifies app, users
    ensures users.Valid()
    ensures res == Skipped <==> !old(MayCreateIntern(app.State()))
    ensures res != Linked ==> app.State() == old(app.State()) && users.nextId == old(users.nextId)
    ensures res == Linked ==>
      app.State() == AfterLink(old(app.State()), old(users.nextId)) && users.nextId == old(users.nextId) + 1
    ensures forall id :: id in old(users.users) ==> id in users.users && users.users[id] == old(users.users)[id]
    ensures forall id :: id in old(users.profiles) ==> id in users.profiles && users.profiles[id] == old(users.profiles)[id]
    ensures res != Linked ==> users.users == old(users.users)
    ensures res == Linked ==> HoldsInternAccount(users.users, users.profiles, users.normalizeEmail, app.applicant, old(users.nextId))
  {
    if app.status != Approved || app.createdIntern.Some? {
      return Skipped;
    }
    var r := app.CreateInternAccount(users, defaultPassword);
    res := if r.Ok? then Linked else Failed;
  }

  /**
   * The account `create_intern_account` makes for an applicant: under `id`, the intern user
   * built from the application's data, and the profile filled from it.
   */
  predicate HoldsInternAccount(users: map<int, User>, profiles: map<int, Profile>, normalize: string -> string,
                               a: Applicant, id: int) {
    && id in users && users[id] == NewUser(id, normalize(a.email), InternExtras(a))
    && id in profiles && profiles[id] == InternProfile(a)
  }

  /** The applicants of a list of applications, in order. */
  function Applicants(apps: seq<InternshipApplication>): (r: seq<Applicant>)
    ensures |r| == |apps| && forall i :: 0 <= i < |apps| ==> r[i] == apps[i].applicant
  {
    seq(|apps|, i requires 0 <= i < |apps| => apps[i].applicant)
  }

  /** Every row among the first `i` that the batch linked names the account made from its applicant. */
  predicate AccountsMade(applicants: seq<Applicant>, before: seq<ReviewState>, after: seq<ReviewState>,
                         users: map<int, User>, profiles: map<int, Profile>, normalize: string -> string, i: nat) {
    && |applicants| == |before| == |after| && i <= |after|
    && forall j :: 0 <= j < i && before[j].createdIntern.None? && after[j].createdIntern.Some? ==>
         HoldsInternAccount(users, profiles, normalize, applicants[j], after[j].createdIntern.value)
  }

  /** One more row of the batch keeps the accounts made so far, and records the one it made. */
  lemma AccountsStep(applicants: seq<Applicant>, before: seq<ReviewState>, cur: seq<ReviewState>,
                     users0: map<int, User>, profiles0: map<int, Profile>,
                     users1: map<int, User>, profiles1: map<int, Profile>,
                     normalize: string -> string, i: nat, s1: ReviewState, n0: int)
    requires AccountsMade(applicants, before, cur, users0, profiles0, normalize, i) && i < |cur|
    requires cur[i] == before[i]
    requires forall id :: id in users0 ==> id in users1 && users1[id] == users0[id]
    requires forall id :: id in profiles0 ==> id in profiles1 && profiles1[id] == profiles0[id]
    requires s1 == cur[i] || (s1 == AfterLink(cur[i], n0) && HoldsInternAccount(users1, profiles1, normalize, applicants[i], n0))
    ensures AccountsMade(applicants, before, cur[i := s1], users1, profiles1, normalize, i + 1)
  {
    var after := cur[i := s1];
    forall j | 0 <= j < i + 1 && before[j].createdIntern.None? && after[j].createdIntern.Some?
      ensures HoldsInternAccount(users1, profiles1, normalize, applicants[j], after[j].createdIntern.value)
    {
      if j < i {
        assert HoldsInternAccount(users0, profiles0, normalize, applicants[j], cur[j].createdIntern.value);
      }
    }
  }

  /** What the batch may leave in a row that was eligible: unchanged, or linked to some account. */
  predicate KeptOrLinked(before: ReviewState, now: ReviewState) {
    now == before || (now.createdIntern.Some? && now == AfterLink(before, now.createdIntern.value))
  }

  /** The keys of a list of applications, in order. */
  function Keys(apps: seq<InternshipApplication>): (r: seq<int>)
    ensures |r| == |apps| && forall i :: 0 <= i < |apps| ==> r[i] == apps[i].pk
  {
    seq(|apps|, i requires 0 <= i < |apps| => apps[i].pk)
  }

  /** The statuses of a list of review states, in order. */
  function StatusesOf(states: seq<ReviewState>): (r: seq<Status>)
    ensures |r| == |states| && forall i :: 0 <= i < |states| ==> r[i] == states[i].status
  {
    seq(|states|, i requires 0 <= i < |states| => states[i].status)
  }

  /** What the batch may do to the rows: an eligible row is kept or linked, any other is kept. */
  predicate BatchEffect(before: seq<ReviewState>, after: seq<ReviewState>) {
    |before| == |after| &&
    forall i :: 0 <= i < |before| ==>
      if MayCreateIntern(before[i]) then KeptOrLinked(before[i], after[i]) else after[i] == before[i]
  }

  /** The reported failures are exactly the eligible rows that stayed as they were. */
  predicate FailuresExact(keys: seq<int>, failed: seq<int>, before: seq<ReviewState>, after: seq<ReviewState>)
    requires |keys| == |before| == |after|
  {
    forall i :: 0 <= i < |keys| ==> (keys[i] in failed <==> MayCreateIntern(before[i]) && after[i] == before[i])
  }

  /**
   * `create_intern_accounts`: with no approved, unlinked application selected, a warning
   * and no change. Otherwise `create_intern_account` runs on each such application; one
   * that fails is reported by key and left as it was, and the loop goes on. Ineligible
   * applications are untouched, existing users are kept, the count is the number of
   * applications that reached intern_created, and count plus failures is the number of
   * eligible applications. The link rules stay intact across the whole batch.
   */
  method CreateInternAccounts(selection: seq<InternshipApplication>, users: UserTable, defaultPassword: string)
    returns (out: CreateOutcome)
    requires DistinctRows(selection) && users.Valid()
    modifies selection, users
    ensures users.Valid()
    ensures CountEligible(old(States(selection))) == 0 ==>
      && out == NoneEligible
      && States(selection) == old(States(selection))
      && users.users == old(users.users) && users.nextId == old(users.nextId)
    ensures CountEligible(old(States(selection))) > 0 ==>
      out.Created? && BatchReport(old(States(selection)), States(selection), Keys(selection), out.count, out.failed)
    ensures BatchEffect(old(States(selection)), States(selection))
    ensures forall id :: id in old(users.users) ==> id in users.users && users.users[id] == old(users.users)[id]
    ensures forall id :: id in old(users.profiles) ==> id in users.profiles && users.profiles[id] == old(users.profiles)[id]
    ensures AccountsMade(Applicants(selection), old(States(selection)), States(selection),
                         users.users, users.profiles, users.normalizeEmail, |selection|)
    ensures old(UniqueLinks(States(selection)) && LinksBelow(States(selection), users.nextId)) ==>
      UniqueLinks(States(selection)) && LinksBelow(States(selection), users.nextId)
  {
    ghost var before := States(selection);
    if CountEligible(States(selection)) == 0 {
      EligibleNoneKeeps(before);
      return NoneEligible;
    }
    var count, failed, rs := CreateEach(selection, users, defaultPassword);
    ghost var after := States(selection);
    ReportHolds(before, rs, after, Keys(selection));
    out := Created(count, failed);
  }

  /** The loop of `create_intern_accounts`, over every row of the selection; `rs` records how each row went. */
  method CreateEach(selection: seq<InternshipApplication>, users: UserTable, defaultPassword: string)
    returns (count: nat, failed: seq<int>, ghost rs: seq<RowResult>)
    requires DistinctRows(selection) && users.Valid()
    modifies selection, users
    ensures users.Valid()
    ensures RowsAgree(old(States(selection)), rs, States(selection))
    ensures count == CountResult(rs, Linked)
    ensures failed == FailedKeys(Keys(selection), rs)
    ensures forall id :: id in old(users.users) ==> id in users.users && users.users[id] == old(users.users)[id]
    ensures forall id :: id in old(users.profiles) ==> id in users.profiles && users.profiles[id] == old(users.profiles)[id]
    ensures AccountsMade(Applicants(selection), old(States(selection)), States(selection),
                         users.users, users.profiles, users.normalizeEmail, |selection|)
    ensures old(UniqueLinks(States(selection)) && LinksBelow(States(selection), users.nextId)) ==>
      UniqueLinks(States(selection)) && LinksBelow(States(selection), users.nextId)
  {
    ghost var before := States(selection);
    ghost var keys := Keys(selection);
    ghost var applicants := Applicants(selection);
    ghost var oldUsers := users.users;
    ghost var oldProfiles := users.profiles;
    ghost var linksGood := UniqueLinks(before) && LinksBelow(before, users.nextId);
    count := 0;
    failed := [];
    ghost var cur := before;
    rs := [];
    for i := 0 to |selection|
      invariant users.Valid()
      invariant |cur| == |selection|
      invariant forall j :: 0 <= j < |selection| ==> selection[j].State() == cur[j]
      invariant Progress(before, rs, cur, i)
      invariant count == CountResult(rs, Linked)
      invariant failed == FailedKeys(keys, rs)
      invariant linksGood ==> UniqueLinks(cur) && LinksBelow(cur, users.nextId)
      invariant forall id :: id in oldUsers ==> id in users.users && users.users[id] == oldUsers[id]
      invariant forall id :: id in oldProfiles ==> id in users.profiles && users.profiles[id] == oldProfiles[id]
      invariant AccountsMade(applicants, before, cur, users.users, users.profiles, users.normalizeEmail, i)
    {
      ghost var n0 := users.nextId;
      ghost var users0, profiles0 := users.users, users.profiles;
      var res, s1 := CreateStep(selection, users, defaultPassword, i, cur);
      AccountsStep(applicants, before, cur, users0, profiles0, users.users, users.profiles, users.normalizeEmail, i, s1, n0);
      if linksGood {
        LinkStep(cur, i, n0, s1);
      }
      ProgressStep(before, rs, cur, i, res, s1);
      CountResultSnoc(rs, res, Linked);
      FailedKeysSnoc(keys, rs, res);
      if res == Linked {
        count := count + 1;
      } else if res == Failed {
        failed := failed + [selection[i].pk];
      }
      cur := cur[i := s1];
      rs := rs + [res];
    }
    assert cur == States(selection);
  }

  /**
   * After `i` rows of the batch: the first `i` rows agree with their results and the
   * rest are as they were.
   */
  predicate Progress(before: seq<ReviewState>, rs: seq<RowResult>, cur: seq<ReviewState>, i: nat) {
    && |cur| == |before| && |rs| == i <= |before|
    && (forall j :: i <= j < |before| ==> cur[j] == before[j])
    && (forall j :: 0 <= j < i ==> RowAgrees(before[j], rs[j], cur[j]))
  }

  lemma ProgressStep(before: seq<ReviewState>, rs: seq<RowResult>, cur: seq<ReviewState>, i: nat,
                     res: RowResult, s1: ReviewState)
    requires Progress(before, rs, cur, i) && i < |before| && RowAgrees(cur[i], res, s1)
    ensures Progress(before, rs + [res], cur[i := s1], i + 1)
  {
  }

  /** Row `i` of the account-creation batch; every other row keeps its state. */
  method CreateStep(selection: seq<InternshipApplication>, users: UserTable, defaultPassword: string,
                    i: nat, ghost cur: seq<ReviewState>) returns (res: RowResult, ghost s1: ReviewState)
    requires DistinctRows(selection) && users.Valid() && i < |selection| == |cur|
    requires forall j :: 0 <= j < |selection| ==> selection[j].State() == cur[j]
    modifies selection[i], users
    ensures users.Valid()
    ensures forall j :: 0 <= j < |selection| ==> selection[j].State() == cur[i := s1][j]
    ensures RowAgrees(cur[i], res, s1)
    ensures s1 == cur[i] || (cur[i].createdIntern.None? && s1 == AfterLink(cur[i], old(users.nextId))
      && HoldsInternAccount(users.users, users.profiles, users.normalizeEmail, selection[i].applicant, old(users.nextId)))
    ensures users.nextId == if res == Linked then old(users.nextId) + 1 else old(users.nextId)
    ensures forall id :: id in old(users.users) ==> id in users.users && users.users[id] == old(users.users)[id]
    ensures forall id :: id in old(users.profiles) ==> id in users.profiles && users.profiles[id] == old(users.profiles)[id]
  {
    OthersDiffer(selection, i);
    res := CreateRow(selection[i], users, defaultPassword);
    s1 := selection[i].State();
  }

  /** With nothing eligible, leaving every row as it was is an allowed batch effect. */
  lemma EligibleNoneKeeps(states: seq<ReviewState>)
    ensures BatchEffect(states, states)
  {
  }

  /**
   * What the batch reports, against the rows' states before and after: created plus
   * failed is the eligible count, created is the rise in intern_created, and the failed
   * keys are exactly the eligible rows left as they were.
   */
  predicate BatchReport(before: seq<ReviewState>, after: seq<ReviewState>, keys: seq<int>, count: nat, failed: seq<int>) {
    && |before| == |after| == |keys|
    && count + |failed| == CountEligible(before)
    && count + CountStatus(StatusesOf(before), InternCreated) == CountStatus(StatusesOf(after), InternCreated)
    && FailuresExact(keys, failed, before, after)
  }

  /** Rows that agree with their recorded results give the report built from those results. */
  lemma ReportHolds(before: seq<ReviewState>, rs: seq<RowResult>, after: seq<ReviewState>, keys: seq<int>)
    requires RowsAgree(before, rs, after) && |keys| == |rs|
    requires forall j, k :: 0 <= j < k < |keys| ==> keys[j] != keys[k]
    ensures BatchReport(before, after, keys, CountResult(rs, Linked), FailedKeys(keys, rs))
    ensures BatchEffect(before, after)
  {
    OutcomesCoverEligible(before, rs, after);
    LinkedRaiseCount(before, rs, after);
    FailedKeysExact(keys, before, rs, after);
  }

  /** The heap link predicates say the same as their counterparts on the rows' states. */
  lemma LinksOfStates(apps: seq<InternshipApplication>, n: int)
    ensures OneApplicationPerIntern(apps) <==> UniqueLinks(States(apps))
    ensures LinksIssued(apps, n) <==> LinksBelow(States(apps), n)
  {
  }

  /** Each row of the batch agrees with its recorded result. */
  predicate RowsAgree(before: seq<ReviewState>, rs: seq<RowResult>, after: seq<ReviewState>) {
    |before| == |rs| == |after| && forall j :: 0 <= j < |rs| ==> RowAgrees(before[j], rs[j], after[j])
  }

  /** How row `r` of the batch relates the state before `b` and the state after `c`. */
  predicate RowAgrees(b: ReviewState, r: RowResult, c: ReviewState) {
    && (r == Skipped <==> !MayCreateIntern(b))
    && (r == Linked ==> c.createdIntern.Some? && c == AfterLink(b, c.createdIntern.value))
    && (r != Linked ==> c == b)
  }

  /** How many rows ended with result `x`. */
  function CountResult(rs: seq<RowResult>, x: RowResult): (n: nat)
    ensures n <= |rs|
  {
    if rs == [] then 0 else CountResult(rs[..|rs| - 1], x) + (if rs[|rs| - 1] == x then 1 else 0)
  }

  lemma CountResultSnoc(rs: seq<RowResult>, r: RowResult, x: RowResult)
    ensures CountResult(rs + [r], x) == CountResult(rs, x) + (if r == x then 1 else 0)
  {
    assert (rs + [r])[..|rs|] == rs;
  }

  /** The keys of the rows that failed, in selection order (row `j` has key `keys[j]`). */
  function FailedKeys(keys: seq<int>, rs: seq<RowResult>): (r: seq<int>)
    requires |rs| <= |keys|
    ensures |r| == CountResult(rs, Failed)
    ensures forall k :: k in r ==> k in keys[..|rs|]
  {
    if rs == [] then []
    else
      var n := |rs| - 1;
      var r0 := FailedKeys(keys, rs[..n]);
      assert keys[..n] <= keys[..|rs|];
      if rs[n] == Failed then r0 + [keys[n]] else r0
  }

  lemma FailedKeysSnoc(keys: seq<int>, rs: seq<RowResult>, r: RowResult)
    requires |rs| < |keys|
    ensures FailedKeys(keys, rs + [r]) == FailedKeys(keys, rs) + (if r == Failed then [keys[|rs|]] else [])
  {
    assert (rs + [r])[..|rs|] == rs;
  }

  /** Every eligible row either got an account or failed: the two counts make up the eligible count. */
  lemma OutcomesCoverEligible(before: seq<ReviewState>, rs: seq<RowResult>, after: seq<ReviewState>)
    requires RowsAgree(before, rs, after)
    ensures CountResult(rs, Linked) + CountResult(rs, Failed) == CountEligible(before)
    ensures BatchEffect(before, after)
  {
    CoverUpTo(before, rs, after, |rs|);
    assert rs[..|rs|] == rs && before[..|rs|] == before;
  }

  lemma {:induction false} CoverUpTo(before: seq<ReviewState>, rs: seq<RowResult>, after: seq<ReviewState>, n: nat)
    requires RowsAgree(before, rs, after) && n <= |rs|
    ensures CountResult(rs[..n], Linked) + CountResult(rs[..n], Failed) == CountEligible(before[..n])
  {
    if n > 0 {
      var k := n - 1;
      CoverUpTo(before, rs, after, k);
      EligiblePrefixStep(before, k);
      ResultPrefixStep(rs, k, Linked);
      ResultPrefixStep(rs, k, Failed);
      assert RowAgrees(before[k], rs[k], after[k]);
    }
  }

  lemma EligiblePrefixStep(states: seq<ReviewState>, i: nat)
    requires i < |states|
    ensures CountEligible(states[..i + 1]) == CountEligible(states[..i]) + (if MayCreateIntern(states[i]) then 1 else 0)
  {
    assert states[..i + 1][..i] == states[..i];
  }

  lemma ResultPrefixStep(rs: seq<RowResult>, i: nat, x: RowResult)
    requires i < |rs|
    ensures CountResult(rs[..i + 1], x) == CountResult(rs[..i], x) + (if rs[i] == x then 1 else 0)
  {
    assert rs[..i + 1][..i] == rs[..i];
  }

  /** Each account created moves one row to intern_created, and no other row changes status. */
  lemma LinkedRaiseCount(before: seq<ReviewState>, rs: seq<RowResult>, after: seq<ReviewState>)
    requires RowsAgree(before, rs, after)
    ensures CountResult(rs, Linked) + CountStatus(StatusesOf(before), InternCreated)
            == CountStatus(StatusesOf(after), InternCreated)
  {
    var sb, sa := StatusesOf(before), StatusesOf(after);
    RaiseUpTo(rs, sb, sa, |rs|) by {
      forall j | 0 <= j < |rs| ensures (rs[j] == Linked) == (sb[j] != InternCreated && sa[j] == InternCreated)
      {
        assert RowAgrees(before[j], rs[j], after[j]);
      }
      forall j | 0 <= j < |rs| && rs[j] != Linked ensures sb[j] == sa[j]
      {
        assert RowAgrees(before[j], rs[j], after[j]);
      }
    }
    assert rs[..|rs|] == rs && sb[..|rs|] == sb && sa[..|rs|] == sa;
  }

  lemma {:induction false} RaiseUpTo(rs: seq<RowResult>, sb: seq<Status>, sa: seq<Status>, n: nat)
    requires |rs| == |sb| == |sa| && n <= |rs|
    requires forall j :: 0 <= j < |rs| ==> (rs[j] == Linked) == (sb[j] != InternCreated && sa[j] == InternCreated)
    requires forall j :: 0 <= j < |rs| && rs[j] != Linked ==> sb[j] == sa[j]
    ensures CountResult(rs[..n], Linked) + CountStatus(sb[..n], InternCreated) == CountStatus(sa[..n], InternCreated)
  {
    if n > 0 {
      var k := n - 1;
      RaiseUpTo(rs, sb, sa, k);
      CountPrefixStep(sb, k, InternCreated);
      CountPrefixStep(sa, k, InternCreated);
      ResultPrefixStep(rs, k, Linked);
      assert (rs[k] == Linked) == (sb[k] != InternCreated && sa[k] == InternCreated);
      assert rs[k] != Linked ==> sb[k] == sa[k];
    }
  }

  /** With distinct keys, a key is reported as failed exactly when its row was eligible and stayed as it was. */
  lemma FailedKeysExact(keys: seq<int>, before: seq<ReviewState>, rs: seq<RowResult>, after: seq<ReviewState>)
    requires |keys| == |rs| && RowsAgree(before, rs, after)
    requires forall j, k :: 0 <= j < k < |keys| ==> keys[j] != keys[k]
    ensures FailuresExact(keys, FailedKeys(keys, rs), before, after)
  {
    forall j | 0 <= j < |keys|
      ensures keys[j] in FailedKeys(keys, rs) <==> MayCreateIntern(before[j]) && after[j] == before[j]
    {
      FailedKeysHas(keys, rs, j);
      if rs[j] == Linked {
        assert after[j].status == InternCreated;
      }
    }
  }

  lemma {:induction false} FailedKeysHas(keys: seq<int>, rs: seq<RowResult>, j: nat)
    requires |rs| <= |keys| && j < |rs|
    requires forall a, b :: 0 <= a < b < |keys| ==> keys[a] != keys[b]
    ensures keys[j] in FailedKeys(keys, rs) <==> rs[j] == Failed
  {
    var n := |rs| - 1;
    if j < n {
      FailedKeysHas(keys, rs[..n], j);
      assert keys[n] != keys[j];
    } else {
      assert keys[j] !in keys[..n] by {
        forall a | 0 <= a < n ensures keys[..n][a] != keys[j] {
          assert keys[a] != keys[n];
        }
      }
    }
  }

  /** No account id is linked from two of the states. */
  predicate UniqueLinks(states: seq<ReviewState>) {
    forall i, j :: 0 <= i < j < |states| && states[i].createdIntern.Some? ==> states[i].createdIntern != states[j].createdIntern
  }

  /** Every linked account id in the states is below `nextId`. */
  predicate LinksBelow(states: seq<ReviewState>, nextId: int) {
    forall i :: 0 <= i < |states| && states[i].createdIntern.Some? ==> states[i].createdIntern.value < nextId
  }



  /** Linking row `i` to the next fresh id keeps ids unique and below the new counter. */
  lemma LinkStep(cur: seq<ReviewState>, i: nat, n: int, s1: ReviewState)
    requires i < |cur| && UniqueLinks(cur) && LinksBelow(cur, n)
    requires s1 == cur[i] || (cur[i].createdIntern.None? && s1 == AfterLink(cur[i], n))
    ensures UniqueLinks(cur[i := s1])
    ensures s1 == cur[i] ==> LinksBelow(cur[i := s1], n)
    ensures LinksBelow(cur[i := s1], n + 1)
  {
  }
}
