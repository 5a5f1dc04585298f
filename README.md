# Internship management: a Dafny model

This project models the rules at the core of an internship management system. The system
has two implementations, and they are modelled separately.

- **Django side.**
  - Visitors apply for internships. Administrators approve or reject the applications.
  - An approved application is turned into an intern account, linked one-to-one to its application.
  - Interns file periodic reports, which supervisors review.
  - Supervisors write evaluations with six 1–5 ratings.
  - Users carry a role and an approval flag, and the capabilities derive from the two.
  - The admin site runs bulk actions over selected rows.
- **PHP side.** It has its own `users` table:
  - registration, login and logout;
  - the role gates;
  - an admin page that creates, updates, deletes and approves users;
  - the helpers for URLs and CSRF tokens.

## How the model is organised

Each source file of the core has one module. Values are datatypes, and rows the source changes
in place are classes:

- an application (`Applications.InternshipApplication`);
- a report (`Reports.InternReport`);
- the user tables (`Accounts.UserTable`, `PhpAuth.UserTable`);
- the internship catalog (`Internships.Catalog`);
- the PHP session (`PhpHelpers.Session`).

The state-changing methods say what the new state is by pointing to a pure function of the old
state, such as `AfterApprove`, `AfterSubmit`, `WithApproval`, `WithFlag`, `Bulked` or
`ActionEffect`. The lemmas prove the promised properties about those functions.

Query sets are sequences or maps:

- a filtered `get_object_or_404` is a lookup inside a scope;
- a bulk `queryset.update` is a parallel assignment over the selected rows;
- a loop over a query set is a `for` loop with its invariants.

Values from outside the model are passed in as parameters:

- the clock (`now`, `today`), for the repaired operations described below;
- randomness (`random_bytes`);
- password hashing and checking;
- email normalisation and validation;
- locale number formatting.

### Operations that fail as written

Several operations never get to store anything, because they raise before `save()`:

- the applications' `approve` and `reject`, and the reports' `submit`, `complete_review` and
  `request_revision` call `models.timezone.now()`, and `django.db.models` has no `timezone`
  attribute, so each raises `AttributeError`;
- the internship form's `__init__` reads `settings.CURRENCY`, and the module never imports
  `settings`, so building the form raises `NameError`;
- the evaluation admin's average-rating column hands the average to `format_html`, which
  escapes it into a string before `{:.1f}` is applied, so it raises `ValueError`.

Each is modelled twice. The as-written member returns the error and changes nothing; the views
built on it answer with a server error. The repaired member (named `...At` or `...Repaired`,
taking the clock as `now`) does what the code evidently intends, and the remaining lemmas are
about it. "## Findings" lists both halves of each.

### Behaviour worth knowing

- **Approving and rejecting.** The views refuse a decision on an application that is not
  pending (applications/views.py:125-127), but the model methods `approve` and `reject` check
  nothing themselves (applications/models.py:195-209). As written the calls raise, so nothing
  is stored; once repaired, calling `approve` on a linked application would break the
  link/status agreement (`Applications.UncheckedApproveBreaksLink`).
- **Resubmitting a report.** The submit view finds a report in draft or needs_revision
  (reports/views.py:99-104), but `submit()` moves only drafts (reports/models.py:183-188). A
  report sent back therefore stays in needs_revision (`Reports.ResubmitStaysInRevision`), while
  a draft's submission raises (`Reports.NewReportStaysDraft`).
- **Reviewing a report.** `complete_review` and `request_revision` check no status
  (reports/models.py:197-212). As written they raise; once repaired, a draft could be marked
  reviewed without ever being submitted (`Reports.DraftCanBeReviewed`). The admin bulk actions
  do filter on the status (reports/admin.py:63-67), but they record no reviewer
  (`ReportAdmin.BulkReviewedUnstamped`).
- **Logging in and the report views.** Login admits a user who is approved or a superuser
  (accounts/views.py:36). The report views' mixins test the role only, not the approval flag
  (reports/views.py:14-23, `ReportViews.GateIgnoresApproval`).
- **Duplicate applications.** `clean_email` looks up an existing application for the same
  email and internship (applications/forms.py:80-94), but it can never fire, because
  `internship` comes after `email` in the form's fields and has not been cleaned yet when it
  runs. Duplicates are refused by the model form's unique (email, internship) check instead
  (`ApplicationForms.FormErrors`).

## Model

| member | source | states |
|---|---|---|
| `Text.StripLeft` | accounts/models.py:104 | the result is the suffix of the input left after removing the leading whitespace run, and it does not start with whitespace |
| `Text.StripRight` | accounts/models.py:104 | the result is the prefix left after removing the trailing whitespace run, and it does not end with whitespace |
| `Text.Strip` | accounts/models.py:102-104 | the stripped text is the stretch of the input between a leading and a trailing run of whitespace (ASCII and Unicode whitespace alike), and it neither starts nor ends with whitespace |
| `Text.JoinedNameStrip` | accounts/models.py:102-104 | for trimmed parts the full name is "first last"; two empty parts give ""; an empty last name gives the first name alone |
| `Text.PrefixBefore` | applications/models.py:224 | `split('@')[0]` is a prefix of the email, holds no `@`, and is followed by `@` when shorter than the email |
| `Accounts.NewUser` | accounts/models.py:58-68 | a new user keeps the given id and email; with no extra fields passed it is an active, unapproved intern without staff or superuser status, and so holds no capability |
| `Accounts.RolePredicatesExclusive` | accounts/models.py:110-123 | `is_admin`, `is_supervisor` and `is_intern` exclude each other, and one holds exactly when the role is a declared choice |
| `Accounts.CapabilitiesExclusive` | accounts/models.py:125-135 | at most one `can_*` capability holds; an unapproved user has none; an approved user with a declared role has the one its role names |
| `Accounts.FullNameOfTrimmedParts` | accounts/models.py:102-104 | `get_full_name` of trimmed name parts is the two joined by one space |
| `Accounts.UserTable.CreateUser` | accounts/models.py:13-21 | an empty email raises; an email already in use raises; otherwise exactly one user is added under a fresh id with the normalised email and the model's defaults, plus a blank profile; a failure changes nothing; emails stay unique |
| `Accounts.SuperuserFields` | accounts/models.py:25-28 | `setdefault`: each of staff, superuser, approved and role keeps an explicit value and otherwise defaults to true, true, true and admin; no other field changes |
| `Accounts.UserTable.CreateSuperuser` | accounts/models.py:23-35 | succeeds exactly when neither flag is explicitly false, the email is not empty and not taken; an explicit false `is_staff` or `is_superuser` raises before anything is written; on success one user with `SuperuserFields` is added under the next id, with a blank profile |
| `Accounts.UserTable.ProfileFor` | accounts/views.py:71-73 | `get_or_create`: the user's profile, created blank only when missing; the other profiles are unchanged |
| `AccountAdmin.WithApproval` | accounts/admin.py:53-68 | the bulk update sets `is_approved` on exactly the selected users; every other field and every unselected user are unchanged |
| `AccountAdmin.WithApprovalKeepsEmailsUnique` | accounts/admin.py:53-68 | the bulk update keeps emails unique |
| `AccountAdmin.WithApprovalIdempotent` | accounts/admin.py:53-68 | running either action twice gives the same table as running it once |
| `AccountAdmin.ApprovalDecidesCapabilities` | accounts/admin.py:62-64 | after `disapprove_users` no selected user holds a capability; after `approve_users` each selected user holds exactly the one its role names |
| `AccountAdmin.ApproveUsers` | accounts/admin.py:53-59 | approves every selected user whatever the role, and reports the selection size |
| `AccountAdmin.DisapproveUsers` | accounts/admin.py:62-68 | disapproves every selected user and reports the selection size |
| `AccountViews.Login` | accounts/views.py:20-47 | login succeeds exactly for an approved user or a superuser; an admin goes to the admin dashboard, a supervisor to the supervisor dashboard, an intern to the intern dashboard, any other role to the profile page |
| `AccountViews.LoginFollowsCapability` | accounts/views.py:20-41 | a user holding a capability lands on that capability's dashboard; an unapproved user who is not a superuser is refused |
| `AccountViews.ProfileToEdit` | accounts/views.py:71-73 | profile editing always targets the requester's own profile, creating it if missing, and no other profile changes |
| `AccountForms.FieldsFor` | accounts/forms.py:38-55 | the fields left on the form always include the contact and social fields and never go beyond the thirteen profile fields |
| `AccountForms.RequiredFor` | accounts/forms.py:38-51 | a field made required is never one the role removes |
| `AccountForms.ProfileRolesSeparate` | accounts/forms.py:38-55 | an intern's form shows no professional field and a supervisor's no educational field; the two roles require disjoint fields; any other owner keeps all thirteen fields, none required |
| `AccountForms.ProfileForm.constructor` | accounts/forms.py:28-55 | after `__init__` the form holds exactly the fields its owner's role keeps; each is required exactly when the role requires it, and each carries the `form-control` class |
| `Applications.InternAccountShape` | applications/models.py:223-232 | the created user is an approved, active intern able to submit reports, not staff or superuser, carrying the applicant's names and phone; its username has no `@` and is a prefix of the email |
| `Applications.ReviewAsWritten` | applications/models.py:195-209 | `approve` and `reject` as written raise `AttributeError` at the clock call, whatever the application |
| `Applications.LinkIsFinal` | applications/models.py:216-248 | after a link, `create_intern_account`'s guards fail and link and status agree |
| `Applications.UncheckedApproveBreaksLink` | applications/models.py:195-209 | as written `approve` and `reject` on a linked application raise; repaired, they would leave the link under a status other than intern_created |
| `Applications.DecisionNeverStored` | applications/models.py:195-209 | on a pending application both calls raise, so it stays pending; the repaired decisions would set the status, the reviewer and the date |
| `Applications.InternshipApplication.constructor` | applications/models.py:123-128 | a new application is pending, unreviewed and unlinked |
| `Applications.InternshipApplication.Approve` | applications/models.py:195-201 | as written: returns the `AttributeError` and changes nothing |
| `Applications.InternshipApplication.Reject` | applications/models.py:203-209 | as written: returns the `AttributeError` and changes nothing |
| `Applications.InternshipApplication.ApproveAt` | applications/models.py:195-201 | repaired: from any status, approved, reviewer = admin, review date = now, notes recorded; the link is untouched |
| `Applications.InternshipApplication.RejectAt` | applications/models.py:203-209 | repaired: from any status, rejected, reviewer = admin, review date = now, notes recorded |
| `Applications.InternshipApplication.CreateInternAccount` | applications/models.py:211-250 | raises and changes nothing when the status is not approved, or when an account is already linked; otherwise it succeeds exactly when the email is not empty and not taken; a failure changes nothing; on success one intern user is added, its profile gets the seven address and education fields, the application is linked to it, and the status becomes intern_created |
| `Applications.InternshipApplication.LinkNewAccount` | applications/models.py:222-250 | the part past the guards: succeeds exactly when the email is not empty and not taken, then creates the user, fills the profile, links it and moves to intern_created |
| `Applications.Statuses` | applications/views.py:98-104 | the statuses of the listed applications, in order |
| `Applications.CountStatus` | applications/views.py:100-103 | a status count is at most the total, and is zero exactly when the status does not occur |
| `Applications.StatusPartition` | applications/views.py:98-104 | total = pending + approved + rejected + intern_created |
| `Applications.OthersDiffer` | applications/models.py:170 | rows with distinct keys are distinct objects |
| `ApplicationForms.CleanedBy` | applications/forms.py:16-25 | the fields already cleaned when a field's cleaner runs include that field |
| `ApplicationForms.IndexIn` | applications/forms.py:16-25 | the position of a field in the field order is its first occurrence |
| `ApplicationForms.InternshipNotCleanedBeforeEmail` | applications/forms.py:16-25 | `internship` comes after `email` in the field order, so it is not cleaned when `clean_email` runs |
| `ApplicationForms.CleanEmail` | applications/forms.py:80-96 | rejects exactly when both email and internship are present and another application, not the one being edited, has them; otherwise it returns the email |
| `ApplicationForms.CleanEmailNeverFires` | applications/forms.py:83-85 | as the form calls it, with no cleaned internship, `clean_email` never rejects |
| `ApplicationForms.CleanCvResume` | applications/forms.py:98-104 | a present CV larger than 5 MiB is rejected; an absent CV passes unchanged |
| `ApplicationForms.CvCeilingBoundary` | applications/forms.py:102-103 | exactly 5 242 880 bytes is accepted and one byte more is rejected |
| `ApplicationForms.FormErrors` | applications/forms.py:56-71 | of the errors modelled (the model-field validators are listed under "## Left out"): a missing-field error is reported exactly for each required field not supplied; the empty-file error exactly when a zero-byte CV is given; the size error exactly when a CV over 5 MiB is given; the `clean_email` error never appears; the unique (email, internship) error appears exactly when both are given and taken |
| `ApplicationForms.AcceptedKeepsOnePerEmail` | applications/models.py:170 | saving an accepted submission keeps one application per (email, internship) |
| `ApplicationViews.AdminGate` | applications/views.py:56-61 | the request proceeds exactly for a logged-in user with `can_access_admin`; an anonymous caller is sent to log in |
| `ApplicationViews.Find` | applications/views.py:123 | `get_object_or_404`: the found row has the key, and "not found" means no row has it |
| `ApplicationViews.DecisionKeepsLinkConsistent` | applications/views.py:125-130 | approving or rejecting a pending, consistent row leaves it consistent and unlinked |
| `ApplicationViews.ReviewView` | applications/views.py:118-159 | as written, behind the admin gate: 404 for an unknown key; a non-pending row gets the "only pending" error; a pending row reaches `approve`/`reject`, which raise, so the answer is a server error; nothing is stored |
| `ApplicationViews.ReviewViewRepaired` | applications/views.py:118-159 | with the repaired decisions: a non-pending row gets the error and is unchanged; a pending row is approved or rejected by the caller with the posted notes, defaulting to ""; no other row changes; link consistency is kept |
| `ApplicationViews.CreateInternAccountView` | applications/views.py:162-195 | behind the admin gate: a row that is not approved, or already linked, gets its error and nothing changes; an eligible row succeeds exactly when its email is not empty and not taken; a failure becomes an error message and changes nothing; on success exactly that row is linked to the new user, whose profile is filled; the link rules are kept |
| `ApplicationViews.CreateForRow` | applications/views.py:177-180 | `create_intern_account` on an eligible row succeeds exactly when the email is not empty and not taken, fills the new profile, changes no other row and keeps the one-application-per-intern rule |
| `ApplicationViews.TableStats` | applications/views.py:98-104 | the four status counts add up to the total, and pending is 0 exactly when no row is pending |
| `ApplicationAdmin.HasAccountColumn` | applications/admin.py:80-88 | "yes" exactly when an intern account is linked |
| `ApplicationAdmin.BulkReviewed` | applications/admin.py:94-106 | repaired: a pending row is decided and no row is left pending; any other row is kept as it was; link consistency is kept |
| `ApplicationAdmin.ReviewRow` | applications/admin.py:105-107 | repaired, one loop turn: only a pending row is decided, and the hit is counted |
| `ApplicationAdmin.BulkReview` | applications/admin.py:92-135 | as written: with no pending row selected, the warning; otherwise the first pending row reaches `approve`/`reject`, which raise, and the error is returned |
| `ApplicationAdmin.BulkReviewRepaired` | applications/admin.py:92-135 | repaired: with no pending row selected, a warning and no change; otherwise every pending row is decided with the fixed note, the others are kept, and the count is the number of pending rows |
| `ApplicationAdmin.ReviewEach` | applications/admin.py:104-107 | repaired loop: the count equals the number of pending rows, and each row ends as `BulkReviewed` of its start |
| `ApplicationAdmin.CreateRow` | applications/admin.py:154-165 | one loop turn: an eligible row is linked or left as it was; any other row is untouched; a linked row names the new user under the next id, built from the applicant's data as an intern, with the profile filled from the application; existing users and profiles are kept |
| `ApplicationAdmin.CreateInternAccounts` | applications/admin.py:138-171 | with no eligible row: a warning and no change; otherwise each eligible row is linked or reported as failed and unchanged; ineligible rows are untouched; existing users and profiles are kept; every newly linked row names a user built from that row's applicant as an intern, with the profile filled from the application; created + failed = eligible; the link rules hold afterwards |
| `ApplicationAdmin.CreateEach` | applications/admin.py:153-165 | the loop: a failure on one row does not stop it, the count covers only successes, and each linked row's user and profile are the ones made from its applicant |
| `ApplicationAdmin.AccountsStep` | applications/admin.py:153-165 | one more loop turn keeps the accounts made for earlier rows and records the one it made |
| `ApplicationAdmin.OutcomesCoverEligible` | applications/admin.py:153-165 | every eligible row was either linked or failed |
| `ApplicationAdmin.LinkedRaiseCount` | applications/admin.py:153-159 | each account created moves exactly one row to intern_created |
| `ApplicationAdmin.FailedKeysExact` | applications/admin.py:160-165 | a key is reported as failed exactly when its row was eligible and stayed unchanged |
| `ApplicationAdmin.EligibleNoneKeeps` | applications/admin.py:145-151 | with nothing eligible, leaving every row unchanged is the batch's effect |
| `Internships.Internship.IsApplicationOpen` | internships/models.py:182-190 | open exactly when active, the deadline is today or later, and count < max; at or above the maximum it is closed |
| `Internships.NewInternship` | internships/models.py:63-137 | the defaults: unpaid (so not paid), 3-6 months, 50 applicants, active, not featured, no salary and no supervisor |
| `Internships.NewInternshipOpenUntilDeadline` | internships/models.py:182-190 | a new internship with fewer than 50 applications is open exactly up to and including its deadline day |
| `Internships.ClosedStaysClosed` | internships/models.py:186-190 | an internship closed today stays closed on later days and with more applications |
| `Internships.PendingCount` | internships/models.py:172-175 | the pending count is at most the application count |
| `Internships.ApprovedCount` | internships/models.py:177-180 | the approved count is at most the application count |
| `Internships.CountsBounded` | internships/models.py:167-180 | pending + approved ≤ total, with equality exactly when no application is rejected or intern_created |
| `Internships.CountAfterUpdate` | internships/models.py:172-180 | changing one application's status moves exactly that one between the counts |
| `Internships.LinkingLeavesApproved` | internships/models.py:177-180 | creating the intern account of an approved application lowers the approved count by one and leaves pending and total unchanged |
| `Internships.SalaryDisplay` | internships/models.py:192-196 | a null or zero amount reads "Not specified"; any other amount is the formatted amount followed by " CFA/month" |
| `Internships.SalaryDisplayDistinguishes` | internships/models.py:192-196 | "Not specified" is shown exactly when there is no amount |
| `Internships.AddRequirement` | internships/models.py:256 | adding a requirement is refused exactly when the (internship, skill) pair is listed; otherwise it is appended, keeping one requirement per skill |
| `Internships.Catalog.constructor` | internships/models.py:12-15 | an empty catalog is valid |
| `InternshipForms.CleanDates` | internships/forms.py:72-87 | start ≥ end gives the end-date error, which wins; otherwise deadline ≥ start, including equal dates, gives the deadline error; absent dates are not compared |
| `InternshipForms.CleanDatesOrders` | internships/forms.py:79-85 | with all three dates given, `clean` accepts exactly when deadline < start < end |
| `InternshipForms.FormErrors` | internships/forms.py:57-87 | of the errors modelled (the model-field validators are listed under "## Left out"): exactly the missing required fields (the nine `__init__` marks, plus type, duration and maximum applicants, which the model declares without `blank`) are reported, together with the error `clean` raised |
| `InternshipForms.ValidFormIsOrdered` | internships/forms.py:63-87 | a form without errors has all three dates, ordered deadline < start < end |
| `InternshipForms.SupervisorChoices` | internships/forms.py:50-54 | the offered supervisors are users of the table who can supervise and are active |
| `InternshipForms.SupervisorChoicesExact` | internships/forms.py:50-54 | a user is offered exactly when they are an approved, active supervisor |
| `InternshipForms.ConstructAsWritten` | internships/forms.py:46-70 | as written, building the form raises `NameError` on `settings` |
| `InternshipForms.ConstructRepaired` | internships/forms.py:46-70 | repaired: the form is built, with the twelve required fields (the nine `__init__` marks and the three the model declares without `blank`) and the active users able to supervise as choices |
| `InternshipForms.FormNeverBuilt` | internships/forms.py:46-87 | as written no form is ever built, although the repaired form accepts a complete submission with ordered dates |
| `InternshipAdmin.CountColour` | internships/admin.py:69-79 | gray for 0, green for 1–9, orange for 10–24, red from 25 |
| `InternshipAdmin.CountColourMonotone` | internships/admin.py:69-79 | more applications never give a calmer colour |
| `InternshipAdmin.WithFlag` | internships/admin.py:82-106 | the selected rows take the written flag; unselected rows are unchanged |
| `InternshipAdmin.WithFlagEffect` | internships/admin.py:82-106 | selected rows carry the written value, and no field other than the two flags changes |
| `InternshipAdmin.WithFlagIdempotent` | internships/admin.py:82-106 | running an action twice is the same as running it once |
| `InternshipAdmin.NoActionUnfeatures` | internships/admin.py:67 | none of the three actions clears `is_featured` |
| `InternshipAdmin.WithFlagKeepsValid` | internships/admin.py:82-106 | the update keeps every row under its own id |
| `InternshipAdmin.UpdateSelected` | internships/admin.py:82-106 | one update over the selection; it reports the selection size |
| `InternshipAdmin.ActivateInternships` | internships/admin.py:82-88 | sets `is_active` on every selected internship and reports the selection size |
| `InternshipAdmin.DeactivateInternships` | internships/admin.py:91-97 | clears `is_active` on every selected internship and reports the selection size |
| `InternshipAdmin.FeatureInternships` | internships/admin.py:100-106 | sets `is_featured` on every selected internship and reports the selection size |
| `Reports.SubmittedStatuses` | reports/models.py:171-181 | `is_submitted` holds exactly past draft except for needs_revision; reviewed implies submitted; draft and submitted exclude each other |
| `Reports.SubmitAsWritten` | reports/models.py:183-188 | as written: raises exactly on a draft; any other report is returned unchanged |
| `Reports.FinishReviewAsWritten` | reports/models.py:197-212 | as written: `complete_review` and `request_revision` raise whatever the report |
| `Reports.AfterSubmit` | reports/models.py:183-188 | repaired: a draft becomes submitted and is stamped now, with nothing else changed; any other report is unchanged |
| `Reports.AfterStartReview` | reports/models.py:190-195 | a submitted report goes under review with the supervisor recorded; any other report is unchanged |
| `Reports.AfterCompleteReview` | reports/models.py:197-204 | repaired: from any status, reviewed, with reviewer, feedback, rating and review date recorded; the submission time is kept |
| `Reports.AfterRequestRevision` | reports/models.py:206-212 | repaired: from any status, needs_revision, with reviewer, feedback and review date recorded; the rating is kept |
| `Reports.NeverBackToDraft` | reports/models.py:183-212 | once out of draft, no sequence of transitions returns a report to draft |
| `Reports.ReviewStampKept` | reports/models.py:197-212 | every transition sequence keeps "reviewed or needs_revision implies a reviewer and a review date" |
| `Reports.ResubmitStaysInRevision` | reports/models.py:183-188 | submitting a report in needs_revision, any number of times, leaves it unchanged |
| `Reports.ApplyAsWritten` | reports/models.py:183-212 | as written only `start_review` stores a change: `submit` raises or does nothing, and the two review calls raise |
| `Reports.NewReportStaysDraft` | reports/models.py:183-212 | as written a new report stays a stored draft under every sequence of transitions; the repaired `submit` would move it to submitted |
| `Reports.DraftCanBeReviewed` | reports/models.py:197-204 | as written the review call on a draft raises; repaired, a draft completed with a rating the column stores (zero or more) counts as submitted without a submission time, and exactly then |
| `Reports.InternReport.constructor` | reports/models.py:117-121 | a new report is a draft, never submitted or reviewed |
| `Reports.InternReport.Submit` | reports/models.py:183-188 | as written: the answer is `SubmitAsWritten` of the state, and nothing is stored |
| `Reports.InternReport.StartReview` | reports/models.py:190-195 | the new state is `AfterStartReview` of the old one |
| `Reports.InternReport.CompleteReview` | reports/models.py:197-204 | as written: returns the `AttributeError`, and nothing is stored |
| `Reports.InternReport.RequestRevision` | reports/models.py:206-212 | as written: returns the `AttributeError`, and nothing is stored |
| `Reports.InternReport.SubmitAt` | reports/models.py:183-188 | repaired: the new state is `AfterSubmit` of the old one |
| `Reports.InternReport.CompleteReviewAt` | reports/models.py:197-204 | repaired: a negative rating makes the save fail on the column's non-negative constraint (reports/models.py:129) and nothing is stored; otherwise the new state is `AfterCompleteReview` of the old one |
| `Reports.InternReport.RequestRevisionAt` | reports/models.py:206-212 | repaired: the new state is `AfterRequestRevision` of the old one |
| `Reports.OtherReportsDiffer` | reports/models.py:166 | reports with distinct keys are distinct objects |
| `Reports.AverageRating` | reports/models.py:399-409 | five times the average is the sum of the five criteria |
| `Reports.AverageInRange` | reports/models.py:300-334 | with ratings in 1..5 the average lies in [1, 5], and `overall_performance` does not affect it |
| `Reports.PerformanceLevel` | reports/models.py:411-423 | ≥5 Excellent, 4 Good, 3 Satisfactory, 2 Needs Improvement, ≤1 Unsatisfactory |
| `Reports.PerformanceLevelsDistinct` | reports/models.py:411-423 | the five valid ratings give five different levels |
| `ReportForms.InternInternships` | reports/forms.py:46-52 | exactly the internships of applications with created_intern = user and status intern_created |
| `ReportForms.ReportInternshipChoices` | reports/forms.py:46-56 | an intern is offered only their own placements; anyone else gets every internship |
| `ReportForms.InternReportsOnOwnPlacement` | reports/forms.py:46-56 | an internship offered to an intern has an application that placed that intern on it |
| `ReportForms.ParseAction` | reports/forms.py:97-104 | only "complete" and "revision" are valid actions |
| `ReportForms.CleanReview` | reports/forms.py:73-104 | the review form is valid exactly when feedback is non-blank and free of NUL characters, a rating is given and the action is one of the two; all three are required, even for a revision |
| `ReportForms.ReviewRatingUnbounded` | reports/forms.py:87-95 | any integer rating, 0 or 99 included, is accepted by the form as given |
| `ReportForms.SupervisedInternships` | reports/forms.py:155 | exactly the internships whose supervisor is the caller |
| `ReportForms.SupervisedInterns` | reports/forms.py:159-163 | exactly the role-intern users holding an intern_created application on one of the supervised internships |
| `ReportForms.EvaluationFormChoices` | reports/forms.py:153-166 | a supervisor is offered the supervised interns and internships; anyone else is offered every user of role intern (the field's `limit_choices_to`, reports/models.py:262-268) and every internship |
| `ReportForms.InternUsers` | reports/models.py:262-268 | exactly the users whose role is intern |
| `ReportForms.ChoicesAreInterns` | reports/models.py:262-268 | whoever the caller, every user offered as intern has the intern role |
| `ReportForms.SupervisorChoicesAreOwn` | reports/forms.py:153-166 | an intern offered to a supervisor is an intern placed on one of that supervisor's internships |
| `ReportForms.EvaluationErrors` | reports/forms.py:169-176 | exactly the missing required fields, the supplied ratings outside 1..5, and a supplied period label over 100 characters (reports/models.py:293-297) are reported |
| `ReportForms.AcceptedEvaluationAverage` | reports/forms.py:169-176 | an accepted evaluation has valid ratings, so its average lies in [1, 5] |
| `ReportViews.RoleGate` | reports/views.py:14-23 | the request proceeds exactly for a logged-in user of the role; an anonymous caller is sent to log in |
| `ReportViews.GateIgnoresApproval` | reports/views.py:14-23 | unapproved interns and supervisors pass the gates without holding the capability |
| `ReportViews.OwnReports` | reports/views.py:35-48 | exactly the caller's own reports |
| `ReportViews.EditableReports` | reports/views.py:79-84 | exactly the caller's own reports in draft or needs_revision |
| `ReportViews.DeletableReports` | reports/views.py:121-126 | exactly the caller's own drafts |
| `ReportViews.InternScopesNest` | reports/views.py:35-126 | delete ⊆ edit ⊆ own; no editable report counts as submitted; two interns never share a report |
| `ReportViews.SupervisedReports` | reports/views.py:146-152 | exactly the reports on an internship the caller supervises |
| `ReportViews.StatusFiltered` | reports/views.py:146-159 | with no status or an empty one, all supervised reports; otherwise those whose stored status text matches |
| `ReportViews.StatusCodeInjective` | reports/models.py:17-22 | distinct statuses are stored under distinct texts |
| `ReportViews.StatusFilterExact` | reports/views.py:154-157 | filtering by a status's text keeps exactly that status, and a text naming no status keeps nothing |
| `ReportViews.CountReports` | reports/views.py:170-176 | a status count is at most the total |
| `ReportViews.SupervisorStats` | reports/views.py:166-176 | "pending" counts submitted reports; each counter counts its status |
| `ReportViews.StatsMissDrafts` | reports/views.py:166-176 | total = the four counters + drafts, so the counters add up to the total only when no draft is supervised |
| `ReportViews.FindReport` | reports/views.py:99-104 | the found report has the key, and "not found" means no report has it |
| `ReportViews.Lookup` | reports/views.py:201-205 | a report is found only within the caller's scope; outside it the answer is "not found" |
| `ReportViews.SubmitReportView` | reports/views.py:96-112 | as written, behind the intern gate: only the caller's own report in draft or needs_revision is found, otherwise 404; a draft gives a server error, a report in needs_revision the success message; nothing is stored |
| `ReportViews.SubmitReportViewRepaired` | reports/views.py:96-112 | repaired: the found report goes through `AfterSubmit`, so a draft is submitted and a report sent back stays in needs_revision; no other report changes |
| `ReportViews.ReviewOutcome` | reports/views.py:207-224 | repaired: "complete" gives reviewed with the rating; "revision" gives needs_revision with the old rating kept; both record the reviewer and the feedback |
| `ReportViews.CompleteReviewView` | reports/views.py:197-228 | as written, behind the supervisor gate: a report outside the caller's internships is 404; an invalid form gets the error message; a valid one reaches the raising review call, so the answer is a server error; nothing is stored |
| `ReportViews.CompleteReviewViewRepaired` | reports/views.py:197-228 | repaired: an invalid form changes nothing; a valid one applies the action from any status, except that a completion with a negative rating gives a server error and stores nothing; no other report changes |
| `ReportViews.ReviewSupervised` | reports/views.py:200-228 | repaired, past the gate, for a given supervised set and cleaned form: 404, a redirect, or the save's refusal of a negative completion rating, and the form's outcome on the one report with the key |
| `ReportViews.ApplyReview` | reports/views.py:213-224 | repaired: the valid-form branch calls `complete_review` for "complete" and `request_revision` otherwise; it fails, storing nothing, exactly for a negative completion rating |
| `ReportViews.ReportCreateView` | reports/views.py:51-69 | behind the intern gate: an invalid form (a missing required field, an internship not offered, a self rating outside 1..5, negative hours; reports/models.py:89-98; a title over 200 or a period label over 100 characters, reports/models.py:25-35) stores nothing; a second report for the same intern, internship and period fails at `save()` (reports/models.py:166); otherwise a draft owned by the caller is created, keeping keys distinct and one report per period |
| `ReportViews.ReportDeleteView` | reports/views.py:115-134 | behind the intern gate: only the caller's own draft is removed, with every other report kept; any other key removes nothing |
| `ReportViews.RemoveReportAt` | reports/views.py:128-134 | deleting one report from a list with distinct keys removes exactly the report with that key and keeps the keys distinct |
| `ReportViews.EvaluationsBy` | reports/views.py:240-253 | exactly the evaluations the caller wrote |
| `ReportViews.EvaluationFormRefusal` | reports/forms.py:149-176 | a form is accepted exactly when it has no field errors, offers the intern and internship, and duplicates no period |
| `ReportViews.CreateEvaluation` | reports/views.py:256-274 | behind the supervisor gate: an accepted form adds the evaluation under a new key with supervisor = caller, changes nothing else, and keeps one evaluation per period |
| `ReportViews.UpdateEvaluation` | reports/views.py:277-297 | only an evaluation the caller wrote can be edited, else 404; an accepted form replaces it, keeping supervisor = caller and one evaluation per period |
| `ReportAdmin.Target` | reports/admin.py:63-85 | the two actions write reviewed and needs_revision respectively |
| `ReportAdmin.Bulked` | reports/admin.py:65-67 | a submitted or under-review report takes the action's status and nothing else changes; any other report is unchanged |
| `ReportAdmin.BulkedAll` | reports/admin.py:65-67 | every selected report becomes `Bulked` of itself |
| `ReportAdmin.CountMovable` | reports/admin.py:65-67 | the reported count is at most the selection size |
| `ReportAdmin.CountChanged` | reports/admin.py:65-84 | the number of changed statuses is at most the selection size |
| `ReportAdmin.CountIsChanged` | reports/admin.py:63-85 | the reported count equals the number of reports whose status changed, and a repeated action reports 0 |
| `ReportAdmin.BulkedIdempotent` | reports/admin.py:63-85 | after either action, running either action again changes nothing |
| `ReportAdmin.BulkSkipsOtherStatuses` | reports/admin.py:65-67 | drafts, reviewed reports and reports sent back are untouched |
| `ReportAdmin.BulkReviewedUnstamped` | reports/admin.py:65-67 | a submitted, unreviewed report becomes reviewed without a reviewer or a review date |
| `ReportAdmin.StatesOf` | reports/admin.py:63-85 | the states of the selection, in order |
| `ReportAdmin.BulkUpdate` | reports/admin.py:65-79 | one update: each selected report becomes `Bulked` of its old state, and the count is the number of movable reports |
| `ReportAdmin.MarkSelectedReviewed` | reports/admin.py:63-73 | `mark_as_reviewed` |
| `ReportAdmin.RequestSelectedRevision` | reports/admin.py:75-85 | `request_revision` |
| `ReportAdmin.AverageColour` | reports/admin.py:165-173 | green from 4.5, orange from 3.5 up to 4.5, red below 3.5 |
| `ReportAdmin.AverageColourBySum` | reports/admin.py:165-173 | in terms of the five ratings' sum: green from 23, orange for 18–22, red up to 17 |
| `ReportAdmin.FixedOneDecimal` | reports/admin.py:175-178 | `{:.1f}` formats a number and raises `ValueError` on a string |
| `ReportAdmin.AverageRatingDisplayAsWritten` | reports/admin.py:165-178 | as written the column raises `ValueError` for every evaluation |
| `ReportAdmin.AverageRatingDisplay` | reports/admin.py:165-178 | with the average formatted first: the average and its colour |
| `ReportAdmin.RatingColumnFails` | reports/admin.py:165-178 | the column fails for every evaluation as written; corrected, it is green from a rating sum of 23 and red up to 17 |
| `PhpHelpers.RTrim` | app/helpers.php:6 | `rtrim`: the prefix left after removing the trailing run of the given characters |
| `PhpHelpers.LTrim` | app/helpers.php:7 | `ltrim`: the suffix left after removing the leading run of the given characters |
| `PhpHelpers.Trim` | public/admin/manage_users.php:18-19 | `trim` keeps the stretch between the leading and the trailing runs of trim characters; everything dropped is a trim character, and the result neither starts nor ends with one |
| `PhpHelpers.TrimLeft` | public/admin/manage_users.php:18-19 | the leading half of `trim`: a suffix of the input, everything dropped is a trim character, and what is left does not start with one |
| `PhpHelpers.TrimRight` | public/admin/manage_users.php:18-19 | the trailing half of `trim`: a prefix of the input, everything dropped is a trim character, and what is left does not end with one |
| `PhpHelpers.TrimmedTail` | public/admin/manage_users.php:18-19 | trim characters that end a suffix of a string end the string too (the step that puts `trim`'s two halves together) |
| `PhpHelpers.TrimIdempotent` | public/admin/manage_users.php:18-19 | trimming twice is trimming once |
| `PhpHelpers.BaseUrl` | app/helpers.php:4-9 | the URL starts with the base stripped of trailing slashes; a path that is false to PHP after stripping gives the base alone |
| `PhpHelpers.BaseUrlJoin` | app/helpers.php:8 | for any other path the URL is base + "/" + path, with exactly one slash at the join |
| `PhpHelpers.BaseUrlDropsZero` | app/helpers.php:8 | the paths "0", "/0" and "///" all give the base alone |
| `PhpHelpers.BaseUrlIgnoresExtraSlashes` | app/helpers.php:6-7 | extra slashes at the end of the base or the start of the path change nothing |
| `PhpHelpers.HexDigit` | app/helpers.php:22 | digit n is the n-th character of 0123456789abcdef |
| `PhpHelpers.Bin2Hex` | app/helpers.php:22 | two lower-case hex digits per byte, the high half first |
| `PhpHelpers.FreshTokenTruthy` | app/helpers.php:21-22 | a fresh token has 64 hex digits, so PHP never finds it empty |
| `PhpHelpers.RoleTexts` | app/auth.php:15 | exactly the three role texts are accepted, each naming its own role |
| `PhpHelpers.TokenAfter` | app/helpers.php:20-25 | a stored token that is not empty is returned as is; otherwise a fresh one is made |
| `PhpHelpers.TokenStable` | app/helpers.php:20-25 | once a token is stored, later calls return it whatever randomness they would have used |
| `PhpHelpers.CheckCsrf` | app/helpers.php:27-36 | a non-POST request passes; a POST passes exactly when its token is not empty to PHP and equals the session's |
| `PhpHelpers.CsrfOutcomes` | app/helpers.php:27-36 | a missing, empty or "0" token is refused; with no session token every POST is refused; echoing the issued token passes |
| `PhpHelpers.Session.constructor` | app/helpers.php:2 | a new session holds no token and no user |
| `PhpHelpers.Session.CsrfToken` | app/helpers.php:20-25 | stores a token only when the session's is empty, and returns the stored token, which is never empty |
| `PhpAuth.FindByEmail` | app/auth.php:5-9 | the first row with exactly that email, or none when no row has it |
| `PhpAuth.RegisterValidation` | app/auth.php:13-15 | reports exactly: an invalid email, a password under 6 bytes, a role outside the three |
| `PhpAuth.InitialApproval` | app/auth.php:24 | interns start unapproved (0); supervisors and admins start approved (1) |
| `PhpAuth.RegisterOutcome` | app/auth.php:11-30 | validation errors come first; a valid request with a taken email gets "Email already in use"; only a valid request with a new email succeeds |
| `PhpAuth.ValidationBeforeDuplicate` | app/auth.php:17-19 | an invalid request is answered with its validation errors even when the email is taken |
| `PhpAuth.RegisterTwiceRefused` | app/auth.php:19-21 | registering an email a second time is refused |
| `PhpAuth.UserTable.constructor` | app/auth.php:26 | a new table is empty and valid |
| `PhpAuth.UserTable.Insert` | app/auth.php:26-27 | one row is added under the next id |
| `PhpAuth.UserTable.RegisterUser` | app/auth.php:11-30 | the answer is `RegisterOutcome`; a refusal leaves the table untouched; success adds exactly one row with the role's initial approval |
| `PhpAuth.LoginOutcome` | app/auth.php:32-48 | succeeds exactly for a known email with the right password, where an intern must also be approved; the session user is the row's id, name, email and role |
| `PhpAuth.UnknownAndWrongAlike` | app/auth.php:33-36 | an unknown email and a wrong password give the same "Invalid credentials" answer |
| `PhpAuth.ApprovalOnlyGatesInterns` | app/auth.php:37-40 | with the right password an unapproved intern is refused, while an unapproved supervisor or admin logs in |
| `PhpAuth.LoginUser` | app/auth.php:32-48 | on success the session holds exactly the user's id, name, email and role; on failure the session is unchanged |
| `PhpAuth.LogoutUser` | app/auth.php:50-57 | the session is emptied |
| `PhpAuth.RequireLogin` | app/auth.php:63-65 | a request passes exactly when a user is logged in; otherwise it goes to the login page |
| `PhpAuth.RequireRole` | app/auth.php:67-75 | an anonymous caller goes to log in; a logged-in user of another role gets 403; only the exact role passes |
| `PhpAuth.LoggedInUserGates` | app/auth.php:41-46 | a logged-in user passes exactly the role gate of their row's role |
| `PhpManageUsers.RoleFilter` | public/admin/manage_users.php:9-10 | a missing or unknown role filter falls back to intern; a known one is kept |
| `PhpManageUsers.ListUsers` | public/admin/manage_users.php:79-86 | "pending" gives unapproved users of the role; "approved" gives approved ones; any other text gives all users of the role |
| `PhpManageUsers.ActionTexts` | public/admin/manage_users.php:16-71 | each of the four action texts selects its handler; any other selects none |
| `PhpManageUsers.FindById` | public/admin/manage_users.php:61-64 | the row with that id, or none when no row has it |
| `PhpManageUsers.UpdatedRows` | public/admin/manage_users.php:49-50 | the row with that id gets the new name, email, role and approval and keeps its password; other rows are unchanged |
| `PhpManageUsers.ApprovedRows` | public/admin/manage_users.php:73-74 | the row with that id gets `is_approved = 1`; other rows are unchanged |
| `PhpManageUsers.CreateEffect` | public/admin/manage_users.php:17-38 | an invalid form (blank trimmed name, bad email, password under 6, unknown role) is refused; a taken email is refused; otherwise exactly one row is added with the given role and approval, and the page switches to that role |
| `PhpManageUsers.UpdateEffect` | public/admin/manage_users.php:39-54 | an id ≤ 0, a blank name, a bad email or an unknown role is refused; otherwise the row with that id is updated, with no email check |
| `PhpManageUsers.DeleteEffect` | public/admin/manage_users.php:55-70 | refuses the caller's own id, then a missing user, then an admin; otherwise removes exactly that row |
| `PhpManageUsers.ApproveEffect` | public/admin/manage_users.php:71-76 | `approve` sets `is_approved = 1` on the row with the posted id, whatever its role, leaves every other row and the id counter alone, and always shows "User approved" |
| `PhpManageUsers.ActionEffect` | public/admin/manage_users.php:16-76 | with no action nothing happens; only a create moves the id counter |
| `PhpManageUsers.RemoveKeepsValid` | public/admin/manage_users.php:66-67 | removing one row keeps the ids ordered and issued |
| `PhpManageUsers.ActionKeepsValid` | public/admin/manage_users.php:16-76 | every action keeps the table valid |
| `PhpManageUsers.DeleteSparesSelfAndAdmins` | public/admin/manage_users.php:59-67 | a delete never removes the caller's row or an admin's row; it removes at most the row with the posted id |
| `PhpManageUsers.CreateKeepsEmailsUnique` | public/admin/manage_users.php:28-33 | a create keeps emails unique |
| `PhpManageUsers.UpdateCanDuplicateEmail` | public/admin/manage_users.php:45-51 | an update can give a user another user's email, and is still reported as "User updated" |
| `PhpManageUsers.ApproveOnlyFlag` | public/admin/manage_users.php:71-76 | approve sets only `is_approved` of that row, whatever its role, and is idempotent |
| `PhpManageUsers.RunCreate` | public/admin/manage_users.php:17-38 | the `create` branch leaves the table, message and shown role given by `CreateEffect`, and keeps the table valid |
| `PhpManageUsers.RunUpdate` | public/admin/manage_users.php:39-54 | the `update` branch leaves the table and message given by `UpdateEffect` |
| `PhpManageUsers.RunDelete` | public/admin/manage_users.php:55-70 | the `delete` branch leaves the table and message given by `DeleteEffect` |
| `PhpManageUsers.RunApprove` | public/admin/manage_users.php:71-76 | the `approve` branch sets the flag of the row with the posted id and always reports "User approved" |
| `PhpManageUsers.RemoveAtMembers` | public/admin/manage_users.php:66-67 | with ids in increasing order, deleting a row removes exactly the rows with its id |
| `PhpManageUsers.RunAction` | public/admin/manage_users.php:16-76 | the table and the message after the posted action are those of `ActionEffect` |
| `PhpManageUsers.ManageUsersPage` | public/admin/manage_users.php:1-86 | a non-admin is gated and a bad CSRF token refused, both with no change; otherwise the action runs and the filtered users of the shown role are listed; the rows change only on a POST from an admin that passed the token check |

## Left out

- Rendering, templates, flash-message display, redirects as HTTP responses, `htmlspecialchars`, pagination and ordering (`ORDER BY`, `ordering = [...]`): lists keep table order.
- Password hashing and checking (`set_password`, `password_hash`, `password_verify`), email normalisation and validation, and `random_bytes`: these are parameters.
- Clock values (`timezone.now()`, `NOW()`, `created_at`/`updated_at`): instants and days are integer parameters of the repaired operations and of the PHP side; the as-written Django operations take none, since they raise at the clock call.
- The database itself: transactions, PDO exceptions other than the ones the pages throw, MySQL's case-insensitive collation of emails, and the PHP schema. The PHP model assumes no unique index on `users.email`.
- Concurrency: two requests racing on the same row, or the check-then-insert in `register_user` and the create action.
- Floating point: the average rating is an exact real. As written the average-rating column raises (see "## Findings"); the corrected column's rounding to one decimal is not modelled, it carries the exact average. The thousands-separated salary format is not modelled; the salary formatter is a parameter.
- `logout_user`'s cookie expiry and `session_destroy`: only the emptying of the session array is modelled.
- File uploads beyond the CV's size: extension validators, storage paths, and the sizes of the optional cover letter and transcript (a zero-byte one is refused by the file field too).
- The null-character validator of form text fields other than the review feedback (the application's and the report's text fields, the PHP forms have none): a NUL byte in those is accepted by the model.
- `ProfileView.get_object` (accounts/views.py:58-59) returns the requester unchanged, and has no state or rule to model.
- `ReportTemplate`, `InternshipSkill` names and the admin list/search/filter configuration: declarative data only.
- The `Internships.Internship.IsPaid`, `Reports.IsDraft`/`IsSubmitted`/`IsReviewed` predicates and the `LinkConsistent`/`OnePerEmailAndInternship`/`OneReportPerPeriod`/`OneEvaluationPerPeriod` uniqueness predicates are definitions; the rows above state their properties through the lemmas and contracts that use them.
- `ReportViews.ReportCreateView`: the created report's other fields (summary, activities, self rating, hours) are not stored; the self rating and the hours are validated, and only the owner, the internship, the period label, the title and the draft status are kept. The report key is taken as fresh, as the database assigns it.
- ApplicationForms.FormErrors, InternshipForms.FormErrors: the validators Django derives from the model fields are not modelled, so an empty error set means only that none of the modelled errors occurs; the real form also refuses text over its `max_length` (applications/models.py:26-50, internships/models.py:29-61), a malformed email (applications/models.py:28), a negative `graduation_year`, `duration_months` or `max_applicants` (applications/models.py:53, applications/models.py:117, internships/models.py:109), and a `gpa` or `salary_amount` beyond its digits (applications/models.py:57-60, internships/models.py:78-81). The lemmas that start from an accepted form (`AcceptedKeepsOnePerEmail`, `ValidFormIsOrdered`, `FormNeverBuilt`) stay true, since the real form accepts fewer submissions.
- `PhpManageUsers.ListUsers`: states membership of the listed users, not their order.
- `Accounts.UserTable.CreateUser`: the database's text for a duplicate email is not modelled; the error is a fixed constructor.
- PhpManageUsers.ManageUsersPage: takes `$_POST` as empty on a request that is not a POST, as PHP fills it only for POST requests.
- UncheckedApproveBreaksLink: the broken link is reached only through the repaired `approve`; as written the call raises and nothing is stored.
- DraftCanBeReviewed: the reviewed draft is reached only through the repaired `complete_review`; as written the call raises and the draft stays stored as it was.
- BulkReviewed: describes the repaired bulk action; as written the action raises at the first pending row (`ApplicationAdmin.BulkReview`).
- ReviewRow: one turn of the repaired bulk action's loop; as written the loop stops at the first pending row with the error.
- ReviewEach: the repaired bulk action's loop; as written the loop stops at the first pending row with the error.
- AfterSubmit: the repaired `submit`; as written a draft's submission raises and nothing is stored (`Reports.SubmitAsWritten`).
- AfterCompleteReview: the repaired `complete_review`; as written the call raises and nothing is stored (`Reports.FinishReviewAsWritten`).
- AfterRequestRevision: the repaired `request_revision`; as written the call raises and nothing is stored (`Reports.FinishReviewAsWritten`).
- ReviewOutcome: the outcome of a valid review form under the repaired review calls; as written the view answers with a server error (`ReportViews.CompleteReviewView`).
- ReviewSupervised: the repaired review view past its gate; as written a valid form gives a server error.
- ApplyReview: the repaired valid-form branch; as written both calls raise.
- FormErrors (`InternshipForms.FormErrors`): validates the repaired internship form; as written the form is never built (`InternshipForms.ConstructAsWritten`), so its checks never run.
- ValidFormIsOrdered: holds of the repaired internship form; as written no such form exists.
- SupervisorChoices: the choices of the repaired internship form; as written construction raises before they are shown.
- SupervisorChoicesExact: the choices of the repaired internship form; as written construction raises before they are shown.
- AverageColourBySum: the colour of the corrected average-rating column; as written the column raises for every evaluation (`ReportAdmin.AverageRatingDisplayAsWritten`).

## Findings

| source | as written | input that shows it | evidently intended | confidence | as-written member | corrected member |
|---|---|---|---|---|---|---|
| applications/models.py:199 | `approve` stamps `models.timezone.now()`; `django.db.models` has no `timezone`, so `AttributeError` is raised before `save()` and nothing is stored | any application approved by an admin, e.g. a pending one from the review view | stamp the current time and save the approval | high, not executed | `Applications.ReviewAsWritten` | `Applications.InternshipApplication.ApproveAt` |
| applications/models.py:207 | `reject` raises the same `AttributeError` before `save()` | any application rejected by an admin | stamp the current time and save the rejection | high, not executed | `Applications.DecisionNeverStored` | `Applications.InternshipApplication.RejectAt` |
| reports/models.py:187 | `submit` raises the same `AttributeError` on a draft, so no report ever leaves draft through it | a new report submitted by its intern | a draft becomes submitted, stamped with the current time | high, not executed | `Reports.NewReportStaysDraft` | `Reports.InternReport.SubmitAt` |
| reports/models.py:203 | `complete_review` raises the same `AttributeError` before `save()` | a submitted report with a valid "complete" review form | the report is stored as reviewed with the rating and the review date | high, not executed | `Reports.FinishReviewAsWritten` | `Reports.InternReport.CompleteReviewAt` |
| reports/models.py:211 | `request_revision` raises the same `AttributeError` before `save()` | a submitted report with a valid "revision" review form | the report is stored as needs_revision with the review date | high, not executed | `ReportViews.CompleteReviewView` | `Reports.InternReport.RequestRevisionAt` |
| internships/forms.py:68 | `__init__` reads `settings.CURRENCY`, and `settings` is never imported, so building the form raises `NameError` | any request to the internship create or edit form | the help text names the configured currency, defaulting to CFA | high, not executed | `InternshipForms.FormNeverBuilt` | `InternshipForms.ConstructRepaired` |
| reports/admin.py:175-178 | `format_html` escapes the average into a string before `{:.1f}` is applied, which raises `ValueError` | any evaluation shown in the admin list | the average shown to one decimal in its colour | high, not executed | `ReportAdmin.RatingColumnFails` | `ReportAdmin.AverageRatingDisplay` |
