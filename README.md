# Bugzilla bug verifier

This project models the release controller's Bugzilla bug verifier
(`pkg/bugzilla/bugzilla.go`). When a release is accepted, the verifier
takes the bugs fixed in it and moves each one that QA has approved from
ON_QA to VERIFIED.

- `getPRs` fetches each bug's external links. It keeps the GitHub pull
  requests (`pr`) per bug. It drops access-denied failures and records
  every other failure.
- `VerifyBugs` parses the release tag into its `major.minor` release.
  For every bug that has pull requests, it does the following:
  - fetches the bug;
  - skips it when its target release is unset (`---`) or belongs to
    another release, and rejects a target release without a `.`;
  - skips it when it is already VERIFIED;
  - reads the labels of each pull request;
  - composes a comment: the list of reasons the bug fails, or the success
    line when every pull request carries `qe-approved`;
  - posts the comment privately, unless the robot account already left the
    same text;
  - moves a passing bug to VERIFIED.
  Failures are collected as errors, and one bug's failure never stops the
  others.

The model has three layers:

- **Values and services** (`text.dfy`, `model.dfy`, `tracker.dfy`). These
  hold the bugs, links, comments, errors and calls. `Text.Split` models
  Go's `strings.Split`, and `IntToString` models `%d`.
  - `Tracker.BugzillaClient` is a class. Its `bugs` map is read and
    written by the client's methods. Its `faults` map fixes which calls
    fail, and with what error. A ghost `calls` log records every call
    made.
  - GitHub is a read-only function from a pull request to its labels or
    an error.
- **Specification** (`links.dfy`, `message.dfy`, `policy.dfy`,
  `runs.dfy`). These are functions:
  - `ResolveLinks` (getPRs);
  - `Message` (the comment text);
  - `Admit`, `Assess` and `Report` (the gates, the label check, and
    commenting and transitioning), composed in `VerifyOne` (one bug).
    `VerifyOne` takes the comment composer as a parameter of its
    environment (`Policy.Env.compose`). The verifier always passes
    `Message` (`Engine.Verifier.EnvFor`), and the per-bug properties
    hold for any composer;
  - `RunAll` (all bugs, in an arbitrary order).
- **Engine** (`engine.dfy`, plus the `GetPRs`, `ComposeMessage` and
  client methods). These are imperative methods that follow the source's
  loops and early exits. Each is proved equal to its specification
  function: its errors, the new bug store, and the exact call log.

The properties are proved about the specification functions
(`outcomes.dfy`, `runs.dfy`, and the lemmas beside each function). They
cover:

- which bugs are left alone;
- that only the status can be written, and only ON_QA → VERIFIED;
- that the update happens exactly on success and as the last call;
- comment idempotence;
- that every failure is reported and every error has a cause;
- that errors are isolated per bug.

`scenarios.dfy` works through three concrete bugs.

## Model

| member | source | states |
|---|---|---|
| Text.SplitJoin | pkg/bugzilla/bugzilla.go:65 | splitting a join of separator-free pieces gives the pieces back |
| Text.JoinSplit | pkg/bugzilla/bugzilla.go:65 | joining the pieces of a split gives the original string |
| Text.SplitCount | pkg/bugzilla/bugzilla.go:65-66 | strings.Split gives one piece more than there are separators |
| Text.DecimalRoundTrip | pkg/bugzilla/bugzilla.go:111 | the decimal digits of a natural number read back as that number |
| Text.IntToStringRoundTrip | pkg/bugzilla/bugzilla.go:111 | the `%d` rendering of any integer, with a minus sign for a negative one, reads back as that integer |
| Tracker.BugzillaClient.GetBug | pkg/bugzilla/bugzilla.go:54 | logs the call and returns the bug, the injected fault or a missing-bug error |
| Tracker.BugzillaClient.GetExternalBugPRsOnBug | pkg/bugzilla/bugzilla.go:164 | logs the call and returns the bug's external links or the error |
| Tracker.BugzillaClient.GetComments | pkg/bugzilla/bugzilla.go:128 | logs the call and returns the bug's comments or the error |
| Tracker.BugzillaClient.CreateComment | pkg/bugzilla/bugzilla.go:141 | on success, appends exactly one comment by the client's account to that bug; on error, changes no bug |
| Tracker.BugzillaClient.UpdateBug | pkg/bugzilla/bugzilla.go:148 | on success, sets that bug's status and nothing else; on error, changes no bug |
| Links.GitHubPRsMembers | pkg/bugzilla/bugzilla.go:175-183 | a pull request is kept exactly when some link with the GitHub URL names it |
| Links.GitHubPRsLength | pkg/bugzilla/bugzilla.go:175-183 | one pull request per GitHub link and none for other links |
| Links.AddGitHubPRs | pkg/bugzilla/bugzilla.go:175-184 | the link loop appends the bug's GitHub pull requests, in link order, to its entry, creating the entry only for the first one |
| Links.ResolveLinksKeys | pkg/bugzilla/bugzilla.go:160-191 | a bug is a key exactly when it was asked for and its link fetch yields at least one GitHub pull request |
| Links.ResolveLinksValues | pkg/bugzilla/bugzilla.go:176-181 | a bug's list is its GitHub pull requests in link order, repeated once per occurrence of the bug in the input |
| Links.ResolveLinksDistinct | pkg/bugzilla/bugzilla.go:176-181 | for input without repeats, a bug's list is exactly its GitHub pull requests in link order |
| Links.ResolveLinksErrors | pkg/bugzilla/bugzilla.go:164-173 | access denials are dropped; every other failure adds exactly one error per occurrence of the bug, and nothing else adds errors |
| Links.ResolveLinksCalls | pkg/bugzilla/bugzilla.go:163-164 | exactly one link fetch per input ID, in input order |
| Links.GetPRs | pkg/bugzilla/bugzilla.go:160-191 | the map, the errors and the calls logged are those of ResolveLinks |
| Messages.ComposeMessage | pkg/bugzilla/bugzilla.go:77-126 | building the comment by appending, as the source does, yields Message |
| Messages.MessageLinesRoundTrip | pkg/bugzilla/bugzilla.go:108-126 | the comment's lines are the release line, then either the preamble, one line per unapproved pull request, one per reason, a blank line and the manual line (with the QA contact), or else the success line |
| Messages.OutcomesDiffer | pkg/bugzilla/bugzilla.go:108-126 | for the same tag, a failure comment never equals a success comment, whatever QA contacts the two bugs have |
| Policy.UnapprovedMembers | pkg/bugzilla/bugzilla.go:89-105 | a pull request is listed as unapproved exactly when it is linked and its labels were not fetched or lack qe-approved |
| Policy.LabelErrorsMembers | pkg/bugzilla/bugzilla.go:90-95 | a label error is recorded exactly for each linked pull request whose label fetch failed, with that failure |
| Policy.FailedFetchCountsTwice | pkg/bugzilla/bugzilla.go:90-105 | a failed label fetch makes the pull request unapproved and also a reason |
| Policy.SucceedsIff | pkg/bugzilla/bugzilla.go:80-123 | a bug passes exactly when it is ON_QA and every linked pull request's labels were fetched and include qe-approved |
| Policy.MajorMinorOfNone | pkg/bugzilla/bugzilla.go:65-69 | a target release is rejected exactly when it contains no `.` |
| Policy.MajorMinorOfParts | pkg/bugzilla/bugzilla.go:64-70 | `major.minor` followed by nothing or by `.`-led components has major.minor release `major.minor` |
| Outcomes.AdmitSkip | pkg/bugzilla/bugzilla.go:59-85 | the gates skip a bug exactly for an unset release, another release, or VERIFIED status |
| Outcomes.SkippedBug | pkg/bugzilla/bugzilla.go:59-85 | a fetched bug gets no error, no write and no call after GetBug exactly in the three skip cases |
| Outcomes.MalformedRelease | pkg/bugzilla/bugzilla.go:65-69 | a target release without `.` gives exactly one error, no write and no call after GetBug |
| Outcomes.RecordFrame | pkg/bugzilla/bugzilla.go:127-153 | a bug keeps its release, QA contact and links; its status stays or goes from ON_QA to VERIFIED; at most its own message is added as a private comment by the client's account |
| Outcomes.UpdateOnlyOnSuccess | pkg/bugzilla/bugzilla.go:124-153 | UpdateBug is only ever to VERIFIED and is the last call; it is made exactly when the bug passed the gates, succeeded, and its comments could be read |
| Outcomes.CommentIsMessage | pkg/bugzilla/bugzilla.go:141 | any comment posted is the bug's message, posted privately on that bug |
| Outcomes.CommentOnlyIfNew | pkg/bugzilla/bugzilla.go:127-145 | a comment is posted exactly when the bug passed the gates, its comments were read, and the robot had not left that text |
| Outcomes.FailuresReported | pkg/bugzilla/bugzilla.go:53-153 | every failed Bugzilla call, a missing bug, and every failed label fetch of an assessed ON_QA bug appears among the errors |
| Outcomes.ErrorsExplained | pkg/bugzilla/bugzilla.go:53-153 | every error is a failed call that was made, a missing bug, a malformed release or a failed label fetch |
| Outcomes.UnassessedUnchanged | pkg/bugzilla/bugzilla.go:53-85 | a bug that is not fetched or fails the gates keeps its record, and no call follows GetBug |
| Outcomes.VerifyOneCallsConcern | pkg/bugzilla/bugzilla.go:53-153 | every Bugzilla call made while processing a bug names that bug |
| Outcomes.CommentedNoNewComment | pkg/bugzilla/bugzilla.go:133-144 | when the robot already left the message, no comment is added |
| Outcomes.PostsAtMostOnce | pkg/bugzilla/bugzilla.go:133-144 | processing a bug twice adds at most one comment when the client posts as the robot |
| Outcomes.CleanFailure | pkg/bugzilla/bugzilla.go:108-153 | with no client failure, a failing assessed bug gets exactly its message as a private comment and no update, when the robot has not already left that text |
| Outcomes.CleanSuccess | pkg/bugzilla/bugzilla.go:121-150 | with no client failure, a passing assessed bug gets its message and is moved to VERIFIED, in that order, when the robot has not already left that text |
| Runs.RunAllLocal | pkg/bugzilla/bugzilla.go:53-154 | each bug ends as processing it alone on the initial store would leave it; unprocessed bugs are untouched |
| Runs.RunAllErrors | pkg/bugzilla/bugzilla.go:53-58 | one bug's failure does not stop or change the others: the run's errors are each bug's own errors, in order |
| Runs.RunAllUpdatesOnce | pkg/bugzilla/bugzilla.go:53-154 | a run over distinct bugs updates each bug's status at most once, and never a bug it did not process |
| Runs.ResolveLinksSameLinks | pkg/bugzilla/bugzilla.go:164 | link resolution depends only on which bugs exist and their links |
| Runs.RunAllKeepsLinks | pkg/bugzilla/bugzilla.go:53-154 | a run adds and removes no bug and changes no link |
| Runs.TwoRunsPostOnce | pkg/bugzilla/bugzilla.go:133-144 | two runs over the same bug list add at most one comment to any bug, in any iteration order |
| Engine.HasLabel | pkg/bugzilla/bugzilla.go:96-102 | the label scan reports true exactly when the name is among the labels |
| Engine.FindRobotComment | pkg/bugzilla/bugzilla.go:133-139 | the comment scan reports true exactly when a robot comment has that text |
| Engine.Verifier.constructor | pkg/bugzilla/bugzilla.go:29-35 | the verifier keeps the Bugzilla and GitHub clients it is given |
| Engine.Verifier.CheckLabels | pkg/bugzilla/bugzilla.go:89-106 | the label loop yields exactly Unapproved and LabelErrors |
| Engine.Verifier.ReportOn | pkg/bugzilla/bugzilla.go:127-153 | the comment and transition steps do exactly what Report says to the errors, the bug store and the call log |
| Engine.Verifier.Evaluate | pkg/bugzilla/bugzilla.go:76-153 | label check, message and report together give the assessment's errors followed by Report's |
| Engine.Verifier.VerifyBug | pkg/bugzilla/bugzilla.go:54-153 | one loop round gives VerifyOne's errors, bug record and calls |
| Engine.Verifier.VerifyBugs | pkg/bugzilla/bugzilla.go:46-156 | a tag that does not parse gives one error and no call or write; otherwise the result is getPRs's errors followed by RunAll's over an order enumerating the map's keys, with RunAll's store and getPRs's then RunAll's calls |
| Scenarios.OneUnapprovedPr | pkg/bugzilla/bugzilla.go:89-145 | an ON_QA 4.14.0 bug whose one pull request lacks qe-approved gets one comment and no update |
| Scenarios.OneUnapprovedMessage | pkg/bugzilla/bugzilla.go:108-116 | that comment has the line naming the unapproved pull request |
| Scenarios.OneApprovedPr | pkg/bugzilla/bugzilla.go:121-150 | with the pull request approved, the bug gets one comment and is moved to VERIFIED |
| Scenarios.OneApprovedMessage | pkg/bugzilla/bugzilla.go:124-126 | that comment is the release line followed by the success line |
| Scenarios.OneOfTwoApproved | pkg/bugzilla/bugzilla.go:89-145 | with two pull requests, one approved, the bug is commented on and not updated |
| Scenarios.OneOfTwoMessage | pkg/bugzilla/bugzilla.go:108-116 | that comment lists only the unapproved pull request |

## Left out

- Logging (`klog`) is not modelled. The `foundPR` flag in getPRs only feeds
  a log line, so it is left out too.
- Engine.Verifier.VerifyBugs: states the Bugzilla calls exactly but not
  the GitHub calls, because GitHub label reads are a pure function that
  logs nothing.
- Semantic-version parsing (`SemverParseTolerant`, `SemverToMajorMinor`)
  lives in another package and is not part of this model. The verifier is
  given it as a function from a tag to its major.minor release or a parse
  error.
- Client failures are deterministic: a map from a call to its error. A
  bug that does not exist gets one fixed error (`Model.MISSING`). The real
  client's wording of that error is not modelled.
- Go's randomised map iteration is modelled as an arbitrary choice of the
  next key. The run's result is stated for the order that was taken (the
  ghost `order`), and Runs.RunAllLocal and Runs.RunAllErrors show what
  does not depend on that order.
- Engine.Verifier.constructor: leaves out `pluginConfig`, because this
  code never uses it.
- The `message != ""` test (line 127) always holds, because the message
  starts with the release line, so the model has no such branch.
- The VERIFIED check sits inside the status branch in the source. The
  model checks it right after the release gate, where no call, error or
  write lies between the two, so nothing observable changes.
- Labels are modelled by their names only; the other label fields are
  never read.
- `bug.ID` as the client returns it is taken to be the requested ID, so
  the error texts and the update use the requested ID.
- Comment creation returns an ID, which the source ignores; the model does
  not return one.
- Repeated IDs in the input repeat a bug's pull requests in its list,
  because getPRs appends (Links.ResolveLinksValues). The bug is still
  processed once, since it is a single map key.
