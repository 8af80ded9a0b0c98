/** The per-bug decision procedure of the verifier, as functions: which bugs
    are looked at, whether a bug passes, the comment it gets and the writes
    and errors that follow. The imperative engine is proved against these. */
module Policy {
  import opened Text
  import opened Model
  import opened Tracker
  import opened Messages

  /** How a bug's comment is composed from the release tag, the unapproved
      pull requests, the reasons and the QA contact's name. */
  type Composer = (string, seq<Pr>, seq<VerifyError>, Option<string>) -> string

  /** What one run of the verifier works with besides the bug store: the
      injected Bugzilla failures, the Bugzilla account, GitHub, the release
      tag, the tag's major.minor release, and the comment composer. The
      verifier's composer is Messages.Message (Engine.Verifier.EnvFor); the
      per-bug properties hold for any composer, so they do not depend on the
      comment's wording. */
  datatype Env = Env(
    faults: map<Call, ClientError>,
    account: string,
    gh: GitHub,
    tagName: string,
    tagRelease: string,
    compose: Composer)

  /** A pull request is approved when its labels were fetched and include
      the QA approval label. */
  predicate Approved(labels: Fetch<seq<string>>) {
    labels.Got? && APPROVED_LABEL in labels.value
  }

  /** The pull requests not approved, in order. A failed label fetch leaves
      no labels, so that pull request counts as not approved. */
  function Unapproved(gh: GitHub, prs: seq<Pr>): seq<Pr> {
    if prs == [] then []
    else
      var p := prs[|prs| - 1];
      Unapproved(gh, prs[..|prs| - 1]) + (if Approved(gh.issueLabels(p)) then [] else [p])
  }

  /** One error per pull request whose labels could not be fetched, in order. */
  function LabelErrors(gh: GitHub, prs: seq<Pr>): seq<VerifyError> {
    if prs == [] then []
    else
      var p := prs[|prs| - 1];
      LabelErrors(gh, prs[..|prs| - 1]) +
        (match gh.issueLabels(p) case Failed(e) => [LabelsError(p, e)] case Got(_) => [])
  }

  /** A pull request is listed as unapproved exactly when it is linked and
      not approved. */
  lemma {:induction false} UnapprovedMembers(gh: GitHub, prs: seq<Pr>, p: Pr)
    ensures p in Unapproved(gh, prs) <==> p in prs && !Approved(gh.issueLabels(p))
  {
    if prs != [] {
      var init := prs[..|prs| - 1];
      UnapprovedMembers(gh, init, p);
      assert prs == init + [prs[|prs| - 1]];
    }
  }

  /** A label error is reported exactly for each linked pull request whose
      label fetch failed, with the failure as its cause. */
  lemma {:induction false} LabelErrorsMembers(gh: GitHub, prs: seq<Pr>, e: VerifyError)
    ensures e in LabelErrors(gh, prs) <==>
      e.LabelsError? && e.pr in prs && gh.issueLabels(e.pr) == Failed(e.cause)
  {
    if prs != [] {
      var init := prs[..|prs| - 1];
      LabelErrorsMembers(gh, init, e);
      assert prs == init + [prs[|prs| - 1]];
    }
  }

  /** What the status check finds for a bug in the release: the unapproved
      pull requests and the reasons listed in the comment, and the errors
      returned to the caller. */
  datatype Assessment = Assessment(unlabeled: seq<Pr>, reasons: seq<VerifyError>, errs: seq<VerifyError>)

  function Assess(gh: GitHub, status: string, prs: seq<Pr>): Assessment {
    if status == ON_QA then
      var labelErrs := LabelErrors(gh, prs);
      Assessment(Unapproved(gh, prs), labelErrs, labelErrs)
    else
      Assessment([], [NotOnQa], [])
  }

  predicate Succeeds(gh: GitHub, status: string, prs: seq<Pr>) {
    var a := Assess(gh, status, prs);
    !Fails(a.unlabeled, a.reasons)
  }

  /** A bug passes exactly when it is ON_QA and every linked pull request
      had its labels fetched and carries the approval label. */
  lemma SucceedsIff(gh: GitHub, status: string, prs: seq<Pr>)
    ensures Succeeds(gh, status, prs) <==>
      status == ON_QA && forall i :: 0 <= i < |prs| ==> Approved(gh.issueLabels(prs[i]))
  {
    if status == ON_QA {
      var u, errs := Unapproved(gh, prs), LabelErrors(gh, prs);
      if forall i :: 0 <= i < |prs| ==> Approved(gh.issueLabels(prs[i])) {
        if u != [] {
          UnapprovedMembers(gh, prs, u[0]);
        }
        if errs != [] {
          LabelErrorsMembers(gh, prs, errs[0]);
        }
      } else {
        var i :| 0 <= i < |prs| && !Approved(gh.issueLabels(prs[i]));
        UnapprovedMembers(gh, prs, prs[i]);
      }
    }
  }

  /** A failed label fetch makes the pull request both unapproved and a
      reason in the comment. */
  lemma FailedFetchCountsTwice(gh: GitHub, prs: seq<Pr>, p: Pr)
    requires p in prs && gh.issueLabels(p).Failed?
    ensures p in Assess(gh, ON_QA, prs).unlabeled
    ensures LabelsError(p, gh.issueLabels(p).err) in Assess(gh, ON_QA, prs).reasons
  {
    UnapprovedMembers(gh, prs, p);
    LabelErrorsMembers(gh, prs, LabelsError(p, gh.issueLabels(p).err));
  }

  /** The major.minor form of a target release: its first two `.`-separated
      components, or nothing when there are fewer than two. */
  function MajorMinorOf(release: string): Option<string> {
    var parts := Split(release, '.');
    if |parts| < 2 then None else Some(parts[0] + "." + parts[1])
  }

  /** A target release is malformed exactly when it holds no `.`. */
  lemma MajorMinorOfNone(release: string)
    ensures MajorMinorOf(release).None? <==> '.' !in release
  {
    SplitFewerThanTwo(release, '.');
  }

  /** The major.minor of "<major>.<minor>" followed by nothing or by further
      `.`-led components is "<major>.<minor>". */
  lemma MajorMinorOfParts(major: string, minor: string, rest: string)
    requires '.' !in major && '.' !in minor
    requires rest == [] || rest[0] == '.'
    ensures MajorMinorOf(major + "." + minor + rest) == Some(major + "." + minor)
  {
    assert major + "." + minor + rest == major + ['.'] + (minor + rest);
    SplitAround(major, minor + rest, '.');
    SplitNoSeparator(major, '.');
    if rest == [] {
      assert minor + rest == minor;
      SplitNoSeparator(minor, '.');
    } else {
      assert minor + rest == minor + ['.'] + rest[1..];
      SplitAround(minor, rest[1..], '.');
      SplitNoSeparator(minor, '.');
    }
  }

  /** Whether a bug is looked at: skipped silently, rejected with an error,
      or assessed. */
  datatype Admission = Skip | Reject(err: VerifyError) | Proceed

  /** Bugzilla denotes an unset target release by an empty list or `---`. */
  predicate Unset(bug: Bug) {
    |bug.targetRelease| == 0 || bug.targetRelease[0] == UNSET_RELEASE
  }

  function Admit(tagRelease: string, id: int, bug: Bug): Admission {
    if Unset(bug) then Skip
    else
      match MajorMinorOf(bug.targetRelease[0])
      case None => Reject(TargetReleaseError(id, bug.targetRelease[0]))
      case Some(release) =>
        if release != tagRelease then Skip
        else if bug.status == VERIFIED then Skip
        else Proceed
  }

  /** The bugs skipped silently: unset target release, a different
      major.minor release than the tag's, or already VERIFIED. */
  predicate SkipCase(tagRelease: string, bug: Bug) {
    || Unset(bug)
    || (MajorMinorOf(bug.targetRelease[0]).Some? &&
        (MajorMinorOf(bug.targetRelease[0]).value != tagRelease || bug.status == VERIFIED))
  }

  /** The comment the bug gets. */
  function MessageFor(env: Env, bug: Bug, prs: seq<Pr>): string {
    var a := Assess(env.gh, bug.status, prs);
    env.compose(env.tagName, a.unlabeled, a.reasons, bug.qaContact)
  }

  /** Whether the robot has already left a comment with exactly this text. */
  predicate Commented(comments: seq<Comment>, text: string) {
    exists i :: 0 <= i < |comments| && comments[i].text == text && IsRobot(comments[i].creator)
  }

  /** What processing one bug does: the bug's record afterwards, the errors
      recorded and the Bugzilla calls made. */
  datatype Outcome = Outcome(entry: Option<Bug>, errs: seq<VerifyError>, calls: seq<Call>)

  /** Posts the comment as a private comment, unless the robot already did. */
  function PostComment(env: Env, id: int, bug: Bug, message: string): Outcome {
    if Commented(bug.comments, message) then Outcome(Some(bug), [], [])
    else
      var c := Call.CreateComment(id, message, true);
      if c in env.faults then Outcome(Some(bug), [CreateCommentError(id, env.faults[c])], [c])
      else Outcome(Some(bug.(comments := bug.comments + [Comment(message, env.account, true)])), [], [c])
  }

  /** Moves a passing bug to VERIFIED. */
  function Transition(env: Env, id: int, bug: Bug, success: bool): Outcome {
    if !success then Outcome(Some(bug), [], [])
    else
      var c := Call.UpdateBug(id, VERIFIED);
      if c in env.faults then Outcome(Some(bug), [UpdateError(id, env.faults[c])], [c])
      else Outcome(Some(bug.(status := VERIFIED)), [], [c])
  }

  /** Reads the bug's comments, then comments and transitions; failing to
      read the comments stops both. */
  function Report(env: Env, id: int, bug: Bug, message: string, success: bool): Outcome {
    var c := Call.GetComments(id);
    if c in env.faults then Outcome(Some(bug), [CommentsError(id, env.faults[c])], [c])
    else
      var posted := PostComment(env, id, bug, message);
      var moved := Transition(env, id, posted.entry.value, success);
      Outcome(moved.entry, posted.errs + moved.errs, [c] + posted.calls + moved.calls)
  }

  /** One bug's processing, given its linked pull requests and its record
      (none when Bugzilla has no such bug). */
  function VerifyOne(env: Env, id: int, prs: seq<Pr>, entry: Option<Bug>): Outcome {
    var c := Call.GetBug(id);
    match BugFetch(env.faults, id, entry)
    case Failed(e) => Outcome(entry, [GetBugError(id, e)], [c])
    case Got(bug) =>
      match Admit(env.tagRelease, id, bug)
      case Skip => Outcome(entry, [], [c])
      case Reject(err) => Outcome(entry, [err], [c])
      case Proceed =>
        var a := Assess(env.gh, bug.status, prs);
        var r := Report(env, id, bug, MessageFor(env, bug, prs), !Fails(a.unlabeled, a.reasons));
        Outcome(r.entry, a.errs + r.errs, [c] + r.calls)
  }

  /** The shape of the processing of a bug that passes the gates. */
  lemma VerifyOneProceeds(env: Env, id: int, prs: seq<Pr>, bug: Bug)
    requires Call.GetBug(id) !in env.faults
    requires Admit(env.tagRelease, id, bug) == Proceed
    ensures var a := Assess(env.gh, bug.status, prs);
      var r := Report(env, id, bug, MessageFor(env, bug, prs), !Fails(a.unlabeled, a.reasons));
      VerifyOne(env, id, prs, Some(bug)) == Outcome(r.entry, a.errs + r.errs, [Call.GetBug(id)] + r.calls)
  {
  }
}
