/** The verifier itself: VerifyBugs over a Bugzilla client whose bugs it
    reads and writes, with GitHub and the release-tag parser as given
    collaborators. Each step is proved to do what the per-bug and whole-run
    specifications say. */
module Engine {
  import opened Text
  import opened Model
  import opened Tracker
  import opened Links
  import opened Messages
  import opened Policy
  import opened Runs

  /** Whether a label list holds the given name, stopping at the first match. */
  method HasLabel(labels: seq<string>, name: string) returns (hasLabel: bool)
    ensures hasLabel <==> name in labels
  {
    hasLabel := false;
    var i := 0;
    while i < |labels|
      invariant 0 <= i <= |labels|
      invariant name !in labels[..i]
    {
      if labels[i] == name {
        hasLabel := true;
        break;
      }
      assert labels[..i + 1] == labels[..i] + [labels[i]];
      i := i + 1;
    }
    if !hasLabel {
      assert labels[..i] == labels;
    }
  }

  /** Whether the robot already left a comment with exactly this text,
      stopping at the first such comment. */
  method FindRobotComment(comments: seq<Comment>, message: string) returns (alreadyCommented: bool)
    ensures alreadyCommented <==> Commented(comments, message)
  {
    alreadyCommented := false;
    var i := 0;
    while i < |comments|
      invariant 0 <= i <= |comments|
      invariant forall k :: 0 <= k < i ==> !(comments[k].text == message && IsRobot(comments[k].creator))
    {
      var comment := comments[i];
      if comment.text == message && (comment.creator == ROBOT || comment.creator == ROBOT_EMAIL) {
        alreadyCommented := true;
        break;
      }
      i := i + 1;
    }
  }

  /** A set that is not empty has an element, so a map's range loop always
      has a next key while keys remain. */
  lemma SomeKey(keys: set<int>)
    requires keys != {}
    ensures exists k :: k in keys
  {
    if forall k :: k !in keys {
      assert false;
    }
  }

  class Verifier {
    /** Reads bugs and their links and comments; writes comments and statuses. */
    const bz: BugzillaClient
    /** Reads the labels of pull requests. */
    const gh: GitHub
    /** Parses a release tag into its major.minor release. */
    const parseTag: string -> ParsedTag

    constructor (bz: BugzillaClient, gh: GitHub, parseTag: string -> ParsedTag)
      ensures this.bz == bz && this.gh == gh && this.parseTag == parseTag
    {
      this.bz := bz;
      this.gh := gh;
      this.parseTag := parseTag;
    }

    /** The setting a run for this tag works in. */
    function EnvFor(tagName: string, tagRelease: string): (env: Env)
      ensures env.faults == bz.faults && env.account == bz.account && env.gh == gh
      ensures env.tagName == tagName && env.tagRelease == tagRelease
      ensures env.compose == Message
    {
      Env(bz.faults, bz.account, gh, tagName, tagRelease, Message)
    }

    /** Fetches each pull request's labels: those without the approval
        label are unapproved (a failed fetch leaves no labels), and every
        failed fetch is an error. */
    method CheckLabels(extPRs: seq<Pr>) returns (unlabeledPRs: seq<Pr>, labelErrs: seq<VerifyError>)
      ensures unlabeledPRs == Unapproved(gh, extPRs)
      ensures labelErrs == LabelErrors(gh, extPRs)
    {
      unlabeledPRs, labelErrs := [], [];
      for i := 0 to |extPRs|
        invariant unlabeledPRs == Unapproved(gh, extPRs[..i])
        invariant labelErrs == LabelErrors(gh, extPRs[..i])
      {
        var extPR := extPRs[i];
        assert extPRs[..i + 1][..i] == extPRs[..i];
        var labels := gh.issueLabels(extPR);
        var names: seq<string> := [];
        if labels.Failed? {
          labelErrs := labelErrs + [LabelsError(extPR, labels.err)];
        } else {
          names := labels.value;
        }
        var hasLabel := HasLabel(names, APPROVED_LABEL);
        if !hasLabel {
          unlabeledPRs := unlabeledPRs + [extPR];
        }
      }
      assert extPRs[..|extPRs|] == extPRs;
    }

    /** Reads the bug's comments; unless the robot already left the message,
        posts it as a private comment; then moves a passing bug to VERIFIED.
        Failing to read the comments ends the bug's processing. */
    method ReportOn(env: Env, bugID: int, bug: Bug, message: string, success: bool) returns (errs: seq<VerifyError>)
      requires env.faults == bz.faults && env.account == bz.account
      requires Lookup(bz.bugs, bugID) == Some(bug)
      modifies bz
      ensures var r := Report(env, bugID, bug, message, success);
        && errs == r.errs
        && r.entry.Some?
        && bz.bugs == old(bz.bugs)[bugID := r.entry.value]
        && bz.calls == old(bz.calls) + r.calls
    {
      var comments := bz.GetComments(bugID);
      if comments.Failed? {
        errs := [CommentsError(bugID, comments.err)];
        assert bz.bugs == old(bz.bugs)[bugID := bug];
        return;
      }
      var alreadyCommented := FindRobotComment(comments.value, message);
      ghost var posted := PostComment(env, bugID, bug, message);
      errs := [];
      if !alreadyCommented {
        var err := bz.CreateComment(bugID, message, true);
        if err.Some? {
          errs := errs + [CreateCommentError(bugID, err.value)];
        }
      }
      assert bz.bugs == old(bz.bugs)[bugID := posted.entry.value];
      assert bz.calls == old(bz.calls) + [Call.GetComments(bugID)] + posted.calls;
      if success {
        var err := bz.UpdateBug(bugID, VERIFIED);
        if err.Some? {
          errs := errs + [UpdateError(bugID, err.value)];
        }
      }
    }

    /** One round of VerifyBugs's loop: fetch the bug, apply the release
        and status gates, assess its pull requests, compose the message,
        then comment and transition. */
    method VerifyBug(tagName: string, tagRelease: string, bugID: int, extPRs: seq<Pr>) returns (errs: seq<VerifyError>)
      modifies bz
      ensures var s := VerifyOne(EnvFor(tagName, tagRelease), bugID, extPRs, Lookup(old(bz.bugs), bugID));
        && errs == s.errs
        && bz.bugs == Store(old(bz.bugs), bugID, s.entry)
        && bz.calls == old(bz.calls) + s.calls
    {
      var fetched := bz.GetBug(bugID);
      if fetched.Failed? {
        return [GetBugError(bugID, fetched.err)];
      }
      var bug := fetched.value;
      assert old(bz.bugs)[bugID := bug] == old(bz.bugs);
      if |bug.targetRelease| == 0 || bug.targetRelease[0] == UNSET_RELEASE {
        return [];
      }
      var bugSplitVer := Split(bug.targetRelease[0], '.');
      if |bugSplitVer| < 2 {
        return [TargetReleaseError(bugID, bug.targetRelease[0])];
      }
      var bugRelease := bugSplitVer[0] + "." + bugSplitVer[1];
      if bugRelease != tagRelease {
        return [];
      }
      // The VERIFIED check sits inside the status branch of the source; no
      // call or error lies between it and the release gate.
      if bug.status == VERIFIED {
        return [];
      }
      assert Admit(tagRelease, bugID, bug) == Proceed;
      var env := EnvFor(tagName, tagRelease);
      ghost var fetchedCalls := bz.calls;
      errs := Evaluate(env, bugID, bug, extPRs);
      ghost var a := Assess(env.gh, bug.status, extPRs);
      ghost var r := Report(env, bugID, bug, MessageFor(env, bug, extPRs), !Fails(a.unlabeled, a.reasons));
      VerifyOneProceeds(env, bugID, extPRs, bug);
      ConcatAssoc(old(bz.calls), [Call.GetBug(bugID)], r.calls);
    }

    /** The rest of the round for a bug that passed the gates: check its
        status and pull requests, compose the message, then comment and
        transition. */
    method Evaluate(env: Env, bugID: int, bug: Bug, extPRs: seq<Pr>) returns (errs: seq<VerifyError>)
      requires env.faults == bz.faults && env.account == bz.account && env.gh == gh
      requires env.compose == Message
      requires Lookup(bz.bugs, bugID) == Some(bug)
      modifies bz
      ensures var a := Assess(env.gh, bug.status, extPRs);
        var r := Report(env, bugID, bug, MessageFor(env, bug, extPRs), !Fails(a.unlabeled, a.reasons));
        && errs == a.errs + r.errs
        && r.entry.Some?
        && bz.bugs == old(bz.bugs)[bugID := r.entry.value]
        && bz.calls == old(bz.calls) + r.calls
    {
      var unlabeledPRs: seq<Pr>, bugErrs: seq<VerifyError> := [], [];
      errs := [];
      if bug.status != ON_QA {
        bugErrs := [NotOnQa];
      } else {
        unlabeledPRs, bugErrs := CheckLabels(extPRs);
        errs := bugErrs;
      }
      var success := !(|unlabeledPRs| > 0 || |bugErrs| > 0);
      var message := ComposeMessage(env.tagName, unlabeledPRs, bugErrs, bug.qaContact);
      var reportErrs := ReportOn(env, bugID, bug, message, success);
      errs := errs + reportErrs;
    }

    /** VerifyBugs: parses the tag, resolves the bugs' pull requests, then
        processes every bug that has some, in an arbitrary order (`order`),
        collecting the errors. A tag that does not parse aborts the run
        with one error and no call. */
    method VerifyBugs(bugs: seq<int>, tagName: string) returns (errs: seq<VerifyError>, ghost order: seq<int>)
      modifies bz
      ensures parseTag(tagName).ParseError? ==>
        && errs == [TagParseError(tagName, parseTag(tagName).reason)]
        && bz.bugs == old(bz.bugs)
        && bz.calls == old(bz.calls)
      ensures parseTag(tagName).MajorMinor? ==>
        var links := ResolveLinks(bz.faults, old(bz.bugs), bugs);
        && Enumerates(order, links.prs.Keys)
        && var run := RunAll(EnvFor(tagName, parseTag(tagName).release), links.prs, old(bz.bugs), order);
        && errs == links.errs + run.errs
        && bz.bugs == run.bugs
        && bz.calls == old(bz.calls) + links.calls + run.calls
    {
      var tag := parseTag(tagName);
      if tag.ParseError? {
        return [TagParseError(tagName, tag.reason)], [];
      }
      var tagRelease := tag.release;
      var env := EnvFor(tagName, tagRelease);
      ghost var links := ResolveLinks(bz.faults, bz.bugs, bugs);
      var bzPRs;
      bzPRs, errs := GetPRs(bugs, bz);
      ghost var start, linkCalls := bz.bugs, bz.calls;
      var remaining := bzPRs.Keys;
      order := [];
      while remaining != {}
        invariant remaining <= bzPRs.Keys
        invariant forall i :: 0 <= i < |order| ==> order[i] in bzPRs && order[i] !in remaining
        invariant Distinct(order)
        invariant forall k :: k in bzPRs ==> k in remaining || k in order
        invariant var run := RunAll(env, bzPRs, start, order);
          && errs == links.errs + run.errs
          && bz.bugs == run.bugs
          && bz.calls == linkCalls + run.calls
        decreases remaining
      {
        SomeKey(remaining);
        var bugID :| bugID in remaining;
        ghost var before := RunAll(env, bzPRs, start, order);
        var bugErrs := VerifyBug(tagName, tagRelease, bugID, bzPRs[bugID]);
        ghost var s := VerifyOne(env, bugID, bzPRs[bugID], Lookup(before.bugs, bugID));
        RunAllStep(env, bzPRs, start, order, bugID);
        ConcatAssoc(links.errs, before.errs, s.errs);
        ConcatAssoc(linkCalls, before.calls, s.calls);
        errs := errs + bugErrs;
        order := order + [bugID];
        remaining := remaining - {bugID};
      }
      ConcatAssoc(old(bz.calls), links.calls, RunAll(env, bzPRs, start, order).calls);
    }
  }
}
