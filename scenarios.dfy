/** Worked cases: a bug in ON_QA targeting 4.14.0, release tag 4.14.3, with
    one or two linked pull requests, and no Bugzilla failure. */
module Scenarios {
  import opened Text
  import opened Model
  import opened Messages
  import opened Policy
  import opened Outcomes

  const BUG_ID := 1
  const PR5 := Pr("org", "repo", 5)
  const PR6 := Pr("org", "repo", 6)

  /** The setting of the worked cases: a one-line tag of release 4.14 (such
      as 4.14.3), no injected failure, and the verifier's own comments. */
  ghost predicate Setting(env: Env) {
    env.faults == map[] && '\n' !in env.tagName && env.tagRelease == "4.14" && env.compose == Message
  }

  predicate OnQaFor414(bug: Bug) {
    && bug.status == ON_QA
    && bug.targetRelease == ["4.14.0"]
    && bug.qaContact == None
    && bug.comments == []
  }

  lemma AdmittedFor414(env: Env, bug: Bug)
    requires Setting(env) && OnQaFor414(bug)
    ensures Admit(env.tagRelease, BUG_ID, bug) == Proceed
  {
    MajorMinorOfParts("4", "14", ".0");
    assert "4" + "." + "14" + ".0" == "4.14.0";
    assert "4" + "." + "14" == "4.14";
  }

  lemma PrLineOf5()
    ensures PrLine(PR5) == "- PR org/repo#5 not approved by QA contact"
  {
    PrLineOf5Pieces();
    assert "- PR " + "org" + "/" + "repo" + "#" + "5" == "- PR org/repo#5" by {
      HeadOf5();
    }
    SuffixOf5();
  }

  /** The line for PR5 before its literal pieces are put together; the
      three lemmas below keep each string comparison small. */
  lemma PrLineOf5Pieces()
    ensures PrLine(PR5) == "- PR " + "org" + "/" + "repo" + "#" + "5" + " not approved by QA contact"
  {
    assert IntToString(5) == "5" by {
      assert NatToString(5) == [Digit(5)];
    }
  }

  lemma HeadOf5()
    ensures "- PR " + "org" + "/" + "repo" + "#" + "5" == "- PR org/repo#5"
  {
  }

  lemma SuffixOf5()
    ensures "- PR org/repo#5" + " not approved by QA contact" == "- PR org/repo#5 not approved by QA contact"
  {
  }

  lemma AssessUnapproved(gh: GitHub)
    requires gh.issueLabels(PR5) == Got(["lgtm"])
    ensures Assess(gh, ON_QA, [PR5]) == Assessment([PR5], [], [])
  {
    assert [PR5][..0] == [];
    assert !Approved(gh.issueLabels(PR5));
    assert Unapproved(gh, [PR5]) == [PR5];
    assert LabelErrors(gh, [PR5]) == [];
  }

  lemma AssessApproved(gh: GitHub)
    requires gh.issueLabels(PR5) == Got(["lgtm", APPROVED_LABEL])
    ensures Assess(gh, ON_QA, [PR5]) == Assessment([], [], [])
  {
    assert [PR5][..0] == [];
    assert Approved(gh.issueLabels(PR5));
    assert Unapproved(gh, [PR5]) == [];
    assert LabelErrors(gh, [PR5]) == [];
  }

  lemma AssessOneOfTwo(gh: GitHub)
    requires gh.issueLabels(PR5) == Got([])
    requires gh.issueLabels(PR6) == Got([APPROVED_LABEL])
    ensures Assess(gh, ON_QA, [PR5, PR6]) == Assessment([PR5], [], [])
  {
    assert [PR5, PR6][..1] == [PR5] && [PR5][..0] == [];
    assert !Approved(gh.issueLabels(PR5)) && Approved(gh.issueLabels(PR6));
    assert Unapproved(gh, [PR5]) == [PR5] && LabelErrors(gh, [PR5]) == [];
    assert Unapproved(gh, [PR5, PR6]) == [PR5] && LabelErrors(gh, [PR5, PR6]) == [];
  }

  /** The lines of the failure comment when PR5 is the only unapproved
      pull request and there is no other reason. */
  lemma Pr5FailureLines(tag: string)
    requires '\n' !in tag
    ensures Split(Message(tag, [PR5], [], None), '\n') == [BaseLine(tag), PREAMBLE, PrLine(PR5), "", MANUAL]
  {
    MessageLinesRoundTrip(tag, [PR5], [], None);
    assert PrLines([PR5]) == [PrLine(PR5)];
    assert ReasonLines([]) == [];
  }

  /** The failure comment for PR5 has the line naming PR5. */
  lemma FailureNamesPr5(tag: string)
    requires '\n' !in tag
    ensures "- PR org/repo#5 not approved by QA contact" in Split(Message(tag, [PR5], [], None), '\n')
  {
    Pr5FailureLines(tag);
    PrLineOf5();
  }

  /** One linked pull request without the approval label: the bug fails,
      so it gets the comment and no status update. */
  lemma OneUnapprovedPr(env: Env, bug: Bug)
    requires Setting(env) && OnQaFor414(bug)
    requires env.gh.issueLabels(PR5) == Got(["lgtm"])
    ensures var s := VerifyOne(env, BUG_ID, [PR5], Some(bug));
      var message := MessageFor(env, bug, [PR5]);
      && s.errs == []
      && s.calls == [Call.GetBug(BUG_ID), Call.GetComments(BUG_ID), Call.CreateComment(BUG_ID, message, true)]
      && s.entry == Some(bug.(comments := [Comment(message, env.account, true)]))
  {
    AdmittedFor414(env, bug);
    AssessUnapproved(env.gh);
    CleanFailure(env, BUG_ID, [PR5], bug);
    var c := Comment(MessageFor(env, bug, [PR5]), env.account, true);
    assert bug.comments + [c] == [c];
  }

  /** The comment of that failure names the unapproved pull request. */
  lemma OneUnapprovedMessage(env: Env, bug: Bug)
    requires Setting(env) && OnQaFor414(bug)
    requires env.gh.issueLabels(PR5) == Got(["lgtm"])
    ensures "- PR org/repo#5 not approved by QA contact" in Split(MessageFor(env, bug, [PR5]), '\n')
  {
    AssessUnapproved(env.gh);
    FailureNamesPr5(env.tagName);
  }

  /** The same bug with the pull request approved: the bug passes, gets the
      comment, and is moved to VERIFIED by one update. */
  lemma OneApprovedPr(env: Env, bug: Bug)
    requires Setting(env) && OnQaFor414(bug)
    requires env.gh.issueLabels(PR5) == Got(["lgtm", APPROVED_LABEL])
    ensures var s := VerifyOne(env, BUG_ID, [PR5], Some(bug));
      var message := MessageFor(env, bug, [PR5]);
      && s.errs == []
      && s.calls == [Call.GetBug(BUG_ID), Call.GetComments(BUG_ID),
                     Call.CreateComment(BUG_ID, message, true), Call.UpdateBug(BUG_ID, VERIFIED)]
      && s.entry == Some(bug.(status := VERIFIED, comments := [Comment(message, env.account, true)]))
  {
    AdmittedFor414(env, bug);
    AssessApproved(env.gh);
    CleanSuccess(env, BUG_ID, [PR5], bug);
    var c := Comment(MessageFor(env, bug, [PR5]), env.account, true);
    assert bug.comments + [c] == [c];
  }

  /** The comment of that success is the heading and the success line. */
  lemma OneApprovedMessage(env: Env, bug: Bug)
    requires Setting(env) && OnQaFor414(bug)
    requires env.gh.issueLabels(PR5) == Got(["lgtm", APPROVED_LABEL])
    ensures Split(MessageFor(env, bug, [PR5]), '\n') == [BaseLine(env.tagName), SUCCESS_LINE]
  {
    AssessApproved(env.gh);
    MessageLinesRoundTrip(env.tagName, [], [], None);
  }

  /** Two linked pull requests, one approved: the bug fails. */
  lemma OneOfTwoApproved(env: Env, bug: Bug)
    requires Setting(env) && OnQaFor414(bug)
    requires env.gh.issueLabels(PR5) == Got([])
    requires env.gh.issueLabels(PR6) == Got([APPROVED_LABEL])
    ensures var s := VerifyOne(env, BUG_ID, [PR5, PR6], Some(bug));
      var message := MessageFor(env, bug, [PR5, PR6]);
      && s.errs == []
      && s.calls == [Call.GetBug(BUG_ID), Call.GetComments(BUG_ID), Call.CreateComment(BUG_ID, message, true)]
  {
    AdmittedFor414(env, bug);
    AssessOneOfTwo(env.gh);
    CleanFailure(env, BUG_ID, [PR5, PR6], bug);
  }

  /** Its comment lists only the unapproved pull request. */
  lemma OneOfTwoMessage(env: Env, bug: Bug)
    requires Setting(env) && OnQaFor414(bug)
    requires env.gh.issueLabels(PR5) == Got([])
    requires env.gh.issueLabels(PR6) == Got([APPROVED_LABEL])
    ensures Split(MessageFor(env, bug, [PR5, PR6]), '\n') ==
      [BaseLine(env.tagName), PREAMBLE, PrLine(PR5), "", MANUAL]
  {
    AssessOneOfTwo(env.gh);
    Pr5FailureLines(env.tagName);
  }
}
