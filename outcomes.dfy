/** What processing one bug can and cannot do: which bugs are left alone,
    how its record may change, when it is commented on and transitioned,
    and that every failure is reported. */
module Outcomes {
  import opened Text
  import opened Model
  import opened Tracker
  import opened Messages
  import opened Policy

  /** The bug was fetched and passed the release and status gates. */
  predicate Assessed(env: Env, id: int, entry: Option<Bug>) {
    && BugFetch(env.faults, id, entry).Got?
    && Admit(env.tagRelease, id, entry.value) == Proceed
  }

  lemma AdmitSkip(tagRelease: string, id: int, bug: Bug)
    ensures Admit(tagRelease, id, bug) == Skip <==> SkipCase(tagRelease, bug)
  {
  }

  /** A fetched bug is left alone, with no error and no call after the
      fetch, exactly in the three skip cases. */
  lemma SkippedBug(env: Env, id: int, prs: seq<Pr>, bug: Bug)
    requires Call.GetBug(id) !in env.faults
    ensures VerifyOne(env, id, prs, Some(bug)) == Outcome(Some(bug), [], [Call.GetBug(id)]) <==>
      SkipCase(env.tagRelease, bug)
  {
    AdmitSkip(env.tagRelease, id, bug);
    var s := VerifyOne(env, id, prs, Some(bug));
    if Admit(env.tagRelease, id, bug) == Proceed {
      assert |s.calls| >= 2;
    }
  }

  /** A target release with fewer than two components gives exactly one
      error, and the bug is neither commented on nor transitioned. */
  lemma MalformedRelease(env: Env, id: int, prs: seq<Pr>, bug: Bug)
    requires Call.GetBug(id) !in env.faults
    requires !Unset(bug) && '.' !in bug.targetRelease[0]
    ensures VerifyOne(env, id, prs, Some(bug)) ==
      Outcome(Some(bug), [TargetReleaseError(id, bug.targetRelease[0])], [Call.GetBug(id)])
  {
    MajorMinorOfNone(bug.targetRelease[0]);
  }

  /** The bug record after processing: present exactly when it was; only
      the status and the comments can change; the status can only go from
      ON_QA to VERIFIED; at most the bug's message is added as a private
      comment by the client's account. */
  lemma RecordFrame(env: Env, id: int, prs: seq<Pr>, entry: Option<Bug>)
    ensures var s := VerifyOne(env, id, prs, entry);
      && s.entry.Some? == entry.Some?
      && (entry.Some? ==>
        var before, after := entry.value, s.entry.value;
        && after.targetRelease == before.targetRelease
        && after.qaContact == before.qaContact
        && after.externalBugs == before.externalBugs
        && (after.status == before.status || (before.status == ON_QA && after.status == VERIFIED))
        && (after.comments == before.comments ||
            after.comments == before.comments + [Comment(MessageFor(env, before, prs), env.account, true)]))
  {
    if Assessed(env, id, entry) {
      var bug := entry.value;
      var a := Assess(env.gh, bug.status, prs);
      if !Fails(a.unlabeled, a.reasons) {
        assert bug.status == ON_QA;
      }
    }
  }

  /** The status update is the last call if made, is always to VERIFIED,
      and is made exactly when the bug was assessed, passed, and its
      comments could be read. */
  lemma UpdateOnlyOnSuccess(env: Env, id: int, prs: seq<Pr>, entry: Option<Bug>)
    ensures var s := VerifyOne(env, id, prs, entry);
      && (forall i :: 0 <= i < |s.calls| && s.calls[i].UpdateBug? ==>
            i == |s.calls| - 1 && s.calls[i] == Call.UpdateBug(id, VERIFIED))
      && (Call.UpdateBug(id, VERIFIED) in s.calls <==>
            && Assessed(env, id, entry)
            && Succeeds(env.gh, entry.value.status, prs)
            && Call.GetComments(id) !in env.faults)
  {
    var s := VerifyOne(env, id, prs, entry);
    if Assessed(env, id, entry) {
      var bug := entry.value;
      var a := Assess(env.gh, bug.status, prs);
      var r := Report(env, id, bug, MessageFor(env, bug, prs), !Fails(a.unlabeled, a.reasons));
      ReportUpdates(env, id, bug, MessageFor(env, bug, prs), !Fails(a.unlabeled, a.reasons));
      assert s.calls == [Call.GetBug(id)] + r.calls;
    }
  }

  lemma ReportUpdates(env: Env, id: int, bug: Bug, message: string, success: bool)
    ensures var r := Report(env, id, bug, message, success);
      && (forall i :: 0 <= i < |r.calls| && r.calls[i].UpdateBug? ==>
            i == |r.calls| - 1 && r.calls[i] == Call.UpdateBug(id, VERIFIED))
      && (Call.UpdateBug(id, VERIFIED) in r.calls <==> success && Call.GetComments(id) !in env.faults)
  {
    var g := Call.GetComments(id);
    if g !in env.faults {
      var posted := PostComment(env, id, bug, message);
      var moved := Transition(env, id, posted.entry.value, success);
      assert forall c :: c in posted.calls ==> c.CreateComment?;
      assert forall c :: c in moved.calls ==> c == Call.UpdateBug(id, VERIFIED);
      assert |moved.calls| <= 1;
    }
  }

  /** Every call made while processing a bug is about that bug. */
  lemma VerifyOneCallsConcern(env: Env, id: int, prs: seq<Pr>, entry: Option<Bug>)
    ensures var s := VerifyOne(env, id, prs, entry);
      forall i :: 0 <= i < |s.calls| ==> s.calls[i].id == id
  {
    if Assessed(env, id, entry) {
      var bug := entry.value;
      var a := Assess(env.gh, bug.status, prs);
      var message := MessageFor(env, bug, prs);
      var r := Report(env, id, bug, message, !Fails(a.unlabeled, a.reasons));
      VerifyOneProceeds(env, id, prs, bug);
      if Call.GetComments(id) !in env.faults {
        var posted := PostComment(env, id, bug, message);
        assert forall c :: c in posted.calls ==> c.id == id;
      }
    } else {
      UnassessedUnchanged(env, id, prs, entry);
    }
  }

  /** The comment posted, if any, is the bug's message, private. */
  lemma CommentIsMessage(env: Env, id: int, prs: seq<Pr>, entry: Option<Bug>)
    ensures var s := VerifyOne(env, id, prs, entry);
      forall i :: 0 <= i < |s.calls| && s.calls[i].CreateComment? ==>
        entry.Some? && s.calls[i] == Call.CreateComment(id, MessageFor(env, entry.value, prs), true)
  {
    if Assessed(env, id, entry) {
      CommentCalls(env, id, prs, entry.value);
    } else {
      UnassessedUnchanged(env, id, prs, entry);
    }
  }

  /** A comment is posted exactly when the bug was assessed, its comments
      could be read and the robot has not already left the same text. */
  lemma CommentOnlyIfNew(env: Env, id: int, prs: seq<Pr>, entry: Option<Bug>)
    ensures var s := VerifyOne(env, id, prs, entry);
      (exists i :: 0 <= i < |s.calls| && s.calls[i].CreateComment?) <==>
        && Assessed(env, id, entry)
        && Call.GetComments(id) !in env.faults
        && !Commented(entry.value.comments, MessageFor(env, entry.value, prs))
  {
    if Assessed(env, id, entry) {
      CommentCalls(env, id, prs, entry.value);
      var s := VerifyOne(env, id, prs, entry);
      if Call.GetComments(id) !in env.faults && !Commented(entry.value.comments, MessageFor(env, entry.value, prs)) {
        assert s.calls[2].CreateComment?;
      }
    } else {
      UnassessedUnchanged(env, id, prs, entry);
    }
  }

  /** The calls after the fetch of an assessed bug are those of its report. */
  lemma CommentCalls(env: Env, id: int, prs: seq<Pr>, bug: Bug)
    requires Assessed(env, id, Some(bug))
    ensures var s := VerifyOne(env, id, prs, Some(bug));
      var message := MessageFor(env, bug, prs);
      && (forall i :: 0 <= i < |s.calls| && s.calls[i].CreateComment? ==>
            s.calls[i] == Call.CreateComment(id, message, true))
      && (Call.GetComments(id) !in env.faults && !Commented(bug.comments, message) ==>
            2 < |s.calls| && s.calls[2] == Call.CreateComment(id, message, true))
      && (Call.GetComments(id) in env.faults || Commented(bug.comments, message) ==>
            forall i :: 0 <= i < |s.calls| ==> !s.calls[i].CreateComment?)
  {
    var s := VerifyOne(env, id, prs, Some(bug));
    var a := Assess(env.gh, bug.status, prs);
    var message := MessageFor(env, bug, prs);
    var r := Report(env, id, bug, message, !Fails(a.unlabeled, a.reasons));
    VerifyOneProceeds(env, id, prs, bug);
    ReportComments(env, id, bug, message, !Fails(a.unlabeled, a.reasons));
    assert s.calls == [Call.GetBug(id)] + r.calls;
    assert forall i :: 1 <= i < |s.calls| ==> s.calls[i] == r.calls[i - 1];
  }

  lemma ReportComments(env: Env, id: int, bug: Bug, message: string, success: bool)
    ensures var r := Report(env, id, bug, message, success);
      && (forall i :: 0 <= i < |r.calls| && r.calls[i].CreateComment? ==>
            r.calls[i] == Call.CreateComment(id, message, true))
      && (Call.GetComments(id) !in env.faults && !Commented(bug.comments, message) ==>
            r.calls[1] == Call.CreateComment(id, message, true))
      && (Call.GetComments(id) in env.faults || Commented(bug.comments, message) ==>
            forall i :: 0 <= i < |r.calls| ==> !r.calls[i].CreateComment?)
  {
    var g := Call.GetComments(id);
    if g !in env.faults {
      var posted := PostComment(env, id, bug, message);
      var moved := Transition(env, id, posted.entry.value, success);
      assert forall c :: c in posted.calls ==> c == Call.CreateComment(id, message, true);
      assert forall c :: c in moved.calls ==> c.UpdateBug?;
    }
  }

  /** The error recorded for a failed Bugzilla call. */
  function Reported(c: Call, e: ClientError): VerifyError {
    match c
    case GetBug(id) => GetBugError(id, e)
    case GetExternalBugPRsOnBug(id) => LinksError(id, e)
    case GetComments(id) => CommentsError(id, e)
    case CreateComment(id, _, _) => CreateCommentError(id, e)
    case UpdateBug(id, _) => UpdateError(id, e)
  }

  /** No failure is swallowed: every Bugzilla call that failed and every
      failed label fetch of an assessed ON_QA bug is among the errors. */
  lemma FailuresReported(env: Env, id: int, prs: seq<Pr>, entry: Option<Bug>)
    ensures var s := VerifyOne(env, id, prs, entry);
      && (forall i :: 0 <= i < |s.calls| && s.calls[i] in env.faults ==>
            Reported(s.calls[i], env.faults[s.calls[i]]) in s.errs)
      && (entry.None? && Call.GetBug(id) !in env.faults ==> GetBugError(id, MISSING) in s.errs)
      && (Assessed(env, id, entry) && entry.value.status == ON_QA ==>
            forall p :: p in prs && env.gh.issueLabels(p).Failed? ==>
              LabelsError(p, env.gh.issueLabels(p).err) in s.errs)
  {
    if Assessed(env, id, entry) && entry.value.status == ON_QA {
      forall p | p in prs && env.gh.issueLabels(p).Failed?
        ensures LabelsError(p, env.gh.issueLabels(p).err) in VerifyOne(env, id, prs, entry).errs
      {
        LabelErrorsMembers(env.gh, prs, LabelsError(p, env.gh.issueLabels(p).err));
      }
    }
  }

  /** Every error has a cause: a failed call that was made, a missing bug,
      a malformed target release, or a failed label fetch. */
  lemma ErrorsExplained(env: Env, id: int, prs: seq<Pr>, entry: Option<Bug>, e: VerifyError)
    requires e in VerifyOne(env, id, prs, entry).errs
    ensures var s := VerifyOne(env, id, prs, entry);
      || (exists c :: c in s.calls && c in env.faults && e == Reported(c, env.faults[c]))
      || (entry.None? && e == GetBugError(id, MISSING))
      || (entry.Some? && !Unset(entry.value) && '.' !in entry.value.targetRelease[0] &&
          e == TargetReleaseError(id, entry.value.targetRelease[0]))
      || (e.LabelsError? && e.pr in prs && env.gh.issueLabels(e.pr) == Failed(e.cause))
  {
    var s := VerifyOne(env, id, prs, entry);
    if BugFetch(env.faults, id, entry).Failed? {
      if Call.GetBug(id) in env.faults {
        assert Call.GetBug(id) in s.calls;
      }
    } else if Admit(env.tagRelease, id, entry.value).Reject? {
      MajorMinorOfNone(entry.value.targetRelease[0]);
    } else if e.LabelsError? {
      LabelErrorsMembers(env.gh, prs, e);
    } else {
      var bug := entry.value;
      var a := Assess(env.gh, bug.status, prs);
      var r := Report(env, id, bug, MessageFor(env, bug, prs), !Fails(a.unlabeled, a.reasons));
      assert s.calls == [Call.GetBug(id)] + r.calls;
      assert s.errs == a.errs + r.errs;
      LabelErrorsMembers(env.gh, prs, e);
      assert e !in a.errs;
      ReportErrorsExplained(env, id, bug, MessageFor(env, bug, prs), !Fails(a.unlabeled, a.reasons), e);
      var c :| c in r.calls && c in env.faults && e == Reported(c, env.faults[c]);
      assert c in s.calls;
    }
  }

  lemma ReportErrorsExplained(env: Env, id: int, bug: Bug, message: string, success: bool, e: VerifyError)
    requires e in Report(env, id, bug, message, success).errs
    ensures var r := Report(env, id, bug, message, success);
      exists c :: c in r.calls && c in env.faults && e == Reported(c, env.faults[c])
  {
    var r := Report(env, id, bug, message, success);
    var g := Call.GetComments(id);
    if g in env.faults {
      assert g in r.calls;
    } else {
      var posted := PostComment(env, id, bug, message);
      var moved := Transition(env, id, posted.entry.value, success);
      assert r.calls == [g] + posted.calls + moved.calls;
      if e in posted.errs {
        var c := Call.CreateComment(id, message, true);
        assert c in posted.calls;
      } else {
        var u := Call.UpdateBug(id, VERIFIED);
        assert u in moved.calls;
      }
    }
  }

  /** A bug that is not assessed keeps its record. */
  lemma UnassessedUnchanged(env: Env, id: int, prs: seq<Pr>, entry: Option<Bug>)
    requires !Assessed(env, id, entry)
    ensures VerifyOne(env, id, prs, entry).entry == entry
    ensures VerifyOne(env, id, prs, entry).calls == [Call.GetBug(id)]
  {
  }

  /** When the robot has already left the bug's message, no comment is added. */
  lemma CommentedNoNewComment(env: Env, id: int, prs: seq<Pr>, bug: Bug)
    requires Commented(bug.comments, MessageFor(env, bug, prs))
    ensures var s := VerifyOne(env, id, prs, Some(bug));
      s.entry.Some? && s.entry.value.comments == bug.comments
  {
    if Assessed(env, id, Some(bug)) {
      var a := Assess(env.gh, bug.status, prs);
      var message := MessageFor(env, bug, prs);
      var success := !Fails(a.unlabeled, a.reasons);
      if Call.GetComments(id) !in env.faults {
        assert PostComment(env, id, bug, message).entry == Some(bug);
      }
    }
  }

  /** Processing a bug twice with nothing else changing in between adds at
      most one comment, provided the client posts under a robot identity:
      the second run finds the first run's comment. */
  lemma PostsAtMostOnce(env: Env, id: int, prs: seq<Pr>, entry: Option<Bug>)
    requires IsRobot(env.account)
    requires entry.Some?
    ensures var first := VerifyOne(env, id, prs, entry);
      var second := VerifyOne(env, id, prs, first.entry);
      second.entry.Some? && |second.entry.value.comments| <= |entry.value.comments| + 1
  {
    var bug := entry.value;
    var first := VerifyOne(env, id, prs, entry);
    RecordFrame(env, id, prs, entry);
    RecordFrame(env, id, prs, first.entry);
    var bug1 := first.entry.value;
    if bug1.comments != bug.comments {
      var message := MessageFor(env, bug, prs);
      assert bug1.comments == bug.comments + [Comment(message, env.account, true)];
      if bug1.status == bug.status {
        assert MessageFor(env, bug1, prs) == message;
        assert bug1.comments[|bug.comments|] == Comment(message, env.account, true);
        CommentedNoNewComment(env, id, prs, bug1);
      } else {
        assert Admit(env.tagRelease, id, bug1) == Skip;
        UnassessedUnchanged(env, id, prs, first.entry);
      }
    }
  }

  /** With no Bugzilla failure, an assessed bug that fails, with no label
      error and no earlier robot comment with its message, gets exactly the
      message as a private comment and no status update. */
  lemma CleanFailure(env: Env, id: int, prs: seq<Pr>, bug: Bug)
    requires env.faults == map[]
    requires Admit(env.tagRelease, id, bug) == Proceed
    requires !Succeeds(env.gh, bug.status, prs) && Assess(env.gh, bug.status, prs).errs == []
    requires !Commented(bug.comments, MessageFor(env, bug, prs))
    ensures var message := MessageFor(env, bug, prs);
      VerifyOne(env, id, prs, Some(bug)) ==
        Outcome(Some(bug.(comments := bug.comments + [Comment(message, env.account, true)])), [],
                [Call.GetBug(id), Call.GetComments(id), Call.CreateComment(id, message, true)])
  {
    VerifyOneProceeds(env, id, prs, bug);
  }

  /** With no Bugzilla failure, an assessed bug that passes, with no earlier
      robot comment with its message, gets the message as a private comment
      and is moved to VERIFIED. */
  lemma CleanSuccess(env: Env, id: int, prs: seq<Pr>, bug: Bug)
    requires env.faults == map[]
    requires Admit(env.tagRelease, id, bug) == Proceed
    requires Succeeds(env.gh, bug.status, prs)
    requires !Commented(bug.comments, MessageFor(env, bug, prs))
    ensures var message := MessageFor(env, bug, prs);
      VerifyOne(env, id, prs, Some(bug)) ==
        Outcome(Some(bug.(status := VERIFIED, comments := bug.comments + [Comment(message, env.account, true)])), [],
                [Call.GetBug(id), Call.GetComments(id), Call.CreateComment(id, message, true),
                 Call.UpdateBug(id, VERIFIED)])
  {
    VerifyOneProceeds(env, id, prs, bug);
  }
}
