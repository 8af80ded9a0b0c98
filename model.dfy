/** The values the bug verifier works with: bugs, their external links and
    comments, the pull requests they point at, the errors it reports, and
    the behaviour of the Bugzilla and GitHub services it calls, with
    deterministic, injectable failures. */
module Model {
  import opened Text

  datatype Option<T> = None | Some(value: T)

  /** An error returned by a client call. Bugzilla classifies some of its
      errors as access denials; that classification is the flag. */
  datatype ClientError = ClientError(text: string, accessDenied: bool)

  /** The result of a client read. */
  datatype Fetch<T> = Got(value: T) | Failed(err: ClientError)

  /** The external-system URL that marks a link as a GitHub pull request. */
  const GITHUB_URL := "https://github.com/"
  /** The label a QA contact puts on a pull request to approve it. */
  const APPROVED_LABEL := "qe-approved"
  const ON_QA := "ON_QA"
  const VERIFIED := "VERIFIED"
  /** Bugzilla's marker for an unset target release. */
  const UNSET_RELEASE := "---"
  const ROBOT := "openshift-bugzilla-robot"
  const ROBOT_EMAIL := "openshift-bugzilla-robot@redhat.com"

  /** The two account names under which the verifier's own comments appear. */
  predicate IsRobot(creator: string) {
    creator == ROBOT || creator == ROBOT_EMAIL
  }

  /** A GitHub pull request (the source's `pr`). */
  datatype Pr = Pr(org: string, repo: string, prNum: int)

  /** An external-tracker link on a bug. */
  datatype ExternalBug = ExternalBug(url: string, org: string, repo: string, num: int)

  datatype Comment = Comment(text: string, creator: string, isPrivate: bool)

  /** A bug as the tracker stores it. */
  datatype Bug = Bug(
    status: string,
    targetRelease: seq<string>,
    qaContact: Option<string>,   // the QA contact's name, when the bug names one
    externalBugs: seq<ExternalBug>,
    comments: seq<Comment>)

  /** A call on the Bugzilla client, with its arguments. */
  datatype Call =
    | GetBug(id: int)
    | GetExternalBugPRsOnBug(id: int)
    | GetComments(id: int)
    | CreateComment(id: int, text: string, isPrivate: bool)
    | UpdateBug(id: int, status: string)

  /** The error a call gets, if any: the one injected for exactly this call,
      else a missing bug, else none. */
  function CallError(faults: map<Call, ClientError>, entry: Option<Bug>, c: Call): (r: Option<ClientError>)
    ensures r.None? <==> c !in faults && entry.Some?
  {
    if c in faults then Some(faults[c])
    else if entry.None? then Some(MISSING)
    else None
  }

  /** The error for a bug the server does not have. Its wording is the
      server's and is not modelled. */
  const MISSING := ClientError("no such bug", false)

  function Lookup(bugs: map<int, Bug>, id: int): (r: Option<Bug>)
    ensures r.Some? <==> id in bugs
    ensures r.Some? ==> r.value == bugs[id]
  {
    if id in bugs then Some(bugs[id]) else None
  }

  /** The bug map after storing a bug's new record; absent bugs stay absent. */
  function Store(bugs: map<int, Bug>, id: int, entry: Option<Bug>): map<int, Bug> {
    if entry.Some? then bugs[id := entry.value] else bugs
  }

  /** The GitHub service, read-only here: the labels of each pull request,
      or the error fetching them. */
  datatype GitHub = GitHub(issueLabels: Pr -> Fetch<seq<string>>)

  /** The outcome of parsing a release tag into its major.minor form. */
  datatype ParsedTag = MajorMinor(release: string) | ParseError(reason: string)

  /** Everything the verifier records as an error. NotOnQa only ever appears
      among a bug's reasons, never in the returned list. */
  datatype VerifyError =
    | TagParseError(tag: string, reason: string)
    | LinksError(bugId: int, cause: ClientError)
    | GetBugError(bugId: int, cause: ClientError)
    | TargetReleaseError(bugId: int, release: string)
    | LabelsError(pr: Pr, cause: ClientError)
    | NotOnQa
    | CommentsError(bugId: int, cause: ClientError)
    | CreateCommentError(bugId: int, cause: ClientError)
    | UpdateError(bugId: int, cause: ClientError)

  /** The text of each error, as the source formats it. The fixed parts are
      written in short pieces, which keeps the verifier's reasoning about
      their characters cheap. */
  function ErrorText(e: VerifyError): string {
    match e
    case TagParseError(tag, reason) => "failed to parse tag `" + tag + "` semver: " + reason
    case LinksError(id, cause) =>
      "Failed to get external " + "bugs for bugzilla bug " + IntToString(id) + ": " + cause.text
    case GetBugError(id, cause) => "Unable to get " + "bugzilla number " + IntToString(id) + ": " + cause.text
    case TargetReleaseError(id, release) =>
      "Bug " + IntToString(id) + ": length of " + "target release `" + release + "` after split " +
      "by `.` is less than 2"
    case LabelsError(p, cause) =>
      "Unable to get labels " + "for github pull " + p.org + "/" + p.repo + "#" + IntToString(p.prNum) +
      ": " + cause.text
    case NotOnQa => "Bug is not in " + "ON_QA status"
    case CommentsError(id, cause) => "Failed to get " + "comments on bug " + IntToString(id) + ": " + cause.text
    case CreateCommentError(id, cause) => "Failed to comment " + "on bug " + IntToString(id) + ": " + cause.text
    case UpdateError(id, cause) =>
      "Failed to update " + "status for bug " + IntToString(id) + ": " + cause.text
  }

}
