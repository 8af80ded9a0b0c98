/** Link resolution: from a list of bug IDs to the GitHub pull requests each
    bug links to (the source's getPRs). */
module Links {
  import opened Text
  import opened Model
  import opened Tracker

  function AsPr(link: ExternalBug): Pr {
    Pr(link.org, link.repo, link.num)
  }

  /** The pull requests among a bug's external links: only links to GitHub,
      in the order the links come. */
  function GitHubPRs(links: seq<ExternalBug>): seq<Pr> {
    if |links| == 0 then []
    else
      var last := links[|links| - 1];
      GitHubPRs(links[..|links| - 1]) + (if last.url == GITHUB_URL then [AsPr(last)] else [])
  }

  /** A pull request is listed exactly when some GitHub link names it. */
  lemma {:induction false} GitHubPRsMembers(links: seq<ExternalBug>, p: Pr)
    ensures p in GitHubPRs(links) <==>
      exists i :: 0 <= i < |links| && links[i].url == GITHUB_URL && AsPr(links[i]) == p
  {
    if links != [] {
      var init := links[..|links| - 1];
      GitHubPRsMembers(init, p);
      assert forall i :: 0 <= i < |init| ==> init[i] == links[i];
    }
  }

  /** The positions of a bug's links that point at GitHub. */
  ghost function GitHubIndices(links: seq<ExternalBug>): set<int> {
    set i | 0 <= i < |links| && links[i].url == GITHUB_URL
  }

  lemma GitHubIndicesSnoc(links: seq<ExternalBug>)
    requires |links| > 0
    ensures var n := |links|;
      GitHubIndices(links) ==
        GitHubIndices(links[..n - 1]) + (if links[n - 1].url == GITHUB_URL then {n - 1} else {})
  {
    var n := |links|;
    var init := links[..n - 1];
    assert forall i :: 0 <= i < n - 1 ==> init[i] == links[i];
  }

  /** One pull request per GitHub link, none for any other link. */
  lemma {:induction false} GitHubPRsLength(links: seq<ExternalBug>)
    ensures |GitHubPRs(links)| == |GitHubIndices(links)|
  {
    var n := |links|;
    if n > 0 {
      var init := links[..n - 1];
      GitHubPRsLength(init);
      GitHubIndicesSnoc(links);
      assert n - 1 !in GitHubIndices(init);
    }
  }

  /** The map after appending a bug's pull requests to its entry; a bug
      gains an entry only when it has at least one. */
  function AddPRs(m: map<int, seq<Pr>>, id: int, prs: seq<Pr>): map<int, seq<Pr>> {
    if prs == [] then m
    else m[id := (if id in m then m[id] else []) + prs]
  }

  lemma AddPRsSnoc(m: map<int, seq<Pr>>, id: int, prs: seq<Pr>, p: Pr)
    ensures var m' := AddPRs(m, id, prs);
      AddPRs(m, id, prs + [p]) == m'[id := (if id in m' then m'[id] else []) + [p]]
  {
    var existing := if id in m then m[id] else [];
    assert prs + [p] != [];
    if prs == [] {
      assert prs + [p] == [p];
    } else {
      assert existing + (prs + [p]) == (existing + prs) + [p];
    }
  }

  /** The pull requests a bug's link fetch yields (none when it fails). */
  function LinkedPRs(faults: map<Call, ClientError>, bugs: map<int, Bug>, id: int): seq<Pr> {
    match LinksFetch(faults, id, Lookup(bugs, id))
    case Got(links) => GitHubPRs(links)
    case Failed(_) => []
  }

  /** The failure a bug's link fetch reports, if it reports one: access
      denials are dropped. */
  predicate ReportsLinkError(faults: map<Call, ClientError>, bugs: map<int, Bug>, id: int, e: ClientError) {
    LinksFetch(faults, id, Lookup(bugs, id)) == Failed(e) && !e.accessDenied
  }

  /** The errors one link fetch adds: one for a failure that is not an
      access denial, none otherwise. */
  function LinkErrors(faults: map<Call, ClientError>, bugs: map<int, Bug>, id: int): seq<VerifyError> {
    match LinksFetch(faults, id, Lookup(bugs, id))
    case Failed(e) => if e.accessDenied then [] else [LinksError(id, e)]
    case Got(_) => []
  }

  datatype Resolution = Resolution(prs: map<int, seq<Pr>>, errs: seq<VerifyError>, calls: seq<Call>)

  /** One round of getPRs's loop: fetch a bug's links and record the result. */
  function ResolveOne(r: Resolution, faults: map<Call, ClientError>, bugs: map<int, Bug>, id: int): Resolution {
    Resolution(
      AddPRs(r.prs, id, LinkedPRs(faults, bugs, id)),
      r.errs + LinkErrors(faults, bugs, id),
      r.calls + [Call.GetExternalBugPRsOnBug(id)])
  }

  /** What getPRs computes for a list of bug IDs, processed in order. */
  function ResolveLinks(faults: map<Call, ClientError>, bugs: map<int, Bug>, input: seq<int>): Resolution {
    if input == [] then Resolution(map[], [], [])
    else ResolveOne(ResolveLinks(faults, bugs, input[..|input| - 1]), faults, bugs, input[|input| - 1])
  }

  /** No ID occurs twice. */
  predicate Distinct(ids: seq<int>) {
    forall i, j :: 0 <= i < j < |ids| ==> ids[i] != ids[j]
  }

  /** The number of times id occurs in input. */
  function Occurrences(input: seq<int>, id: int): nat {
    if input == [] then 0
    else Occurrences(input[..|input| - 1], id) + (if input[|input| - 1] == id then 1 else 0)
  }

  lemma {:induction false} OccurrencesNone(input: seq<int>, id: int)
    requires id !in input
    ensures Occurrences(input, id) == 0
  {
    if input != [] {
      var init := input[..|input| - 1];
      assert id !in init by {
        assert forall k :: 0 <= k < |init| ==> init[k] == input[k];
      }
      OccurrencesNone(init, id);
    }
  }

  /** A bug is in the map exactly when it was asked for and its links name
      at least one GitHub pull request. */
  lemma {:induction false} ResolveLinksKeys(faults: map<Call, ClientError>, bugs: map<int, Bug>, input: seq<int>, id: int)
    ensures id in ResolveLinks(faults, bugs, input).prs <==> id in input && LinkedPRs(faults, bugs, id) != []
  {
    if input != [] {
      var init := input[..|input| - 1];
      ResolveLinksKeys(faults, bugs, init, id);
      assert input == init + [input[|input| - 1]];
    }
  }

  /** k copies of s, one after another. */
  function Repeat<T>(s: seq<T>, k: nat): seq<T> {
    if k == 0 then [] else Repeat(s, k - 1) + s
  }

  /** A bug's list holds its GitHub pull requests, in link order, once for
      every time the bug was asked for. */
  lemma {:induction false} ResolveLinksValues(faults: map<Call, ClientError>, bugs: map<int, Bug>, input: seq<int>, id: int)
    requires id in ResolveLinks(faults, bugs, input).prs
    ensures ResolveLinks(faults, bugs, input).prs[id] == Repeat(LinkedPRs(faults, bugs, id), Occurrences(input, id))
  {
    var n := |input|;
    var init, last := input[..n - 1], input[n - 1];
    var before := ResolveLinks(faults, bugs, init).prs;
    var linked := LinkedPRs(faults, bugs, id);
    ResolveLinksKeys(faults, bugs, input, id);
    ResolveLinksKeys(faults, bugs, init, id);
    if last != id {
      ResolveLinksValues(faults, bugs, init, id);
    } else if id in before {
      ResolveLinksValues(faults, bugs, init, id);
    } else {
      assert id !in init;
      OccurrencesNone(init, id);
      assert [] + linked == linked;
    }
  }

  /** For input without repeats, a bug's list is exactly its GitHub pull
      requests in link order. */
  lemma {:induction false} ResolveLinksDistinct(faults: map<Call, ClientError>, bugs: map<int, Bug>, input: seq<int>, id: int)
    requires Distinct(input)
    requires id in ResolveLinks(faults, bugs, input).prs
    ensures ResolveLinks(faults, bugs, input).prs[id] == LinkedPRs(faults, bugs, id)
  {
    var linked := LinkedPRs(faults, bugs, id);
    ResolveLinksKeys(faults, bugs, input, id);
    OccurrencesOnce(input, id);
    ResolveLinksValues(faults, bugs, input, id);
    assert Repeat(linked, 1) == [] + linked;
    assert [] + linked == linked;
  }

  /** In input without repeats, an ID that occurs occurs once. */
  lemma {:induction false} OccurrencesOnce(input: seq<int>, id: int)
    requires Distinct(input)
    requires id in input
    ensures Occurrences(input, id) == 1
  {
    var n := |input|;
    var init := input[..n - 1];
    assert forall k :: 0 <= k < |init| ==> init[k] == input[k];
    if input[n - 1] == id {
      assert id !in init;
      OccurrencesNone(init, id);
    } else {
      assert input == init + [input[n - 1]];
      OccurrencesOnce(init, id);
    }
  }

  /** Every reported error is a link-fetch failure that is not an access
      denial, reported once for every time its bug was asked for. */
  lemma {:induction false} ResolveLinksErrors(faults: map<Call, ClientError>, bugs: map<int, Bug>, input: seq<int>, e: VerifyError)
    ensures multiset(ResolveLinks(faults, bugs, input).errs)[e] ==
      if e.LinksError? && ReportsLinkError(faults, bugs, e.bugId, e.cause) then Occurrences(input, e.bugId) else 0
  {
    if input != [] {
      var init, last := input[..|input| - 1], input[|input| - 1];
      ResolveLinksErrors(faults, bugs, init, e);
      var before := ResolveLinks(faults, bugs, init).errs;
      var added := LinkErrors(faults, bugs, last);
      assert multiset(before + added) == multiset(before) + multiset(added);
      assert multiset(added)[e] ==
        if e.LinksError? && e.bugId == last && ReportsLinkError(faults, bugs, last, e.cause) then 1 else 0;
    }
  }

  /** getPRs makes exactly one link fetch per requested ID, in order. */
  lemma {:induction false} ResolveLinksCalls(faults: map<Call, ClientError>, bugs: map<int, Bug>, input: seq<int>)
    ensures |ResolveLinks(faults, bugs, input).calls| == |input|
    ensures forall i :: 0 <= i < |input| ==>
      ResolveLinks(faults, bugs, input).calls[i] == Call.GetExternalBugPRsOnBug(input[i])
  {
    if input != [] {
      var init := input[..|input| - 1];
      ResolveLinksCalls(faults, bugs, init);
      var before := ResolveLinks(faults, bugs, init).calls;
      var calls := ResolveLinks(faults, bugs, input).calls;
      assert calls == before + [Call.GetExternalBugPRsOnBug(input[|input| - 1])];
      forall i | 0 <= i < |input|
        ensures calls[i] == Call.GetExternalBugPRsOnBug(input[i])
      {
        if i < |init| {
          assert calls[i] == before[i] && init[i] == input[i];
        }
      }
    }
  }

  lemma ResolveLinksPrefix(faults: map<Call, ClientError>, bugs: map<int, Bug>, input: seq<int>, i: nat)
    requires i < |input|
    ensures ResolveLinks(faults, bugs, input[..i + 1]) ==
      ResolveOne(ResolveLinks(faults, bugs, input[..i]), faults, bugs, input[i])
  {
    assert input[..i + 1][..i] == input[..i];
  }

  /** The inner loop of getPRs: appends to a bug's entry every link that
      points at GitHub, in order, creating the entry at the first one. */
  method AddGitHubPRs(start: map<int, seq<Pr>>, bzID: int, links: seq<ExternalBug>) returns (bzPRs: map<int, seq<Pr>>)
    ensures bzPRs == AddPRs(start, bzID, GitHubPRs(links))
  {
    bzPRs := start;
    for j := 0 to |links|
      invariant bzPRs == AddPRs(start, bzID, GitHubPRs(links[..j]))
    {
      var extBug := links[j];
      assert links[..j + 1][..j] == links[..j];
      ghost var found := GitHubPRs(links[..j]);
      assert GitHubPRs(links[..j + 1]) == found + (if extBug.url == GITHUB_URL then [AsPr(extBug)] else []);
      if extBug.url == GITHUB_URL {
        AddPRsSnoc(start, bzID, found, AsPr(extBug));
        if bzID in bzPRs {
          bzPRs := bzPRs[bzID := bzPRs[bzID] + [AsPr(extBug)]];
        } else {
          assert [] + [AsPr(extBug)] == [AsPr(extBug)];
          bzPRs := bzPRs[bzID := [AsPr(extBug)]];
        }
      } else {
        assert found + [] == found;
      }
    }
    assert links[..|links|] == links;
  }

  /** getPRs: fetches each bug's external links and keeps its GitHub pull
      requests, collecting every failure that is not an access denial. */
  method GetPRs(input: seq<int>, bz: BugzillaClient) returns (bzPRs: map<int, seq<Pr>>, errs: seq<VerifyError>)
    modifies bz`calls
    ensures var r := ResolveLinks(bz.faults, bz.bugs, input);
      bzPRs == r.prs && errs == r.errs && bz.calls == old(bz.calls) + r.calls
  {
    bzPRs, errs := map[], [];
    for i := 0 to |input|
      invariant var r := ResolveLinks(bz.faults, bz.bugs, input[..i]);
        bzPRs == r.prs && errs == r.errs && bz.calls == old(bz.calls) + r.calls
    {
      var bzID := input[i];
      ResolveLinksPrefix(bz.faults, bz.bugs, input, i);
      ghost var before := ResolveLinks(bz.faults, bz.bugs, input[..i]);
      var extBugs := bz.GetExternalBugPRsOnBug(bzID);
      if extBugs.Failed? {
        if !extBugs.err.accessDenied {
          errs := errs + [LinksError(bzID, extBugs.err)];
        }
      } else {
        bzPRs := AddGitHubPRs(bzPRs, bzID, extBugs.value);
      }
      ConcatAssoc(old(bz.calls), before.calls, [Call.GetExternalBugPRsOnBug(bzID)]);
    }
    assert input[..|input|] == input;
  }
}
