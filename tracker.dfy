/** The Bugzilla client as the verifier sees it: a store of bugs that the
    verifier reads and writes, the failures injected per call, and a log of
    every call made. */
module Tracker {
  import opened Model

  class BugzillaClient {
    /** The bugs on the server, by ID. */
    var bugs: map<int, Bug>
    /** Calls that fail, with the error they fail with. */
    const faults: map<Call, ClientError>
    /** The account the client is logged in as; comments it posts carry it. */
    const account: string
    /** Every call made on this client, in order. */
    ghost var calls: seq<Call>

    constructor (bugs: map<int, Bug>, faults: map<Call, ClientError>, account: string)
      ensures this.bugs == bugs && this.faults == faults && this.account == account
      ensures calls == []
    {
      this.bugs := bugs;
      this.faults := faults;
      this.account := account;
      calls := [];
    }

    method GetBug(id: int) returns (r: Fetch<Bug>)
      modifies this`calls
      ensures calls == old(calls) + [Call.GetBug(id)]
      ensures r == BugFetch(faults, id, Lookup(bugs, id))
    {
      calls := calls + [Call.GetBug(id)];
      if Call.GetBug(id) in faults {
        r := Failed(faults[Call.GetBug(id)]);
      } else if id !in bugs {
        r := Failed(MISSING);
      } else {
        r := Got(bugs[id]);
      }
    }

    method GetExternalBugPRsOnBug(id: int) returns (r: Fetch<seq<ExternalBug>>)
      modifies this`calls
      ensures calls == old(calls) + [Call.GetExternalBugPRsOnBug(id)]
      ensures r == LinksFetch(faults, id, Lookup(bugs, id))
    {
      calls := calls + [Call.GetExternalBugPRsOnBug(id)];
      if Call.GetExternalBugPRsOnBug(id) in faults {
        r := Failed(faults[Call.GetExternalBugPRsOnBug(id)]);
      } else if id !in bugs {
        r := Failed(MISSING);
      } else {
        r := Got(bugs[id].externalBugs);
      }
    }

    method GetComments(id: int) returns (r: Fetch<seq<Comment>>)
      modifies this`calls
      ensures calls == old(calls) + [Call.GetComments(id)]
      ensures r == CommentsFetch(faults, id, Lookup(bugs, id))
    {
      calls := calls + [Call.GetComments(id)];
      if Call.GetComments(id) in faults {
        r := Failed(faults[Call.GetComments(id)]);
      } else if id !in bugs {
        r := Failed(MISSING);
      } else {
        r := Got(bugs[id].comments);
      }
    }

    /** Appends a comment by this client's account, unless the call fails. */
    method CreateComment(id: int, text: string, isPrivate: bool) returns (err: Option<ClientError>)
      modifies this
      ensures calls == old(calls) + [Call.CreateComment(id, text, isPrivate)]
      ensures err == CallError(faults, Lookup(old(bugs), id), Call.CreateComment(id, text, isPrivate))
      ensures err.Some? ==> bugs == old(bugs)
      ensures err.None? ==>
        id in old(bugs) &&
        bugs == old(bugs)[id := old(bugs)[id].(comments := old(bugs)[id].comments + [Comment(text, account, isPrivate)])]
    {
      var c := Call.CreateComment(id, text, isPrivate);
      calls := calls + [c];
      err := CallError(faults, Lookup(bugs, id), c);
      if err.None? {
        bugs := bugs[id := bugs[id].(comments := bugs[id].comments + [Comment(text, account, isPrivate)])];
      }
    }

    /** Sets the status of a bug, unless the call fails. */
    method UpdateBug(id: int, status: string) returns (err: Option<ClientError>)
      modifies this
      ensures calls == old(calls) + [Call.UpdateBug(id, status)]
      ensures err == CallError(faults, Lookup(old(bugs), id), Call.UpdateBug(id, status))
      ensures err.Some? ==> bugs == old(bugs)
      ensures err.None? ==> id in old(bugs) && bugs == old(bugs)[id := old(bugs)[id].(status := status)]
    {
      var c := Call.UpdateBug(id, status);
      calls := calls + [c];
      err := CallError(faults, Lookup(bugs, id), c);
      if err.None? {
        bugs := bugs[id := bugs[id].(status := status)];
      }
    }
  }

  /** What GetBug returns for a bug with the given record (or none). */
  function BugFetch(faults: map<Call, ClientError>, id: int, entry: Option<Bug>): (r: Fetch<Bug>)
    ensures r.Got? <==> CallError(faults, entry, Call.GetBug(id)).None?
    ensures r.Got? ==> entry == Some(r.value)
  {
    match CallError(faults, entry, Call.GetBug(id))
    case Some(e) => Failed(e)
    case None => Got(entry.value)
  }

  function LinksFetch(faults: map<Call, ClientError>, id: int, entry: Option<Bug>): (r: Fetch<seq<ExternalBug>>)
    ensures r.Got? <==> CallError(faults, entry, Call.GetExternalBugPRsOnBug(id)).None?
    ensures r.Got? ==> entry.Some? && r.value == entry.value.externalBugs
  {
    match CallError(faults, entry, Call.GetExternalBugPRsOnBug(id))
    case Some(e) => Failed(e)
    case None => Got(entry.value.externalBugs)
  }

  function CommentsFetch(faults: map<Call, ClientError>, id: int, entry: Option<Bug>): (r: Fetch<seq<Comment>>)
    ensures r.Got? <==> CallError(faults, entry, Call.GetComments(id)).None?
    ensures r.Got? ==> entry.Some? && r.value == entry.value.comments
  {
    match CallError(faults, entry, Call.GetComments(id))
    case Some(e) => Failed(e)
    case None => Got(entry.value.comments)
  }
}
