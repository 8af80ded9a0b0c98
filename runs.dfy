/** A whole run of the verifier over the bugs that have GitHub pull
    requests, taken in some order: each bug is processed on its own, so its
    writes and errors do not depend on the others, and a second run over
    unchanged state adds no comment the first one posted. */
module Runs {
  import opened Model
  import opened Tracker
  import opened Links
  import opened Policy
  import opened Outcomes

  /** The bug store after a run, the errors in the order recorded and the
      Bugzilla calls made. */
  datatype Run = Run(bugs: map<int, Bug>, errs: seq<VerifyError>, calls: seq<Call>)

  /** order lists every key once: an iteration order over a map. */
  predicate Enumerates(order: seq<int>, keys: set<int>) {
    && Distinct(order)
    && (forall i :: 0 <= i < |order| ==> order[i] in keys)
    && (forall k :: k in keys ==> k in order)
  }

  /** The bugs processed in the given order, each on the store as the
      earlier ones left it. */
  function RunAll(env: Env, prs: map<int, seq<Pr>>, bugs: map<int, Bug>, order: seq<int>): Run
    requires forall i :: 0 <= i < |order| ==> order[i] in prs
  {
    if order == [] then Run(bugs, [], [])
    else
      var r := RunAll(env, prs, bugs, order[..|order| - 1]);
      var id := order[|order| - 1];
      var s := VerifyOne(env, id, prs[id], Lookup(r.bugs, id));
      Run(Store(r.bugs, id, s.entry), r.errs + s.errs, r.calls + s.calls)
  }

  lemma RunAllStep(env: Env, prs: map<int, seq<Pr>>, bugs: map<int, Bug>, order: seq<int>, id: int)
    requires forall i :: 0 <= i < |order| ==> order[i] in prs
    requires id in prs
    ensures var r := RunAll(env, prs, bugs, order);
      var s := VerifyOne(env, id, prs[id], Lookup(r.bugs, id));
      RunAll(env, prs, bugs, order + [id]) == Run(Store(r.bugs, id, s.entry), r.errs + s.errs, r.calls + s.calls)
  {
    assert (order + [id])[..|order|] == order;
  }

  /** Each bug ends up as processing it alone on the initial store would
      leave it; bugs not processed are untouched. */
  lemma {:induction false} RunAllLocal(env: Env, prs: map<int, seq<Pr>>, bugs: map<int, Bug>, order: seq<int>, id: int)
    requires forall i :: 0 <= i < |order| ==> order[i] in prs
    requires Distinct(order)
    ensures Lookup(RunAll(env, prs, bugs, order).bugs, id) ==
      if id in order then VerifyOne(env, id, prs[id], Lookup(bugs, id)).entry else Lookup(bugs, id)
  {
    if order != [] {
      var init, last := order[..|order| - 1], order[|order| - 1];
      assert order == init + [last];
      RunAllLocal(env, prs, bugs, init, id);
      if id == last {
        assert id !in init;
        RecordFrame(env, id, prs[id], Lookup(bugs, id));
      }
    }
  }

  /** The errors of each bug processed alone on the initial store, in order. */
  function IsolatedErrs(env: Env, prs: map<int, seq<Pr>>, bugs: map<int, Bug>, order: seq<int>): seq<VerifyError>
    requires forall i :: 0 <= i < |order| ==> order[i] in prs
  {
    if order == [] then []
    else
      var id := order[|order| - 1];
      IsolatedErrs(env, prs, bugs, order[..|order| - 1]) + VerifyOne(env, id, prs[id], Lookup(bugs, id)).errs
  }

  /** A failure on one bug neither stops nor changes the processing of the
      others: the run's errors are each bug's own errors, in order. */
  lemma {:induction false} RunAllErrors(env: Env, prs: map<int, seq<Pr>>, bugs: map<int, Bug>, order: seq<int>)
    requires forall i :: 0 <= i < |order| ==> order[i] in prs
    requires Distinct(order)
    ensures RunAll(env, prs, bugs, order).errs == IsolatedErrs(env, prs, bugs, order)
  {
    if order != [] {
      var init, last := order[..|order| - 1], order[|order| - 1];
      assert order == init + [last];
      RunAllErrors(env, prs, bugs, init);
      RunAllLocal(env, prs, bugs, init, last);
    }
  }

  /** Two stores with the same bugs and the same external links. */
  predicate SameLinks(b1: map<int, Bug>, b2: map<int, Bug>) {
    && b1.Keys == b2.Keys
    && forall id :: id in b1 ==> b1[id].externalBugs == b2[id].externalBugs
  }

  /** Link resolution reads only which bugs exist and their links. */
  lemma {:induction false} ResolveLinksSameLinks(faults: map<Call, ClientError>, b1: map<int, Bug>, b2: map<int, Bug>, input: seq<int>)
    requires SameLinks(b1, b2)
    ensures ResolveLinks(faults, b1, input) == ResolveLinks(faults, b2, input)
  {
    if input != [] {
      var last := input[|input| - 1];
      ResolveLinksSameLinks(faults, b1, b2, input[..|input| - 1]);
      assert LinksFetch(faults, last, Lookup(b1, last)) == LinksFetch(faults, last, Lookup(b2, last));
    }
  }

  /** A run adds and removes no bug and changes no link. */
  lemma {:induction false} RunAllKeepsLinks(env: Env, prs: map<int, seq<Pr>>, bugs: map<int, Bug>, order: seq<int>)
    requires forall i :: 0 <= i < |order| ==> order[i] in prs
    ensures SameLinks(bugs, RunAll(env, prs, bugs, order).bugs)
  {
    if order != [] {
      var init, id := order[..|order| - 1], order[|order| - 1];
      var r := RunAll(env, prs, bugs, init);
      RunAllKeepsLinks(env, prs, bugs, init);
      RecordFrame(env, id, prs[id], Lookup(r.bugs, id));
    }
  }

  /** Running the verifier twice with the same inputs, with nothing else
      changing the bugs in between, adds at most one comment to any bug,
      whatever order each run takes the bugs in, provided the client posts
      under a robot identity. */
  lemma TwoRunsPostOnce(env: Env, bugs: map<int, Bug>, input: seq<int>, order1: seq<int>, order2: seq<int>, id: int)
    requires IsRobot(env.account)
    requires Enumerates(order1, ResolveLinks(env.faults, bugs, input).prs.Keys)
    requires var run1 := RunAll(env, ResolveLinks(env.faults, bugs, input).prs, bugs, order1);
      Enumerates(order2, ResolveLinks(env.faults, run1.bugs, input).prs.Keys)
    requires id in bugs
    ensures var links1 := ResolveLinks(env.faults, bugs, input);
      var run1 := RunAll(env, links1.prs, bugs, order1);
      var links2 := ResolveLinks(env.faults, run1.bugs, input);
      var run2 := RunAll(env, links2.prs, run1.bugs, order2);
      id in run2.bugs && |run2.bugs[id].comments| <= |bugs[id].comments| + 1
  {
    var links1 := ResolveLinks(env.faults, bugs, input);
    var run1 := RunAll(env, links1.prs, bugs, order1);
    RunAllKeepsLinks(env, links1.prs, bugs, order1);
    ResolveLinksSameLinks(env.faults, bugs, run1.bugs, input);
    var run2 := RunAll(env, links1.prs, run1.bugs, order2);
    RunAllKeepsLinks(env, links1.prs, run1.bugs, order2);
    RunAllLocal(env, links1.prs, bugs, order1, id);
    RunAllLocal(env, links1.prs, run1.bugs, order2, id);
    assert id in order1 <==> id in order2;
    if id in order1 {
      PostsAtMostOnce(env, id, links1.prs[id], Lookup(bugs, id));
    }
  }

  /** The number of status updates of bug id among calls. */
  function Updates(calls: seq<Call>, id: int): nat {
    if |calls| == 0 then 0
    else
      var last := calls[|calls| - 1];
      Updates(calls[..|calls| - 1], id) + (if last.UpdateBug? && last.id == id then 1 else 0)
  }

  lemma {:induction false} UpdatesConcat(a: seq<Call>, b: seq<Call>, id: int)
    ensures Updates(a + b, id) == Updates(a, id) + Updates(b, id)
  {
    if |b| > 0 {
      var init := b[..|b| - 1];
      assert (a + b)[..|a + b| - 1] == a + init;
      UpdatesConcat(a, init, id);
    } else {
      assert a + b == a;
    }
  }

  lemma {:induction false} UpdatesNone(calls: seq<Call>, id: int)
    requires forall i :: 0 <= i < |calls| && calls[i].UpdateBug? ==> calls[i].id != id
    ensures Updates(calls, id) == 0
  {
    if |calls| > 0 {
      UpdatesNone(calls[..|calls| - 1], id);
    }
  }

  /** A log whose only updates sit in its last place updates any bug at
      most once. */
  lemma UpdatesLastOnly(calls: seq<Call>, id: int)
    requires forall i :: 0 <= i < |calls| && calls[i].UpdateBug? ==> i == |calls| - 1
    ensures Updates(calls, id) <= 1
  {
    if |calls| > 0 {
      UpdatesNone(calls[..|calls| - 1], id);
    }
  }

  /** A run over distinct bugs updates each bug's status at most once, and
      never one it did not process. */
  lemma {:induction false} RunAllUpdatesOnce(env: Env, prs: map<int, seq<Pr>>, bugs: map<int, Bug>, order: seq<int>, id: int)
    requires forall i :: 0 <= i < |order| ==> order[i] in prs
    requires Distinct(order)
    ensures Updates(RunAll(env, prs, bugs, order).calls, id) <= if id in order then 1 else 0
  {
    if |order| > 0 {
      var init, last := order[..|order| - 1], order[|order| - 1];
      assert order == init + [last];
      var r := RunAll(env, prs, bugs, init);
      var s := VerifyOne(env, last, prs[last], Lookup(r.bugs, last));
      RunAllUpdatesOnce(env, prs, bugs, init, id);
      UpdatesConcat(r.calls, s.calls, id);
      if last == id {
        assert id !in init;
        UpdateOnlyOnSuccess(env, last, prs[last], Lookup(r.bugs, last));
        UpdatesLastOnly(s.calls, id);
      } else {
        VerifyOneCallsConcern(env, last, prs[last], Lookup(r.bugs, last));
        UpdatesNone(s.calls, id);
      }
    }
  }
}
