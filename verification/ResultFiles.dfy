/**
 Result files: in every run of the handlers what is listed can be fetched, and what is deleted is gone
 (api/internal/httpapi/handlers_internal.go:285-348, handlers_jobs.go:423-595).
 */
module ResultFiles {
  import opened Wrappers
  import opened JobTable
  import opened Protocol

  /** A result that belongs to a job and whose file is in the store, with its size where it is known. */
  predicate Listed(s: State, rid: ResultId)
    requires rid in s.results
  {
    var r := s.results[rid];
    r.job in s.rows && r.key.Output? && r.key in s.blobs && (r.size == s.blobs[r.key] || r.size == -1)
  }

  predicate AllListed(s: State) { forall rid :: rid in s.results ==> Listed(s, rid) }

  /** No two results share a file. */
  predicate FilesApart(s: State) {
    forall a, b :: a in s.results && b in s.results && a != b ==> s.results[a].key != s.results[b].key
  }

  predicate VideosAreInputs(s: State) { forall id :: id in s.rows ==> s.rows[id].inputKey.Input? }

  predicate ResultsOk(s: State) { AllListed(s) && FilesApart(s) && VideosAreInputs(s) }

  /** The step removes the result, its job or its user. */
  predicate Drops(s: State, a: Act, rid: ResultId)
    requires rid in s.results
  {
    match a
    case DeleteJob(id, _) => id in s.rows && s.results[rid].job == id
    case DeleteResult(id, rid', _) => rid' == rid && s.results[rid].job == id && id in s.rows
    case DeleteUser(owner, _) => s.results[rid].job in s.rows && s.rows[s.results[rid].job].owner == owner
    case _ => false
  }

  /** A result appears by a post of the job's owner that was stored and recorded. */
  predicate Adds(s: State, a: Act, rid: ResultId) {
    a.PostResult? && a.rid == rid && Owns(s, a.worker, a.id) && a.stored && a.recorded
  }

  lemma CleanupResults(s: State, refs: seq<JobId>, outcomes: seq<Outcome>, now: Time, k: Key)
    requires |outcomes| == |refs| && VideosAreInputs(s)
    ensures CleanupNext(s, refs, outcomes, now).results == s.results
    ensures k.Output? && k in s.blobs ==>
      k in CleanupNext(s, refs, outcomes, now).blobs && CleanupNext(s, refs, outcomes, now).blobs[k] == s.blobs[k]
    decreases |refs|
  {
    if refs != [] {
      var n := |refs| - 1;
      CleanupResults(s, refs[..n], outcomes[..n], now, k);
      CleanupRow(s, refs[..n], outcomes[..n], now, refs[n]);
    }
  }

  /** A result stays as it is unless it is dropped, and a new one is what was posted. */
  lemma ResultsChange(s: State, a: Act, now: Time, rid: ResultId)
    requires Possible(s, a) && ResultsOk(s)
    ensures
      var t := Next(s, a, now);
      && (rid in s.results ==> (rid in t.results <==> !Drops(s, a, rid)))
      && (rid in s.results && rid in t.results ==> t.results[rid] == s.results[rid])
      && (rid !in s.results ==> (rid in t.results <==> Adds(s, a, rid)))
      && (rid !in s.results && rid in t.results ==>
            t.results[rid] == Result(a.id, a.key, if a.sized then a.size else -1))
  {
    if a.Cleanup? {
      CleanupResults(s, a.refs, a.outcomes, now, Output(0));
    }
    assert rid in s.results ==> Listed(s, rid);
    hide CleanupNext, KeysOf, KeysOfUser, Candidates, Oldest;
  }

  /** The file of a result stays while the result does. */
  lemma FileStays(s: State, a: Act, now: Time, rid: ResultId)
    requires Possible(s, a) && ResultsOk(s) && rid in s.results && !Drops(s, a, rid)
    ensures
      var t, k := Next(s, a, now), s.results[rid].key;
      s.results[rid].job in t.rows && k in t.blobs && t.blobs[k] == s.blobs[k]
  {
    assert Listed(s, rid);
    match a {
      case Cleanup(refs, _, outcomes) =>
        CleanupResults(s, refs, outcomes, now, s.results[rid].key);
        CleanupRow(s, refs, outcomes, now, s.results[rid].job);
        hide CleanupNext;
      case DeleteJob(_, _) => hide CleanupNext;
      case DeleteResult(_, _, _) => hide CleanupNext;
      case DeleteUser(_, _) => hide CleanupNext;
      case _ => hide CleanupNext, KeysOf, KeysOfUser;
    }
  }

  lemma InputsStay(s: State, a: Act, now: Time)
    requires Possible(s, a) && VideosAreInputs(s)
    ensures VideosAreInputs(Next(s, a, now))
  {
    hide Next, Possible;
    forall id | id in Next(s, a, now).rows ensures Next(s, a, now).rows[id].inputKey.Input? {
      InputStays(s, a, now, id);
    }
  }

  lemma InputStays(s: State, a: Act, now: Time, id: JobId)
    requires Possible(s, a) && VideosAreInputs(s) && id in Next(s, a, now).rows
    ensures Next(s, a, now).rows[id].inputKey.Input?
  {
    if a.Cleanup? {
      CleanupRow(s, a.refs, a.outcomes, now, id);
    }
    hide CleanupNext, KeysOf, KeysOfUser, Candidates, Oldest;
  }

  /** What is posted is stored under a key of its own. */
  lemma NewFile(s: State, a: Act, now: Time, rid: ResultId)
    requires Possible(s, a) && ResultsOk(s) && rid !in s.results && rid in Next(s, a, now).results
    ensures Listed(Next(s, a, now), rid)
    ensures forall other :: other in s.results ==> s.results[other].key != Next(s, a, now).results[rid].key
  {
    ResultsChange(s, a, now, rid);
    forall other | other in s.results ensures s.results[other].key != a.key {
      assert Listed(s, other);
    }
  }

  lemma StepKeepsListed(s: State, a: Act, now: Time, rid: ResultId)
    requires Possible(s, a) && ResultsOk(s) && rid in Next(s, a, now).results
    ensures Listed(Next(s, a, now), rid)
  {
    hide Next, Possible;
    ResultsChange(s, a, now, rid);
    if rid in s.results {
      assert Listed(s, rid);
      FileStays(s, a, now, rid);
    } else {
      NewFile(s, a, now, rid);
    }
  }

  lemma StepKeepsApart(s: State, a: Act, now: Time)
    requires Possible(s, a) && ResultsOk(s)
    ensures FilesApart(Next(s, a, now))
  {
    hide Next, Possible, Listed, AllListed;
    var t := Next(s, a, now);
    forall x, y | x in t.results && y in t.results && x != y ensures t.results[x].key != t.results[y].key {
      ResultsChange(s, a, now, x);
      ResultsChange(s, a, now, y);
      if x !in s.results {
        NewFile(s, a, now, x);
      }
      if y !in s.results {
        NewFile(s, a, now, y);
      }
    }
  }

  lemma StepKeepsResults(s: State, a: Act, now: Time)
    requires Possible(s, a) && ResultsOk(s)
    ensures ResultsOk(Next(s, a, now))
  {
    hide Next, Possible, Listed;
    forall rid | rid in Next(s, a, now).results ensures Listed(Next(s, a, now), rid) {
      StepKeepsListed(s, a, now, rid);
    }
    StepKeepsApart(s, a, now);
    InputsStay(s, a, now);
  }

  // ------------------------------------------------------------------------ runs

  /**
   In every run, whatever fails part-way: each result that is listed belongs to a job that is there, and
   its file is in the store, a file of its own, with the size that is recorded where one is.
   */
  lemma {:induction false} ListedCanBeFetched(run: seq<Step>, n: nat)
    requires ValidRun(run) && n <= |run|
    ensures ResultsOk(StateAt(run, n))
    decreases n
  {
    hide Next, Possible, ResultsOk, StateAt;
    if n > 0 {
      ListedCanBeFetched(run, n - 1);
      StateAfter(run, n - 1);
      StepKeepsResults(StateAt(run, n - 1), run[n - 1].act, run[n - 1].now);
    } else {
      NothingListed(run);
    }
  }

  lemma NothingListed(run: seq<Step>)
    ensures ResultsOk(StateAt(run, 0))
  {
  }

  /** No step from m to n removes the result, its job or its user. */
  predicate NeverDropped(run: seq<Step>, m: nat, n: nat, rid: ResultId)
    requires n <= |run|
  {
    forall k :: m <= k < n && rid in StateAt(run, k).results ==> !Drops(StateAt(run, k), run[k].act, rid)
  }

  /** The result and its file are as they were. */
  predicate Same(s: State, t: State, rid: ResultId) {
    && rid in s.results && rid in t.results && t.results[rid] == s.results[rid]
    && s.results[rid].key in s.blobs && s.results[rid].key in t.blobs
    && t.blobs[s.results[rid].key] == s.blobs[s.results[rid].key]
  }

  lemma ResultThere(s: State, rid: ResultId)
    requires ResultsOk(s) && rid in s.results
    ensures Same(s, s, rid)
  {
    assert Listed(s, rid);
  }

  lemma ResultStep(s: State, a: Act, now: Time, rid: ResultId)
    requires ResultsOk(s) && Possible(s, a) && rid in s.results && !Drops(s, a, rid)
    ensures Same(s, Next(s, a, now), rid)
  {
    hide Next, Possible, Drops;
    ResultsChange(s, a, now, rid);
    FileStays(s, a, now, rid);
    assert Listed(s, rid);
  }

  lemma DropsNot(run: seq<Step>, m: nat, n: nat, rid: ResultId)
    requires m < n <= |run| && NeverDropped(run, m, n, rid) && rid in StateAt(run, n - 1).results
    ensures NeverDropped(run, m, n - 1, rid) && !Drops(StateAt(run, n - 1), run[n - 1].act, rid)
  {
    hide StateAt, Drops;
  }

  /** In every run a result that nobody deletes stays as it is, and so does its file. */
  lemma {:induction false} ResultLasts(run: seq<Step>, m: nat, n: nat, rid: ResultId)
    requires ValidRun(run) && m <= n <= |run| && rid in StateAt(run, m).results && NeverDropped(run, m, n, rid)
    ensures Same(StateAt(run, m), StateAt(run, n), rid)
    decreases n
  {
    hide Next, Possible, ResultsOk, Drops, StateAt;
    if m < n {
      ResultLasts(run, m, n - 1, rid);
      DropsNot(run, m, n, rid);
      StateAfter(run, n - 1);
      ListedCanBeFetched(run, n - 1);
      assert Possible(StateAt(run, n - 1), run[n - 1].act);
      hide NeverDropped;
      ResultStep(StateAt(run, n - 1), run[n - 1].act, run[n - 1].now, rid);
    } else {
      ListedCanBeFetched(run, m);
      ResultThere(StateAt(run, m), rid);
    }
  }

  // -------------------------------------------------------------------- deletions

  /** The step removes the job from the table. */
  predicate Removes(s: State, a: Act, id: JobId)
    requires id in s.rows
  {
    match a
    case DeleteJob(id', _) => id' == id
    case DeleteResult(id', rid, _) =>
      id' == id && rid in s.results && s.results[rid].job == id && LastResult(s, id, rid)
    case DeleteUser(owner, _) => s.rows[id].owner == owner
    case _ => false
  }

  /**
   A job leaves exactly when it is deleted, its last result is, or its user is; then no result of it is
   left, and its video and result files are gone from the store where deleting them worked.
   */
  lemma RemovedWhole(s: State, a: Act, now: Time, id: JobId)
    requires Possible(s, a) && ResultsOk(s) && id in s.rows
    ensures
      var t := Next(s, a, now);
      && (id !in t.rows <==> Removes(s, a, id))
      && (id !in t.rows ==>
            && ResultsOf(t, id) == {}
            && forall k :: k in KeysOf(s, id) && k in a.gone ==> k !in t.blobs)
  {
    if a.Cleanup? {
      CleanupRow(s, a.refs, a.outcomes, now, id);
    }
    hide CleanupNext, Candidates, Oldest;
    if Removes(s, a, id) {
      var t := Next(s, a, now);
      assert forall rid :: rid in t.results ==> t.results[rid].job != id;
    }
  }
}
