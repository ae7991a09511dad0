/**
 Source videos: in every run of the handlers a job that may still be extracted has its
 video, whatever fails part-way through a cleanup (api/internal/httpapi/cleaner.go:126-157,
 handlers_jobs.go:508-599).
 */
module Blobs {
  import opened Wrappers
  import opened JobTable
  import opened Protocol

  /** No two jobs share a video, and results are stored apart from videos. */
  predicate KeysApart(s: State) {
    && (forall id :: id in s.rows ==> s.rows[id].inputKey.Input?)
    && (forall a, b :: a in s.rows && b in s.rows && a != b ==> s.rows[a].inputKey != s.rows[b].inputKey)
    && (forall rid :: rid in s.results ==> s.results[rid].key.Output?)
  }

  /** The video of every active job is in the store. */
  predicate VideosKept(s: State) { forall id :: id in s.rows && Active(s.rows[id]) ==> s.rows[id].inputKey in s.blobs }

  /** No active job is marked as having lost its video. */
  predicate NoneMarked(s: State) { forall id :: id in s.rows && Active(s.rows[id]) ==> s.rows[id].videoDeletedAt.None? }

  /** Stat fails only when the blob is missing. */
  predicate HonestStat(s: State, a: Act) {
    a.RerunJob? && a.id in s.rows && s.rows[a.id].inputKey in s.blobs ==> a.statOk
  }

  predicate HonestRun(run: seq<Step>) { forall i :: 0 <= i < |run| ==> HonestStat(StateAt(run, i), run[i].act) }

  // ------------------------------------------------------- what a step can remove

  /** A job whose video a step may delete or mark: finished, or leaving the table. */
  predicate GivenUp(s: State, a: Act, id: JobId) {
    match a
    case DeleteVideo(id', _) => id' == id && id in s.rows && !Active(s.rows[id])
    case DeleteJob(id', _) => id' == id
    case DeleteResult(id', rid, _) =>
      id' == id && LastResult(s, id, rid) && rid in s.results && s.results[rid].job == id
    case DeleteUser(owner, _) => id in JobsOf(s, owner)
    case Cleanup(refs, _, _) => id in refs
    case _ => false
  }

  lemma {:induction false} CleanupBlobs(s: State, refs: seq<JobId>, outcomes: seq<Outcome>, now: Time)
    requires |outcomes| == |refs| && forall i :: 0 <= i < |refs| ==> refs[i] in s.rows
    ensures
      var t := CleanupNext(s, refs, outcomes, now);
      && t.results == s.results
      && (forall k :: k in t.blobs ==> k in s.blobs && t.blobs[k] == s.blobs[k])
      && (forall k :: k in s.blobs && k !in t.blobs ==>
            exists i :: 0 <= i < |refs| && s.rows[refs[i]].inputKey == k && outcomes[i].gone)
      && (forall i :: 0 <= i < |refs| && outcomes[i].gone ==> s.rows[refs[i]].inputKey !in t.blobs)
  {
    if refs != [] {
      var n := |refs| - 1;
      var mid := CleanupNext(s, refs[..n], outcomes[..n], now);
      CleanupBlobs(s, refs[..n], outcomes[..n], now);
      assert forall i :: 0 <= i < n ==> refs[..n][i] == refs[i] && outcomes[..n][i] == outcomes[i];
      assert refs[n] in s.rows;
      CleanupRow(s, refs[..n], outcomes[..n], now, refs[n]);
      var t := CleanupNext(s, refs, outcomes, now);
      forall k | k in s.blobs && k !in t.blobs
        ensures exists i :: 0 <= i < |refs| && s.rows[refs[i]].inputKey == k && outcomes[i].gone
      {
        if k in mid.blobs {
          assert s.rows[refs[n]].inputKey == k && outcomes[n].gone;
        }
      }
    }
  }

  /** A step removes the video of another job only when it gives that job up. */
  lemma OnlyGivenUpRemoved(s: State, a: Act, now: Time, id: JobId)
    requires Possible(s, a) && KeysApart(s)
    requires id in s.rows && s.rows[id].inputKey in s.blobs && !GivenUp(s, a, id)
    ensures s.rows[id].inputKey in Next(s, a, now).blobs
  {
    if a.Cleanup? {
      CleanupBlobs(s, a.refs, a.outcomes, now);
    }
  }

  lemma VideoKeyKept(s: State, a: Act, now: Time, id: JobId)
    requires Possible(s, a) && id in s.rows && id in Next(s, a, now).rows
    ensures Next(s, a, now).rows[id].inputKey == s.rows[id].inputKey
    ensures GivenUp(s, a, id) ==> !Active(s.rows[id]) && !Active(Next(s, a, now).rows[id])
  {
    if a.Cleanup? {
      CleanupRow(s, a.refs, a.outcomes, now, id);
      if id in a.refs {
        var i :| 0 <= i < |a.refs| && a.refs[i] == id;
        assert CleanupCandidate(s.rows[id], a.cutoff);
      }
    }
  }

  /** A job becomes active only by a start, and a start finds the video. */
  lemma StartHasVideo(s: State, a: Act, now: Time, id: JobId)
    requires Possible(s, a) && Starts(s, a, id)
    ensures id in Next(s, a, now).rows && Next(s, a, now).rows[id].inputKey in Next(s, a, now).blobs
    ensures Next(s, a, now).rows[id].videoDeletedAt.None?
  {
  }

  lemma ActiveFromActive(s: State, a: Act, now: Time, id: JobId)
    requires Possible(s, a) && id in Next(s, a, now).rows && Active(Next(s, a, now).rows[id]) && !Starts(s, a, id)
    ensures id in s.rows && Active(s.rows[id])
  {
    hide Next, Possible;
    if id in s.rows {
      RowCases(s, a, now, id);
      ClaimTakesQueued(s, a, id);
    } else {
      NewJob(s, a, now, id);
    }
  }

  // ---------------------------------------------------------------- preservation

  lemma KeysStayApart(s: State, a: Act, now: Time)
    requires Possible(s, a) && KeysApart(s)
    ensures KeysApart(Next(s, a, now))
  {
    var t := Next(s, a, now);
    forall id | id in t.rows
      ensures
        if id in s.rows then t.rows[id].inputKey == s.rows[id].inputKey
        else a.PostJob? && a.id == id && t.rows[id].inputKey == a.key
    {
      if id in s.rows {
        VideoKeyKept(s, a, now, id);
      } else {
        NewJob(s, a, now, id);
      }
    }
    ResultKeys(s, a, now);
    hide Next;
  }

  lemma ResultKeys(s: State, a: Act, now: Time)
    requires Possible(s, a) && KeysApart(s)
    ensures forall rid :: rid in Next(s, a, now).results ==> Next(s, a, now).results[rid].key.Output?
  {
    if a.Cleanup? {
      CleanupBlobs(s, a.refs, a.outcomes, now);
    }
  }

  lemma VideosStay(s: State, a: Act, now: Time)
    requires Possible(s, a) && KeysApart(s) && VideosKept(s)
    ensures VideosKept(Next(s, a, now))
  {
    hide Next, Possible;
    var t := Next(s, a, now);
    forall id | id in t.rows && Active(t.rows[id]) ensures t.rows[id].inputKey in t.blobs {
      if Starts(s, a, id) {
        StartHasVideo(s, a, now, id);
      } else {
        ActiveFromActive(s, a, now, id);
        VideoKeyKept(s, a, now, id);
        OnlyGivenUpRemoved(s, a, now, id);
      }
    }
  }

  /** A re-run request on an active job whose Stat fails and whose mark statement works. */
  predicate MarksActive(s: State, a: Act) {
    a.RerunJob? && a.id in s.rows && Active(s.rows[a.id]) && !a.statOk && a.marked
  }

  /** A mark is set only on a job given up, or by a re-run that could not find the video. */
  lemma MarkCases(s: State, a: Act, now: Time, id: JobId)
    requires Possible(s, a) && id in s.rows && id in Next(s, a, now).rows && s.rows[id].videoDeletedAt.None?
    ensures || Next(s, a, now).rows[id].videoDeletedAt.None? || GivenUp(s, a, id)
            || (a.RerunJob? && a.id == id && !a.statOk && a.marked)
  {
    if a.Cleanup? {
      CleanupRow(s, a.refs, a.outcomes, now, id);
    }
  }

  lemma MarkedStays(s: State, a: Act, now: Time)
    requires MarksActive(s, a)
    ensures
      var t := Next(s, a, now);
      a.id in t.rows && Active(t.rows[a.id]) && t.rows[a.id].videoDeletedAt.Some?
  {
  }

  /** One step marks an active job if and only if it is such a request. */
  lemma MarksStayOffIff(s: State, a: Act, now: Time)
    requires Possible(s, a) && NoneMarked(s)
    ensures NoneMarked(Next(s, a, now)) <==> !MarksActive(s, a)
  {
    hide Next, Possible;
    var t := Next(s, a, now);
    if MarksActive(s, a) {
      MarkedStays(s, a, now);
    } else {
      forall id | id in t.rows && Active(t.rows[id]) ensures t.rows[id].videoDeletedAt.None? {
        if Starts(s, a, id) {
          StartHasVideo(s, a, now, id);
        } else {
          ActiveFromActive(s, a, now, id);
          VideoKeyKept(s, a, now, id);
          MarkCases(s, a, now, id);
        }
      }
    }
  }

  // -------------------------------------------------------------------- over runs

  /** In every run, with any blob delete and any mark statement failing, active jobs keep their videos. */
  lemma {:induction false} ActiveJobsKeepVideos(run: seq<Step>, n: nat)
    requires ValidRun(run) && n <= |run|
    ensures KeysApart(StateAt(run, n)) && VideosKept(StateAt(run, n))
    decreases n
  {
    hide Next, Possible;
    if n > 0 {
      ActiveJobsKeepVideos(run, n - 1);
      KeysStayApart(StateAt(run, n - 1), run[n - 1].act, run[n - 1].now);
      VideosStay(StateAt(run, n - 1), run[n - 1].act, run[n - 1].now);
    }
  }

  /**
   In every run: no active job was ever marked if and only if no step so far was a re-run request
   on an active job whose Stat failed and whose mark statement worked.
   */
  lemma {:induction false} NeverMarkedIff(run: seq<Step>, n: nat)
    requires ValidRun(run) && n <= |run|
    ensures (forall k :: 0 <= k <= n ==> NoneMarked(StateAt(run, k)))
         <==> (forall i :: 0 <= i < n ==> !MarksActive(StateAt(run, i), run[i].act))
    decreases n
  {
    hide Next, Possible, NoneMarked, MarksActive, StateAt;
    NoneMarkedAtFirst(run);
    if n > 0 {
      NeverMarkedIff(run, n - 1);
      if NoneMarked(StateAt(run, n - 1)) {
        MarkedNext(run, n - 1);
      }
    }
  }

  lemma MarkedNext(run: seq<Step>, i: nat)
    requires ValidRun(run) && i < |run| && NoneMarked(StateAt(run, i))
    ensures NoneMarked(StateAt(run, i + 1)) <==> !MarksActive(StateAt(run, i), run[i].act)
  {
    hide Next, Possible, NoneMarked, MarksActive;
    MarksStayOffIff(StateAt(run, i), run[i].act, run[i].now);
  }

  lemma NoneMarkedAtFirst(run: seq<Step>)
    ensures NoneMarked(StateAt(run, 0))
  {
  }

  /** In every run in which Stat fails only for missing blobs, no active job is marked. */
  lemma ActiveJobsNotMarked(run: seq<Step>, n: nat)
    requires ValidRun(run) && HonestRun(run) && n <= |run|
    ensures NoneMarked(StateAt(run, n))
  {
    hide Next, Possible, NoneMarked;
    forall i | 0 <= i < n ensures !MarksActive(StateAt(run, i), run[i].act) {
      ActiveJobsKeepVideos(run, i);
      assert HonestStat(StateAt(run, i), run[i].act);
    }
    NeverMarkedIff(run, n);
  }

  /**
   Stat has to be honest: a re-run request on an active job whose Stat fails for another
   reason marks the job, although its video is there and it is still to be extracted.
   */
  lemma FailedStatMarksActiveJob(s: State, id: JobId, now: Time)
    requires id in s.rows && Active(s.rows[id]) && s.rows[id].videoDeletedAt.None?
    ensures Possible(s, RerunJob(id, false, true)) && !NoneMarked(Next(s, RerunJob(id, false, true), now))
    ensures HonestStat(s, RerunJob(id, false, true)) <==> s.rows[id].inputKey !in s.blobs
  {
    var t := Next(s, RerunJob(id, false, true), now);
    assert id in t.rows && Active(t.rows[id]) && t.rows[id].videoDeletedAt.Some?;
  }

  // ---------------------------------------------------------------------- cleanup

  /**
   One cleanup run: a video is marked exactly when its delete and its mark succeeded, a marked
   video is gone from the store, a blob that went was an old video of a finished job, and
   nothing else changes.
   */
  lemma CleanupResult(s: State, refs: seq<JobId>, cutoff: Time, outcomes: seq<Outcome>, now: Time)
    requires Possible(s, Cleanup(refs, cutoff, outcomes)) && KeysApart(s)
    ensures
      var t := Next(s, Cleanup(refs, cutoff, outcomes), now);
      && t.rows.Keys == s.rows.Keys && t.results == s.results
      && (forall i :: 0 <= i < |refs| ==>
            && t.rows[refs[i]] ==
              s.rows[refs[i]].(videoDeletedAt := if outcomes[i].deleted && outcomes[i].marked then Some(now) else None)
            && (t.rows[refs[i]].videoDeletedAt.Some? ==> s.rows[refs[i]].inputKey !in t.blobs))
      && (forall id :: id in s.rows && id !in refs ==> t.rows[id] == s.rows[id])
      && (forall k :: k in s.blobs && k !in t.blobs ==>
            exists id :: id in s.rows && s.rows[id].inputKey == k && CleanupCandidate(s.rows[id], cutoff))
      && (forall k :: k in t.blobs ==> k in s.blobs && t.blobs[k] == s.blobs[k])
  {
    var t := Next(s, Cleanup(refs, cutoff, outcomes), now);
    CleanupBlobs(s, refs, outcomes, now);
    forall id ensures id in t.rows <==> id in s.rows {
      CleanupRow(s, refs, outcomes, now, id);
    }
    forall i | 0 <= i < |refs|
      ensures t.rows[refs[i]] ==
          s.rows[refs[i]].(videoDeletedAt := if outcomes[i].deleted && outcomes[i].marked then Some(now) else None)
    {
      CleanupMarks(s, refs, outcomes, now, i);
    }
    forall id | id in s.rows && id !in refs ensures t.rows[id] == s.rows[id] {
      CleanupRow(s, refs, outcomes, now, id);
    }
    forall k | k in s.blobs && k !in t.blobs
      ensures exists id :: id in s.rows && s.rows[id].inputKey == k && CleanupCandidate(s.rows[id], cutoff)
    {
      var i :| 0 <= i < |refs| && s.rows[refs[i]].inputKey == k && outcomes[i].gone;
      assert refs[i] in s.rows && CleanupCandidate(s.rows[refs[i]], cutoff);
    }
    hide Next, CleanupNext;
  }

  lemma {:induction false} CleanupMarks(s: State, refs: seq<JobId>, outcomes: seq<Outcome>, now: Time, i: nat)
    requires |outcomes| == |refs| && i < |refs|
    requires forall a, b :: 0 <= a < b < |refs| ==> refs[a] != refs[b]
    requires refs[i] in s.rows && s.rows[refs[i]].videoDeletedAt.None?
    ensures refs[i] in CleanupNext(s, refs, outcomes, now).rows
    ensures CleanupNext(s, refs, outcomes, now).rows[refs[i]]
         == s.rows[refs[i]].(videoDeletedAt := if outcomes[i].deleted && outcomes[i].marked then Some(now) else None)
    decreases |refs|
  {
    var n := |refs| - 1;
    assert forall a :: 0 <= a < n ==> refs[..n][a] == refs[a] && outcomes[..n][a] == outcomes[a];
    if i < n {
      CleanupMarks(s, refs[..n], outcomes[..n], now, i);
      assert refs[n] != refs[i];
    } else {
      assert forall a :: 0 <= a < n ==> refs[a] != refs[n];
      CleanupRow(s, refs[..n], outcomes[..n], now, refs[i]);
    }
  }
}
