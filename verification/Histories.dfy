/**
 What a row says about its past (api/internal/jobs/jobs.go, in every run of handlers): attempts, times,
 progress and message of a job are those of the steps since it was last started. And what the queue and
 the retention cleanup owe to rows: who is offered a job, and when a video is old enough to go.
 */
module Histories {
  import opened Wrappers
  import opened JobTable
  import opened Protocol
  import opened Blobs

  // ---------------------------------------------------------------------- events

  /** What can happen to a job within a run of its extraction. */
  datatype Event = Claiming | Reporting | Finishing

  /** The job is claimed, its owner's progress is accepted, or it goes from an active to a final status. */
  predicate Happens(s: State, a: Act, now: Time, e: Event, id: JobId) {
    match e
    case Claiming => a.ClaimJob? && a.taken == Some(id)
    case Reporting => a.PostProgress? && a.id == id && Owns(s, a.worker, id)
    case Finishing => Ends(s, Next(s, a, now), id)
  }

  /** The message a job ends with: the worker's if it reports a failure in words, or that of a time-out. */
  function FinalMessage(a: Act): Option<string> {
    if a.PostComplete? && !a.success && a.msg != "" then Some(a.msg)
    else if a.Requeue? then Some("worker timed out") else None
  }

  /** The status a job ends with. */
  function FinalStatus(a: Act): Status {
    if a.PostComplete? && a.success then Succeeded else if a.CancelJob? then Canceled else Failed
  }

  /** What never changes about a job. */
  predicate SameUpload(j: Job, k: Job) {
    && k.owner == j.owner && k.workerClass == j.workerClass && k.createdAt == j.createdAt
    && k.inputKey == j.inputKey && k.inputSize == j.inputSize
  }

  /**
   The row changes by what happened to the job, and not else: a claim counts and is dated, a report is
   shown, an ending is dated and leaves its message.
   */
  predicate Follows(a: Act, now: Time, j: Job, k: Job, claimed: bool, reported: bool, ended: bool)
    requires reported ==> a.PostProgress?
  {
    && SameUpload(j, k)
    && k.attempt == j.attempt + One(claimed)
    && k.claimedAt == (if claimed then Some(now) else j.claimedAt)
    && k.startedAt == (if claimed && j.startedAt.None? then Some(now) else j.startedAt)
    && k.progressStage == (if reported then Some(a.stage) else j.progressStage)
    && (k.status != Succeeded ==>
          j.status != Succeeded && k.progressPct == if reported then a.pct else j.progressPct)
    && k.finishedAt == (if ended then Some(now) else j.finishedAt)
    && k.errorMessage == (if ended then FinalMessage(a) else j.errorMessage)
    && (Finished(k) ==> k.status == if ended then FinalStatus(a) else j.status)
    && (ended ==> Finished(k)) && (Finished(j) ==> Finished(k))
  }

  predicate FollowsStep(s: State, a: Act, now: Time, id: JobId, k: Job)
    requires id in s.rows
  {
    Follows(a, now, s.rows[id], k, Happens(s, a, now, Claiming, id), Happens(s, a, now, Reporting, id),
      !Finished(s.rows[id]) && Finished(k))
  }

  lemma ReportFollows(s: State, a: Act, now: Time, id: JobId)
    requires id in s.rows && RowOk(s.rows[id]) && id in Next(s, a, now).rows && a.PostProgress?
    ensures FollowsStep(s, a, now, id, Next(s, a, now).rows[id])
  {
  }

  lemma SignFollows(s: State, a: Act, now: Time, id: JobId)
    requires id in s.rows && id in Next(s, a, now).rows && (a.PostHeartbeat? || a.PostResult?)
    ensures FollowsStep(s, a, now, id, Next(s, a, now).rows[id])
  {
  }

  lemma CompleteFollows(s: State, a: Act, now: Time, id: JobId)
    requires id in s.rows && RowOk(s.rows[id]) && id in Next(s, a, now).rows && a.PostComplete?
    ensures FollowsStep(s, a, now, id, Next(s, a, now).rows[id])
  {
  }

  lemma ClaimFollows(s: State, a: Act, now: Time, id: JobId)
    requires id in s.rows && RowOk(s.rows[id]) && Possible(s, a) && a.ClaimJob? && id in Next(s, a, now).rows
    ensures FollowsStep(s, a, now, id, Next(s, a, now).rows[id])
  {
  }

  lemma CleanupFollows(s: State, a: Act, now: Time, id: JobId)
    requires id in s.rows && Possible(s, a) && a.Cleanup? && id in Next(s, a, now).rows
    ensures FollowsStep(s, a, now, id, Next(s, a, now).rows[id])
  {
    CleanupRow(s, a.refs, a.outcomes, now, id);
    hide CleanupNext, Candidates;
  }

  lemma UserFollows(s: State, a: Act, now: Time, id: JobId)
    requires id in s.rows && RowOk(s.rows[id]) && Possible(s, a) && !Starts(s, a, id) && id in Next(s, a, now).rows
    requires !IsPost(a) && !a.ClaimJob? && !a.Cleanup?
    ensures FollowsStep(s, a, now, id, Next(s, a, now).rows[id])
  {
    hide KeysOf, JobsOf, KeysOfUser, WithoutResultsOf, Candidates, NewRow, RerunRow, LastResult;
  }

  /** A step that does not start the job changes in its row what its events say, and nothing else. */
  lemma RowFollows(s: State, a: Act, now: Time, id: JobId)
    requires TableOk(s.rows) && Possible(s, a) && !Starts(s, a, id) && id in Next(s, a, now).rows
    ensures id in s.rows
    ensures Follows(a, now, s.rows[id], Next(s, a, now).rows[id],
              Happens(s, a, now, Claiming, id), Happens(s, a, now, Reporting, id), Happens(s, a, now, Finishing, id))
  {
    if id !in s.rows {
      NewJob(s, a, now, id);
    }
    assert RowOk(s.rows[id]);
    if a.PostComplete? {
      CompleteFollows(s, a, now, id);
    } else if a.PostProgress? {
      ReportFollows(s, a, now, id);
    } else if IsPost(a) {
      SignFollows(s, a, now, id);
    } else if a.ClaimJob? {
      ClaimFollows(s, a, now, id);
    } else if a.Cleanup? {
      CleanupFollows(s, a, now, id);
    } else {
      UserFollows(s, a, now, id);
    }
    hide Next, Possible, Follows, RowOk, Starts;
  }

  /** A start leaves a row without a past; a re-run keeps the upload. */
  lemma StartRow(s: State, a: Act, now: Time, id: JobId)
    requires Possible(s, a) && Starts(s, a, id)
    ensures id in Next(s, a, now).rows
    ensures
      var k := Next(s, a, now).rows[id];
      && k.status == Queued && k.attempt == 0 && k.progressPct == 0 && k.progressStage == None
      && k.claimedBy == None && k.claimedAt == None && k.lastHeartbeat == None && k.errorMessage == None
      && k.startedAt == None && k.finishedAt == None && k.videoDeletedAt == None
      && (a.PostJob? ==> k.owner == a.owner && k.inputKey == a.key && k.inputSize == a.size && k.createdAt == now)
      && (a.RerunJob? ==> id in s.rows && SameUpload(s.rows[id], k))
  {
  }

  // ------------------------------------------------------------------------ runs

  predicate HappensAt(run: seq<Step>, k: nat, e: Event, id: JobId)
    requires k < |run|
  {
    Happens(StateAt(run, k), run[k].act, run[k].now, e, id)
  }

  /** Step k is the last of these between m and n; there is none if k is none. */
  predicate LastIs(run: seq<Step>, m: nat, n: nat, e: Event, id: JobId, k: Option<nat>)
    requires n <= |run|
  {
    && (k.Some? ==> m <= k.value < n && HappensAt(run, k.value, e, id))
    && forall i :: m <= i < n && (k.None? || k.value < i) ==> !HappensAt(run, i, e, id)
  }

  /** Step k is the first of these between m and n; there is none if k is none. */
  predicate FirstIs(run: seq<Step>, m: nat, n: nat, e: Event, id: JobId, k: Option<nat>)
    requires n <= |run|
  {
    && (k.Some? ==> m <= k.value < n && HappensAt(run, k.value, e, id))
    && forall i :: m <= i < n && (k.None? || i < k.value) ==> !HappensAt(run, i, e, id)
  }

  /** The steps a row goes by. */
  datatype Past = Past(claim: Option<nat>, firstClaim: Option<nat>, report: Option<nat>, end: Option<nat>)

  predicate PastIs(run: seq<Step>, m: nat, n: nat, id: JobId, p: Past)
    requires n <= |run|
  {
    && LastIs(run, m, n, Claiming, id, p.claim) && FirstIs(run, m, n, Claiming, id, p.firstClaim)
    && LastIs(run, m, n, Reporting, id, p.report) && LastIs(run, m, n, Finishing, id, p.end)
  }

  function TimeOf(run: seq<Step>, k: Option<nat>): Option<Time>
    requires k.Some? ==> k.value < |run|
  {
    if k.Some? then Some(run[k.value].now) else None
  }

  function IfNow(here: bool, n: nat, before: Option<nat>): Option<nat> { if here then Some(n) else before }

  lemma LastGoesOn(run: seq<Step>, m: nat, n: nat, e: Event, id: JobId, k: Option<nat>)
    requires m <= n < |run| && LastIs(run, m, n, e, id, k)
    ensures LastIs(run, m, n + 1, e, id, IfNow(HappensAt(run, n, e, id), n, k))
  {
    hide HappensAt;
  }

  lemma FirstGoesOn(run: seq<Step>, m: nat, n: nat, e: Event, id: JobId, k: Option<nat>)
    requires m <= n < |run| && FirstIs(run, m, n, e, id, k)
    ensures FirstIs(run, m, n + 1, e, id, IfNow(k.None? && HappensAt(run, n, e, id), n, k))
  {
    hide HappensAt;
  }

  /** The row tells the past: attempts, times, progress and message are those of these steps. */
  predicate Tells(run: seq<Step>, m: nat, n: nat, id: JobId, p: Past, j: Job)
    requires n <= |run| && PastIs(run, m, n, id, p)
  {
    && j.claimedAt == TimeOf(run, p.claim) && j.startedAt == TimeOf(run, p.firstClaim)
    && j.finishedAt == TimeOf(run, p.end) && (p.end.None? ==> Active(j))
    && (p.end.Some? ==> j.status == FinalStatus(run[p.end.value].act))
    && j.errorMessage == (if p.end.Some? then FinalMessage(run[p.end.value].act) else None)
    && j.progressStage == (if p.report.Some? then Some(run[p.report.value].act.stage) else None)
    && j.progressPct ==
       (if j.status == Succeeded then 100 else if p.report.Some? then run[p.report.value].act.pct else 0)
  }

  /** One step more. */
  function PastNext(run: seq<Step>, n: nat, id: JobId, p: Past): Past
    requires n < |run|
  {
    Past(IfNow(HappensAt(run, n, Claiming, id), n, p.claim),
      IfNow(p.firstClaim.None? && HappensAt(run, n, Claiming, id), n, p.firstClaim),
      IfNow(HappensAt(run, n, Reporting, id), n, p.report), IfNow(HappensAt(run, n, Finishing, id), n, p.end))
  }

  lemma PastGoesOn(run: seq<Step>, m: nat, n: nat, id: JobId, p: Past)
    requires m <= n < |run| && PastIs(run, m, n, id, p)
    ensures PastIs(run, m, n + 1, id, PastNext(run, n, id, p))
  {
    hide HappensAt, LastIs, FirstIs, IfNow;
    LastGoesOn(run, m, n, Claiming, id, p.claim);
    FirstGoesOn(run, m, n, Claiming, id, p.firstClaim);
    LastGoesOn(run, m, n, Reporting, id, p.report);
    LastGoesOn(run, m, n, Finishing, id, p.end);
  }

  lemma TellingGoesOn(run: seq<Step>, m: nat, n: nat, id: JobId, j: Job, k: Job, p: Past)
    requires m <= n < |run| && PastIs(run, m, n, id, p) && RowOk(j) && RowOk(k)
    requires Tells(run, m, n, id, p, j)
    requires HappensAt(run, n, Reporting, id) ==> run[n].act.PostProgress?
    requires Follows(run[n].act, run[n].now, j, k,
               HappensAt(run, n, Claiming, id), HappensAt(run, n, Reporting, id), HappensAt(run, n, Finishing, id))
    ensures PastIs(run, m, n + 1, id, PastNext(run, n, id, p))
    ensures Tells(run, m, n + 1, id, PastNext(run, n, id, p), k)
  {
    PastGoesOn(run, m, n, id, p);
    hide HappensAt, LastIs, FirstIs, PastIs, SameUpload;
  }

  lemma NothingYet(run: seq<Step>, m: nat, id: JobId, j: Job)
    requires m <= |run| && j.status == Queued && j.progressPct == 0 && j.progressStage == None
    requires j.claimedAt == None && j.errorMessage == None && j.startedAt == None && j.finishedAt == None
    ensures PastIs(run, m, m, id, Past(None, None, None, None))
    ensures Tells(run, m, m, id, Past(None, None, None, None), j)
  {
    hide HappensAt;
  }

  lemma StepTells(run: seq<Step>, m: nat, n: nat, id: JobId, p: Past)
    requires ValidRun(run) && m <= n < |run| && PastIs(run, m, n, id, p)
    requires !Starts(StateAt(run, n), run[n].act, id) && id in StateAt(run, n + 1).rows
    requires id in StateAt(run, n).rows ==> Tells(run, m, n, id, p, StateAt(run, n).rows[id])
    ensures id in StateAt(run, n).rows
    ensures PastIs(run, m, n + 1, id, PastNext(run, n, id, p))
    ensures Tells(run, m, n + 1, id, PastNext(run, n, id, p), StateAt(run, n + 1).rows[id])
  {
    hide Next, Follows, Tells, PastIs, Starts, StateAt, Owns, Ends, RowOk, One, PastNext;
    TableAlwaysOk(run, n);
    TableAlwaysOk(run, n + 1);
    StateAfter(run, n);
    RowFollows(StateAt(run, n), run[n].act, run[n].now, id);
    hide Possible;
    var rows, next := StateAt(run, n).rows, StateAt(run, n + 1).rows;
    assert HappensAt(run, n, Reporting, id) ==> run[n].act.PostProgress?;
    TellingGoesOn(run, m, n, id, rows[id], next[id], p);
  }

  /** A claim counts. */
  lemma AttemptCounts(run: seq<Step>, m: nat, n: nat, id: JobId)
    requires ValidRun(run) && m <= n < |run|
    requires !Starts(StateAt(run, n), run[n].act, id) && id in StateAt(run, n + 1).rows
    ensures id in StateAt(run, n).rows
    ensures StateAt(run, n + 1).rows[id].attempt - StateAt(run, n).rows[id].attempt
         == CountClaims(run, m, n + 1, id) - CountClaims(run, m, n, id)
  {
    hide Next, StateAt, Starts, RowOk, SameUpload, Owns, Ends;
    TableAlwaysOk(run, n);
    StateAfter(run, n);
    RowFollows(StateAt(run, n), run[n].act, run[n].now, id);
  }

  /**
   In every run: a row tells what has happened since its job was last started. As many attempts as
   claims; claimed at the last, started at the first of them; stage and percentage of the last report
   that was accepted, with 100 for a success; finished at the step that ended it, with its status and message.
   */
  lemma {:induction false} RowTellsPast(run: seq<Step>, m: nat, n: nat, id: JobId) returns (p: Past)
    requires ValidRun(run) && m < n <= |run| && OneEpoch(run, m + 1, n, id)
    requires Starts(StateAt(run, m), run[m].act, id) && id in StateAt(run, n).rows
    ensures PastIs(run, m + 1, n, id, p)
    ensures Tells(run, m + 1, n, id, p, StateAt(run, n).rows[id])
    ensures StateAt(run, n).rows[id].attempt == CountClaims(run, m + 1, n, id)
    decreases n
  {
    hide StateAt, Next, Tells, PastIs, Starts, CountClaims;
    if n == m + 1 {
      StateAfter(run, m);
      StartRow(StateAt(run, m), run[m].act, run[m].now, id);
      hide Possible;
      NothingYet(run, n, id, StateAt(run, n).rows[id]);
      p := Past(None, None, None, None);
      NoClaims(run, n, id);
    } else {
      AttemptCounts(run, m + 1, n - 1, id);
      hide Possible;
      var before := RowTellsPast(run, m, n - 1, id);
      StepTells(run, m + 1, n - 1, id, before);
      p := PastNext(run, n - 1, id, before);
    }
  }

  lemma NoClaims(run: seq<Step>, n: nat, id: JobId)
    requires n <= |run|
    ensures CountClaims(run, n, n, id) == 0
  {
  }

  // --------------------------------------------------------- who is offered a job

  lemma ClassKept(s: State, a: Act, now: Time, id: JobId)
    requires TableOk(s.rows) && Possible(s, a) && id in Next(s, a, now).rows
    ensures
      var k := Next(s, a, now).rows[id];
      k.workerClass ==
      if Starts(s, a, id) && a.PostJob? then "any" else if id in s.rows then s.rows[id].workerClass else ""
  {
    if Starts(s, a, id) {
      StartRow(s, a, now, id);
    } else {
      RowFollows(s, a, now, id);
    }
    hide Next, TableOk, RowOk, Possible;
  }

  predicate ForAnybody(rows: Rows) { forall id :: id in rows ==> rows[id].workerClass == "any" }

  lemma StepForAnybody(s: State, a: Act, now: Time)
    requires TableOk(s.rows) && Possible(s, a) && ForAnybody(s.rows)
    ensures ForAnybody(Next(s, a, now).rows)
  {
    hide Next, TableOk, Possible, Starts;
    forall id | id in Next(s, a, now).rows ensures Next(s, a, now).rows[id].workerClass == "any" {
      ClassKept(s, a, now, id);
      if id !in s.rows {
        NewJob(s, a, now, id);
      }
    }
  }

  /** Uploads are all of the class for everybody. */
  lemma {:induction false} AllForAnybody(run: seq<Step>, n: nat)
    requires ValidRun(run) && n <= |run|
    ensures ForAnybody(StateAt(run, n).rows)
    decreases n
  {
    hide Next, Possible, TableOk;
    if n > 0 {
      AllForAnybody(run, n - 1);
      TableAlwaysOk(run, n - 1);
      StepForAnybody(StateAt(run, n - 1), run[n - 1].act, run[n - 1].now);
    }
  }

  /** The queued jobs that no other request has locked. */
  function Free(rows: Rows, locked: set<JobId>): set<JobId> {
    set id | id in rows && rows[id].status == Queued && id !in locked
  }

  lemma FreeIsClaimable(rows: Rows, cls: string, locked: set<JobId>, id: JobId)
    requires ForAnybody(rows)
    ensures id in Free(rows, locked) <==> Claimable(rows, Classes(cls), locked, id)
    ensures id in Free(rows, locked) ==> id in rows
  {
  }

  /** A worker asks for its own class and the one for anybody. */
  lemma ClassesAsked(cls: string, other: string)
    ensures other in Classes(cls) <==> other == "any" || (cls != "" && other == cls)
  {
  }

  lemma ClaimantOwns(s: State, a: Act, now: Time)
    requires a.ClaimJob? && a.taken.Some? && a.taken.value in s.rows && a.worker != ""
    ensures Owns(Next(s, a, now), a.worker, a.taken.value)
  {
  }

  /**
   In every run: an enabled worker of whatever class that asks for a job gets none only if all queued
   jobs are locked by other requests; else it gets one that no unlocked queued job is older than.
   */
  lemma EverybodyIsOffered(run: seq<Step>, n: nat)
    requires ValidRun(run) && n < |run| && run[n].act.ClaimJob? && run[n].act.worker != "" && run[n].act.enabled
    ensures
      var rows, a := StateAt(run, n).rows, run[n].act;
      && (a.taken == None <==> Free(rows, a.locked) == {})
      && (a.taken.Some? ==>
            && a.taken.value in Free(rows, a.locked) && Owns(StateAt(run, n + 1), a.worker, a.taken.value)
            && forall id :: id in Free(rows, a.locked) ==> rows[a.taken.value].createdAt <= rows[id].createdAt)
  {
    hide StateAt, Next, Owns, Free, Claimable, ForAnybody, Classes;
    AllForAnybody(run, n);
    StateAfter(run, n);
    var rows, a := StateAt(run, n).rows, run[n].act;
    forall id
      ensures id in Free(rows, a.locked) <==> Claimable(rows, Classes(a.cls), a.locked, id)
      ensures id in Free(rows, a.locked) ==> id in rows
    {
      FreeIsClaimable(rows, a.cls, a.locked, id);
    }
    assert Possible(StateAt(run, n), a);
    if a.taken.Some? {
      ClaimantOwns(StateAt(run, n), a, run[n].now);
    }
  }

  // --------------------------------------------------------- what cleanup may take

  /**
   A cleanup is about the videos not marked yet of the jobs that ended before the cutoff, and about all
   of them: these are marked if every delete and every mark works, and no other video is in any case.
   */
  lemma CleanupByAge(s: State, refs: seq<JobId>, cutoff: Time, outcomes: seq<Outcome>, now: Time, id: JobId)
    requires TableOk(s.rows) && Possible(s, Cleanup(refs, cutoff, outcomes)) && id in s.rows
    ensures
      var j, t := s.rows[id], Next(s, Cleanup(refs, cutoff, outcomes), now);
      var due := j.videoDeletedAt.None? && j.finishedAt.Some? && j.finishedAt.value < cutoff;
      && id in t.rows
      && (t.rows[id] != j ==> due && t.rows[id] == j.(videoDeletedAt := Some(now)))
      && ((forall o :: o in outcomes ==> o.deleted && o.marked) && due ==> t.rows[id].videoDeletedAt == Some(now))
  {
    assert RowOk(s.rows[id]);
    CleanupRow(s, refs, outcomes, now, id);
    if i: nat :| i < |refs| && refs[i] == id {
      CleanupMarks(s, refs, outcomes, now, i);
    }
  }
}
