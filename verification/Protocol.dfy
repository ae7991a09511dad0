/**
 The worker protocol, the user's actions and the retention cleanup
 (api/internal/httpapi/handlers_internal.go, handlers_jobs.go and cleaner.go), each handler and
 each cleanup run one step.

 What the outside decides is part of the step: whether a blob was stored or really
 deleted, whether a statement failed half-way, which rows were locked, the clock.
 A worker that fails authentication has the empty name. A handler that fails before it
 changes anything is no step.
 */
module Protocol {
  import opened Wrappers
  import opened JobTable

  type ResultId = nat

  datatype Result = Result(job: JobId, key: Key, size: int)

  /** The database and the blob store, with blob sizes. */
  datatype State = State(rows: Rows, results: map<ResultId, Result>, blobs: map<Key, nat>)

  const EMPTY := State(map[], map[], map[])

  /** What happened to one candidate of a cleanup run: the delete and the mark each may fail. */
  datatype Outcome = Outcome(deleted: bool, gone: bool, marked: bool)

  datatype Act =
    | PostJob(id: JobId, owner: string, key: Key, size: nat, stored: bool, leftover: bool, recorded: bool)
    | ClaimJob(worker: string, enabled: bool, cls: string, locked: set<JobId>, taken: Option<JobId>)
    | PostProgress(worker: string, id: JobId, pct: int, stage: string)
    | PostHeartbeat(worker: string, id: JobId)
    | PostResult(worker: string, id: JobId, rid: ResultId, key: Key, size: nat, stored: bool, leftover: bool,
                 sized: bool, recorded: bool)
    | PostComplete(worker: string, id: JobId, success: bool, msg: string)
    | CancelJob(id: JobId)
    | RerunJob(id: JobId, statOk: bool, marked: bool)
    | DeleteVideo(id: JobId, removed: bool)
    | DeleteJob(id: JobId, gone: set<Key>)
    | DeleteResult(id: JobId, rid: ResultId, gone: set<Key>)
    | DeleteUser(owner: string, gone: set<Key>)
    | Requeue(timeout: Time)
    | Cleanup(refs: seq<JobId>, cutoff: Time, outcomes: seq<Outcome>)

  datatype Reply = Done | NoContent | Conflict | Unauthorized | NotFound | ServerError

  /** The classes a worker asks for: its own and the catch-all. */
  function Classes(cls: string): set<string> {
    var own := if cls == "" then "any" else cls;
    {own, "any"}
  }

  /** The job is active and claimed under this worker's name. */
  predicate Owns(s: State, worker: string, id: JobId) {
    && id in s.rows && worker != ""
    && (s.rows[id].status == Running || s.rows[id].status == Claimed)
    && s.rows[id].claimedBy == Some(worker)
  }

  /** The blobs of a job: its video and its results. */
  function KeysOf(s: State, id: JobId): set<Key> {
    (if id in s.rows then {s.rows[id].inputKey} else {})
    + (set rid | rid in s.results && s.results[rid].job == id :: s.results[rid].key)
  }

  function ResultsOf(s: State, id: JobId): set<ResultId> { set rid | rid in s.results && s.results[rid].job == id }

  function JobsOf(s: State, owner: string): set<JobId> {
    set id | id in s.rows && s.rows[id].owner == owner
  }

  function KeysOfUser(s: State, owner: string): set<Key> {
    set id, k | id in JobsOf(s, owner) && k in KeysOf(s, id) :: k
  }

  function WithoutResultsOf(results: map<ResultId, Result>, ids: set<JobId>): map<ResultId, Result> {
    map rid | rid in results && results[rid].job !in ids :: results[rid]
  }

  /** A finished job whose video is there and old enough. */
  predicate CleanupCandidate(j: Job, cutoff: Time) {
    && j.videoDeletedAt.None? && Finished(j)
    && (if j.finishedAt.Some? then j.finishedAt.value else j.createdAt) < cutoff
  }

  /** Exactly the candidates, each once, in any order. */
  predicate Candidates(rows: Rows, cutoff: Time, refs: seq<JobId>) {
    && (forall i, j :: 0 <= i < j < |refs| ==> refs[i] != refs[j])
    && (forall i :: 0 <= i < |refs| ==> refs[i] in rows && CleanupCandidate(rows[refs[i]], cutoff))
    && (forall id :: id in rows && CleanupCandidate(rows[id], cutoff) ==> id in refs)
  }

  /** What can happen: ids and keys are new, a claim takes an oldest job, Stat finds only what is there. */
  predicate Possible(s: State, a: Act) {
    match a
    case PostJob(id, _, key, _, _, _, _) =>
      id !in s.rows && key.Input? && key !in s.blobs && forall other :: other in s.rows ==>
        s.rows[other].inputKey != key
    case ClaimJob(worker, enabled, cls, locked, taken) =>
      if worker == "" || !enabled then taken == None
      else Enabled(s.rows, Claim(worker, Classes(cls), locked, taken))
    case PostResult(_, _, rid, key, _, _, _, _, _) => rid !in s.results && key.Output? && key !in s.blobs
    case RerunJob(id, statOk, _) => id in s.rows && statOk ==> s.rows[id].inputKey in s.blobs
    case Cleanup(refs, cutoff, outcomes) =>
      && |outcomes| == |refs| && Candidates(s.rows, cutoff, refs)
      && (forall i :: 0 <= i < |refs| && outcomes[i].deleted ==> outcomes[i].gone)
    case _ => true
  }

  /** Only a video whose delete succeeded is marked. */
  function CleanupOne(s: State, id: JobId, o: Outcome, now: Time): State {
    if id !in s.rows then s
    else
      var s1 := if o.gone then s.(blobs := s.blobs - {s.rows[id].inputKey}) else s;
      if o.deleted && o.marked then s1.(rows := After(s1.rows, MarkVideoDeleted(id), now)) else s1
  }

  function CleanupNext(s: State, refs: seq<JobId>, outcomes: seq<Outcome>, now: Time): State
    requires |outcomes| == |refs|
  {
    if refs == [] then s
    else
      var n := |refs| - 1;
      CleanupOne(CleanupNext(s, refs[..n], outcomes[..n], now), refs[n], outcomes[n], now)
  }

  /** One row changes. */
  function WithRow(s: State, id: JobId, j: Job): State { s.(rows := s.rows[id := j]) }

  /** The last result of a job takes the job with it. */
  predicate LastResult(s: State, id: JobId, rid: ResultId) {
    forall other :: other in s.results && s.results[other].job == id ==> other == rid
  }

  /** The state after a step. */
  function Next(s: State, a: Act, now: Time): State {
    match a
    case PostJob(id, owner, key, size, stored, leftover, recorded) =>
      var s1 := if stored || leftover then s.(blobs := s.blobs[key := size]) else s;
      if stored && recorded then WithRow(s1, id, NewRow(owner, "any", key, size, now)) else s1
    case ClaimJob(worker, _, _, _, taken) =>
      if taken.Some? && taken.value in s.rows
      then WithRow(s, taken.value, ClaimedRow(s.rows[taken.value], worker, now)) else s
    case PostProgress(worker, id, pct, stage) =>
      if Owns(s, worker, id) && s.rows[id].status == Running
      then WithRow(s, id, ProgressRow(s.rows[id], pct, stage, now)) else s
    case PostHeartbeat(worker, id) =>
      if Owns(s, worker, id) then WithRow(s, id, s.rows[id].(lastHeartbeat := Some(now))) else s
    case PostResult(worker, id, rid, key, size, stored, leftover, sized, recorded) =>
      if !Owns(s, worker, id) then s
      else
        var s1 := if stored || leftover then s.(blobs := s.blobs[key := size]) else s;
        if stored && recorded then s1.(results := s.results[rid := Result(id, key, if sized then size else -1)]) else s1
    case PostComplete(worker, id, success, msg) =>
      if Owns(s, worker, id) then WithRow(s, id, CompletedRow(s.rows[id], success, msg, now)) else s
    case CancelJob(id) =>
      if id in s.rows && Active(s.rows[id]) then WithRow(s, id, CanceledRow(s.rows[id], now)) else s
    case RerunJob(id, statOk, marked) =>
      if id !in s.rows || s.rows[id].videoDeletedAt.Some? then s
      else if !statOk then (if marked then WithRow(s, id, s.rows[id].(videoDeletedAt := Some(now))) else s)
      else if Finished(s.rows[id]) then WithRow(s, id, RerunRow(s.rows[id])) else s
    case DeleteVideo(id, removed) =>
      if id !in s.rows || Active(s.rows[id]) || s.rows[id].videoDeletedAt.Some? then s
      else
        WithRow(s, id, s.rows[id].(videoDeletedAt := Some(now)))
          .(blobs := if removed then s.blobs - {s.rows[id].inputKey} else s.blobs)
    case DeleteJob(id, gone) =>
      if id !in s.rows then s
      else State(s.rows - {id}, WithoutResultsOf(s.results, {id}), s.blobs - (KeysOf(s, id) * gone))
    case DeleteResult(id, rid, gone) =>
      if id !in s.rows || rid !in s.results || s.results[rid].job != id then s
      else if LastResult(s, id, rid)
      then State(s.rows - {id}, s.results - {rid}, s.blobs - ({s.results[rid].key, s.rows[id].inputKey} * gone))
      else s.(results := s.results - {rid}, blobs := s.blobs - ({s.results[rid].key} * gone))
    case DeleteUser(owner, gone) =>
      State(s.rows - JobsOf(s, owner), WithoutResultsOf(s.results, JobsOf(s, owner)),
        s.blobs - (KeysOfUser(s, owner) * gone))
    case Requeue(timeout) => s.(rows := After(s.rows, RequeueStale(timeout), now))
    case Cleanup(refs, _, outcomes) => if |outcomes| == |refs| then CleanupNext(s, refs, outcomes, now) else s
  }

  predicate IsPost(a: Act) { a.PostProgress? || a.PostHeartbeat? || a.PostResult? || a.PostComplete? }

  /** What the ownership check answers; `Done` lets the handler go on. */
  function Bound(s: State, worker: string, id: JobId): Reply {
    if id !in s.rows then Conflict
    else if worker == "" then Unauthorized
    else if Owns(s, worker, id) then Done
    else Conflict
  }

  // ------------------------------------------------------------------------ runs

  datatype Step = Step(act: Act, now: Time)

  /** The state after the first n steps from the empty system. */
  function StateAt(run: seq<Step>, n: nat): State
    requires n <= |run|
  {
    if n == 0 then EMPTY else Next(StateAt(run, n - 1), run[n - 1].act, run[n - 1].now)
  }

  predicate ValidRun(run: seq<Step>) {
    forall i :: 0 <= i < |run| ==> Possible(StateAt(run, i), run[i].act)
  }

  // --------------------------------------------------- what a step does to one job

  /** The step claims this job for this worker. */
  predicate IsClaimBy(a: Act, worker: string, id: JobId) {
    a.ClaimJob? && a.worker == worker && a.taken == Some(id)
  }

  /** A run of the extraction begins: the upload is recorded or a re-run takes effect. */
  predicate Starts(s: State, a: Act, id: JobId) {
    match a
    case PostJob(id', _, _, _, stored, _, recorded) => id' == id && stored && recorded
    case RerunJob(id', statOk, _) =>
      id' == id && id in s.rows && s.rows[id].videoDeletedAt.None? && statOk && Finished(s.rows[id])
    case _ => false
  }

  /** The row a step leaves for a job that was there, if it leaves the job. */
  function RowNext(s: State, a: Act, now: Time, id: JobId): Option<Job> {
    var next := Next(s, a, now);
    if id in next.rows then Some(next.rows[id]) else None
  }

  /** Ways a row can change without touching status, owner and attempt. */
  predicate SameClaim(j: Job, k: Job) {
    k.status == j.status && k.claimedBy == j.claimedBy && k.attempt == j.attempt
  }

  lemma {:induction false} CleanupRow(s: State, refs: seq<JobId>, outcomes: seq<Outcome>, now: Time, id: JobId)
    requires |outcomes| == |refs|
    ensures id in CleanupNext(s, refs, outcomes, now).rows <==> id in s.rows
    ensures id in s.rows ==>
      var k := CleanupNext(s, refs, outcomes, now).rows[id];
      k == s.rows[id].(videoDeletedAt := k.videoDeletedAt)
    ensures id in s.rows && id !in refs ==> CleanupNext(s, refs, outcomes, now).rows[id] == s.rows[id]
    decreases |refs|
  {
    if refs != [] {
      var n := |refs| - 1;
      assert refs[n] in refs;
      CleanupRow(s, refs[..n], outcomes[..n], now, id);
    }
  }

  /** What one step can do to the row of a job. */
  lemma RowCases(s: State, a: Act, now: Time, id: JobId)
    requires Possible(s, a) && id in s.rows && RowNext(s, a, now, id).Some?
    ensures
      var j, k := s.rows[id], RowNext(s, a, now, id).value;
      || SameClaim(j, k)
      || (a.ClaimJob? && a.taken == Some(id) && j.status == Queued && k == ClaimedRow(j, a.worker, now))
      || (a.PostComplete? && a.id == id && Owns(s, a.worker, id) && k == CompletedRow(j, a.success, a.msg, now))
      || (a.CancelJob? && Active(j) && k == CanceledRow(j, now))
      || (Starts(s, a, id) && k == RerunRow(j))
      || (a.Requeue? && Stale(j, a.timeout, now) && k == RequeuedRow(j, now))
  {
    if a.Cleanup? {
      CleanupRow(s, a.refs, a.outcomes, now, id);
    }
  }

  /** A job appears only by an upload, queued and unclaimed. */
  lemma NewJob(s: State, a: Act, now: Time, id: JobId)
    requires Possible(s, a) && id !in s.rows && RowNext(s, a, now, id).Some?
    ensures Starts(s, a, id) && a.PostJob?
    ensures RowNext(s, a, now, id).value == NewRow(a.owner, "any", a.key, a.size, now)
  {
    if a.Cleanup? {
      CleanupRow(s, a.refs, a.outcomes, now, id);
    }
  }

  // -------------------------------------------------------- only the claimant moves

  /**
   A post takes effect only from the current claimant: from anybody else it changes
   nothing and is answered with an error, and the claimant's own post touches no other job.
   */
  lemma OnlyTheClaimantPosts(s: State, a: Act, now: Time)
    requires IsPost(a) && Possible(s, a)
    ensures Bound(s, a.worker, a.id) == Done <==> Owns(s, a.worker, a.id)
    ensures !Owns(s, a.worker, a.id) ==> Next(s, a, now) == s
    ensures Next(s, a, now).rows.Keys == s.rows.Keys
    ensures forall id :: id in s.rows && id != a.id ==> Next(s, a, now).rows[id] == s.rows[id]
    ensures forall id :: id != a.id ==> ResultsOf(Next(s, a, now), id) == ResultsOf(s, id)
  {
    var t := Next(s, a, now);
    forall id | id != a.id ensures ResultsOf(t, id) == ResultsOf(s, id) {
      assert forall rid :: rid in ResultsOf(t, id) <==> rid in ResultsOf(s, id);
    }
  }

  /** Nobody owns a job that has just gone back to the queue. */
  lemma RequeueDisowns(s: State, timeout: Time, now: Time, worker: string, id: JobId)
    requires id in s.rows && Stale(s.rows[id], timeout, now)
    ensures !Owns(Next(s, Requeue(timeout), now), worker, id)
  {
  }

  /** Ownership comes only from claiming. */
  lemma OwnershipFromClaim(s: State, a: Act, now: Time, worker: string, id: JobId)
    requires Possible(s, a) && Owns(Next(s, a, now), worker, id)
    ensures Owns(s, worker, id) || IsClaimBy(a, worker, id)
  {
    hide Next;
    if id in s.rows {
      RowCases(s, a, now, id);
    } else {
      NewJob(s, a, now, id);
    }
  }

  /** In every run: a worker that lost a job is refused until that name claims it again. */
  lemma {:induction false} RefusedUntilClaimed(run: seq<Step>, m: nat, n: nat, worker: string, id: JobId)
    requires ValidRun(run) && m <= n <= |run|
    requires !Owns(StateAt(run, m), worker, id)
    requires forall k :: m <= k < n ==> !IsClaimBy(run[k].act, worker, id)
    ensures !Owns(StateAt(run, n), worker, id)
    ensures Bound(StateAt(run, n), worker, id) != Done
    decreases n
  {
    hide Owns, Next, Possible;
    if m < n {
      RefusedUntilClaimed(run, m, n - 1, worker, id);
      if Owns(StateAt(run, n), worker, id) {
        OwnershipFromClaim(StateAt(run, n - 1), run[n - 1].act, run[n - 1].now, worker, id);
      }
    }
  }

  /** Owned by this worker in every state from m to n. */
  predicate HeldThroughout(run: seq<Step>, m: nat, n: nat, worker: string, id: JobId)
    requires n <= |run|
  {
    forall k :: m <= k <= n ==> Owns(StateAt(run, k), worker, id)
  }

  /** In every run: whoever may post claimed the job and has held it ever since. */
  lemma {:induction false} ClaimantHeldSince(run: seq<Step>, n: nat, worker: string, id: JobId) returns (k: nat)
    requires ValidRun(run) && n <= |run| && Owns(StateAt(run, n), worker, id)
    ensures k < n && IsClaimBy(run[k].act, worker, id) && HeldThroughout(run, k + 1, n, worker, id)
    decreases n
  {
    hide Owns, Next, Possible;
    assert n > 0 by { NothingAtFirst(run, worker, id); }
    var before := StateAt(run, n - 1);
    OwnershipFromClaim(before, run[n - 1].act, run[n - 1].now, worker, id);
    if Owns(before, worker, id) {
      k := ClaimantHeldSince(run, n - 1, worker, id);
    } else {
      k := n - 1;
    }
  }

  lemma NothingAtFirst(run: seq<Step>, worker: string, id: JobId)
    ensures !Owns(StateAt(run, 0), worker, id)
  {
  }

  // ------------------------------------------------------------- signs of life

  /** The worker claims the job, or as its owner reports progress or sends a heartbeat. */
  predicate Signs(s: State, a: Act, worker: string, id: JobId) {
    || IsClaimBy(a, worker, id)
    || ((a.PostProgress? || a.PostHeartbeat?) && a.worker == worker && a.id == id && Owns(s, worker, id))
  }

  /** The heartbeat of a running job is written by a sign of life and by nothing else. */
  lemma BeatStep(s: State, a: Act, now: Time, worker: string, id: JobId)
    requires id in s.rows && RowOk(s.rows[id]) && Possible(s, a) && Owns(Next(s, a, now), worker, id)
    requires Owns(s, worker, id) || IsClaimBy(a, worker, id)
    ensures Next(s, a, now).rows[id].lastHeartbeat
         == if Signs(s, a, worker, id) then Some(now) else s.rows[id].lastHeartbeat
  {
    if a.Cleanup? {
      CleanupRow(s, a.refs, a.outcomes, now, id);
    }
    hide CleanupNext, KeysOf, JobsOf, KeysOfUser, WithoutResultsOf, Candidates, Oldest, NewRow, CompletedRow;
  }

  /** An owner's heartbeat is the time of its last sign of life. */
  lemma SignStep(s: State, a: Act, now: Time, worker: string, id: JobId)
    requires TableOk(s.rows) && Possible(s, a) && Owns(Next(s, a, now), worker, id)
    ensures
      var beat := Next(s, a, now).rows[id].lastHeartbeat;
      if Signs(s, a, worker, id) then beat == Some(now)
      else Owns(s, worker, id) && beat == s.rows[id].lastHeartbeat
  {
    OwnershipFromClaim(s, a, now, worker, id);
    ClaimTakesQueued(s, a, id);
    hide Next, Possible, RowOk;
    BeatStep(s, a, now, worker, id);
  }

  predicate SignsAt(run: seq<Step>, k: nat, worker: string, id: JobId)
    requires k < |run|
  {
    Signs(StateAt(run, k), run[k].act, worker, id)
  }

  /** In every run: an owner has given a sign of life, and its heartbeat is the time of the last one. */
  lemma {:induction false} LastSign(run: seq<Step>, n: nat, worker: string, id: JobId) returns (k: nat)
    requires ValidRun(run) && n <= |run| && Owns(StateAt(run, n), worker, id)
    ensures k < n && SignsAt(run, k, worker, id) && StateAt(run, n).rows[id].lastHeartbeat == Some(run[k].now)
    ensures forall i :: k < i < n ==> !SignsAt(run, i, worker, id)
    decreases n
  {
    hide Owns, Next, Possible, Signs, TableOk;
    assert n > 0 by { NothingAtFirst(run, worker, id); }
    TableAlwaysOk(run, n - 1);
    SignStep(StateAt(run, n - 1), run[n - 1].act, run[n - 1].now, worker, id);
    if SignsAt(run, n - 1, worker, id) {
      k := n - 1;
    } else {
      k := LastSign(run, n - 1, worker, id);
    }
  }

  predicate ClockAscends(run: seq<Step>) { forall i, j :: 0 <= i < j < |run| ==> run[i].now <= run[j].now }

  /** The worker gave a sign of life for the job not longer than that before step n. */
  predicate SignedWithin(run: seq<Step>, n: nat, timeout: Time, worker: string, id: JobId)
    requires n < |run|
  {
    exists k :: 0 <= k < n && SignsAt(run, k, worker, id) && run[n].now - run[k].now <= timeout
  }

  lemma RequeueOwner(s: State, timeout: Time, now: Time, worker: string, id: JobId)
    requires TableOk(s.rows) && Owns(s, worker, id)
    ensures s.rows[id].lastHeartbeat.Some?
    ensures Owns(Next(s, Requeue(timeout), now), worker, id) <==> now - s.rows[id].lastHeartbeat.value <= timeout
  {
    assert RowOk(s.rows[id]);
    RequeueExactly(s.rows, timeout, now, id);
  }

  /**
   In every run with an ascending clock: a requeue leaves a job to its owner if and only if the owner
   gave a sign of life for it within the timeout.
   */
  lemma SilenceIff(run: seq<Step>, n: nat, worker: string, id: JobId)
    requires ValidRun(run) && ClockAscends(run) && n < |run| && run[n].act.Requeue?
    requires Owns(StateAt(run, n), worker, id)
    ensures Owns(StateAt(run, n + 1), worker, id) <==> SignedWithin(run, n, run[n].act.timeout, worker, id)
  {
    hide Owns, Next, Possible, TableOk, SignsAt, ValidRun, ClockAscends;
    var k := LastSign(run, n, worker, id);
    TableAlwaysOk(run, n);
    RequeueOwner(StateAt(run, n), run[n].act.timeout, run[n].now, worker, id);
    StateAfter(run, n);
    hide StateAt;
    if SignedWithin(run, n, run[n].act.timeout, worker, id) {
      var i :| 0 <= i < n && SignsAt(run, i, worker, id) && run[n].now - run[i].now <= run[n].act.timeout;
      Ascends(run, i, k);
    }
  }

  lemma StateAfter(run: seq<Step>, n: nat)
    requires n < |run|
    ensures StateAt(run, n + 1) == Next(StateAt(run, n), run[n].act, run[n].now)
  {
    hide Next;
  }

  lemma Ascends(run: seq<Step>, i: nat, k: nat)
    requires ClockAscends(run) && i <= k < |run|
    ensures run[i].now <= run[k].now
  {
  }

  /** In every run: a worker silent for longer than the timeout owns nothing after a requeue, until it claims again. */
  lemma SilentIsDisowned(run: seq<Step>, r: nat, n: nat, worker: string, id: JobId)
    requires ValidRun(run) && ClockAscends(run) && r < n <= |run| && run[r].act.Requeue?
    requires !SignedWithin(run, r, run[r].act.timeout, worker, id)
    requires forall k :: r < k < n ==> !IsClaimBy(run[k].act, worker, id)
    ensures !Owns(StateAt(run, n), worker, id)
  {
    hide Owns, Next, Possible, SignedWithin;
    if Owns(StateAt(run, r), worker, id) {
      SilenceIff(run, r, worker, id);
    } else if Owns(StateAt(run, r + 1), worker, id) {
      OwnershipFromClaim(StateAt(run, r), run[r].act, run[r].now, worker, id);
    }
    RefusedUntilClaimed(run, r + 1, n, worker, id);
  }

  /** Without a requeue an owner loses a job only when the job ends or is removed. */
  lemma OwnerKeeps(s: State, a: Act, now: Time, worker: string, id: JobId)
    requires TableOk(s.rows) && Possible(s, a) && Owns(s, worker, id) && !a.Requeue?
    requires id in Next(s, a, now).rows && !Ends(s, Next(s, a, now), id)
    ensures Owns(Next(s, a, now), worker, id)
  {
    assert RowOk(s.rows[id]);
    hide Next, Possible;
    RowCases(s, a, now, id);
    var k := Next(s, a, now).rows[id];
    assert RowNext(s, a, now, id) == Some(k);
    assert !Finished(k);
  }

  /** Step k neither ends the job nor removes it. */
  predicate StaysOpen(run: seq<Step>, k: nat, id: JobId)
    requires k < |run|
  {
    id in StateAt(run, k + 1).rows && !Ends(StateAt(run, k), StateAt(run, k + 1), id)
  }

  /**
   In every run with an ascending clock: an owner that gives signs of life within the timeout of every
   requeue keeps its job for as long as the job neither ends nor is removed.
   */
  lemma {:induction false} LivelyOwnerKeeps(run: seq<Step>, m: nat, n: nat, worker: string, id: JobId)
    requires ValidRun(run) && ClockAscends(run) && m <= n <= |run| && Owns(StateAt(run, m), worker, id)
    requires forall k :: m <= k < n && run[k].act.Requeue? ==> SignedWithin(run, k, run[k].act.timeout, worker, id)
    requires forall k :: m <= k < n ==> StaysOpen(run, k, id)
    ensures Owns(StateAt(run, n), worker, id)
    decreases n
  {
    hide Owns, Next, Possible, TableOk, Signs, SignedWithin, Ends, ClockAscends, StaysOpen, ValidRun, StateAt;
    if m < n {
      LivelyOwnerKeeps(run, m, n - 1, worker, id);
      if run[n - 1].act.Requeue? {
        SilenceIff(run, n - 1, worker, id);
      } else {
        OpenKeeps(run, n - 1, worker, id);
      }
    }
  }

  lemma OpenKeeps(run: seq<Step>, n: nat, worker: string, id: JobId)
    requires ValidRun(run) && n < |run| && Owns(StateAt(run, n), worker, id)
    requires !run[n].act.Requeue? && StaysOpen(run, n, id)
    ensures Owns(StateAt(run, n + 1), worker, id)
  {
    hide Owns, Next, TableOk, Ends, StateAt;
    TableAlwaysOk(run, n);
    StateAfter(run, n);
    assert Possible(StateAt(run, n), run[n].act);
    hide Possible;
    OwnerKeeps(StateAt(run, n), run[n].act, run[n].now, worker, id);
  }

  // ---------------------------------------------------------------------- epochs

  /** Steps left for a job: each change of status or attempt uses at least one. */
  function Measure(s: State, id: JobId): int {
    if id !in s.rows then 0
    else match s.rows[id].status
      case Queued => 6 - 2 * s.rows[id].attempt
      case Running => 7 - 2 * s.rows[id].attempt
      case _ => 0
  }

  function ClaimsLeft(s: State, id: JobId): int { if id in s.rows then MAX_ATTEMPTS - s.rows[id].attempt else 0 }

  function Open(s: State, id: JobId): nat { if id in s.rows && !Finished(s.rows[id]) then 1 else 0 }

  predicate Changes(s: State, t: State, id: JobId) {
    id in s.rows && id in t.rows && (t.rows[id].status != s.rows[id].status || t.rows[id].attempt != s.rows[id].attempt)
  }

  /** The job goes from an active to a final status. */
  predicate Ends(s: State, t: State, id: JobId) {
    id in s.rows && id in t.rows && !Finished(s.rows[id]) && Finished(t.rows[id])
  }

  function One(b: bool): nat { if b then 1 else 0 }

  /** Without a start, a step pays for what it does out of what is left. */
  lemma EpochStep(s: State, a: Act, now: Time, id: JobId)
    requires TableOk(s.rows) && Possible(s, a) && !Starts(s, a, id)
    ensures
      var t := Next(s, a, now);
      && One(Changes(s, t, id)) + Measure(t, id) <= Measure(s, id)
      && One(a.ClaimJob? && a.taken == Some(id)) + ClaimsLeft(t, id) <= ClaimsLeft(s, id)
      && One(Ends(s, t, id)) + Open(t, id) <= Open(s, id)
  {
    ClaimTakesQueued(s, a, id);
    assert id in s.rows ==> RowOk(s.rows[id]);
    hide Next, Possible;
    if id in s.rows {
      if RowNext(s, a, now, id).Some? {
        RowCases(s, a, now, id);
      }
    } else if RowNext(s, a, now, id).Some? {
      NewJob(s, a, now, id);
    }
  }

  lemma ClaimTakesQueued(s: State, a: Act, id: JobId)
    requires Possible(s, a)
    ensures a.ClaimJob? && a.taken == Some(id) ==> id in s.rows && s.rows[id].status == Queued
    ensures a.ClaimJob? && a.taken == Some(id) ==>
        forall now :: RowNext(s, a, now, id) == Some(ClaimedRow(s.rows[id], a.worker, now))
  {
  }

  /** No start of this job between m and n. */
  predicate OneEpoch(run: seq<Step>, m: nat, n: nat, id: JobId)
    requires n <= |run|
  {
    forall k :: m <= k < n ==> !Starts(StateAt(run, k), run[k].act, id)
  }

  function CountClaims(run: seq<Step>, m: nat, n: nat, id: JobId): nat
    requires m <= n <= |run|
  {
    if m == n then 0
    else CountClaims(run, m, n - 1, id) + One(run[n - 1].act.ClaimJob? && run[n - 1].act.taken == Some(id))
  }

  function CountEnds(run: seq<Step>, m: nat, n: nat, id: JobId): nat
    requires m <= n <= |run|
  {
    if m == n then 0 else CountEnds(run, m, n - 1, id) + One(Ends(StateAt(run, n - 1), StateAt(run, n), id))
  }

  function CountChanges(run: seq<Step>, m: nat, n: nat, id: JobId): nat
    requires m <= n <= |run|
  {
    if m == n then 0 else CountChanges(run, m, n - 1, id) + One(Changes(StateAt(run, n - 1), StateAt(run, n), id))
  }

  lemma {:induction false} EpochPays(run: seq<Step>, m: nat, n: nat, id: JobId)
    requires ValidRun(run) && m <= n <= |run| && OneEpoch(run, m, n, id)
    ensures CountChanges(run, m, n, id) + Measure(StateAt(run, n), id) <= Measure(StateAt(run, m), id)
    ensures CountClaims(run, m, n, id) + ClaimsLeft(StateAt(run, n), id) <= ClaimsLeft(StateAt(run, m), id)
    ensures CountEnds(run, m, n, id) + Open(StateAt(run, n), id) <= Open(StateAt(run, m), id)
    decreases n
  {
    hide Next, Possible, Measure, ClaimsLeft, Open, Starts, Changes, Ends, TableOk;
    if m < n {
      EpochPays(run, m, n - 1, id);
      TableAlwaysOk(run, n - 1);
      EpochStep(StateAt(run, n - 1), run[n - 1].act, run[n - 1].now, id);
    }
  }

  /**
   In every run: between one start of a job and the next there are at most three claims, at
   most one ending and at most six changes of status or attempt.
   */
  lemma EpochBounds(run: seq<Step>, m: nat, n: nat, id: JobId)
    requires ValidRun(run) && m <= n <= |run| && OneEpoch(run, m, n, id)
    ensures CountClaims(run, m, n, id) <= MAX_ATTEMPTS
    ensures CountEnds(run, m, n, id) <= 1
    ensures CountChanges(run, m, n, id) <= 6
  {
    EpochPays(run, m, n, id);
    TableAlwaysOk(run, m);
    TableAlwaysOk(run, n);
    hide Next, Possible, StateAt, CountClaims, CountEnds, CountChanges;
  }

  // ------------------------------------------------------------------ the table

  lemma StepKeepsTable(s: State, a: Act, now: Time)
    requires Possible(s, a) && TableOk(s.rows)
    ensures TableOk(Next(s, a, now).rows)
  {
    hide Next, RowOk, Possible;
    forall id | id in Next(s, a, now).rows ensures RowOk(Next(s, a, now).rows[id]) {
      StepKeepsRow(s, a, now, id);
    }
  }

  /** What a worker's request leaves in a row is what one of its statements writes. */
  lemma WorkerKeepsRow(s: State, a: Act, now: Time, id: JobId)
    requires Possible(s, a) && TableOk(s.rows) && id in s.rows && id in Next(s, a, now).rows
    requires IsPost(a) || a.ClaimJob?
    ensures RowOk(Next(s, a, now).rows[id])
  {
    hide Possible, Next, RowOk, TableOk;
    if a.ClaimJob? {
      ClaimKeepsRow(s, a, now, id);
    } else {
      PostKeepsRow(s, a, now, id);
    }
  }

  lemma ClaimKeepsRow(s: State, a: Act, now: Time, id: JobId)
    requires Possible(s, a) && TableOk(s.rows) && id in s.rows && id in Next(s, a, now).rows && a.ClaimJob?
    ensures RowOk(Next(s, a, now).rows[id])
  {
    assert RowOk(s.rows[id]);
    hide RowOk, ClaimedRow, Oldest;
    if a.taken == Some(id) {
      WrittenOk(s.rows, id, Claim(a.worker, Classes(a.cls), a.locked, a.taken), now);
    }
  }

  lemma PostKeepsRow(s: State, a: Act, now: Time, id: JobId)
    requires Possible(s, a) && TableOk(s.rows) && id in s.rows && id in Next(s, a, now).rows && IsPost(a)
    ensures RowOk(Next(s, a, now).rows[id])
  {
    assert RowOk(s.rows[id]);
    hide RowOk, ProgressRow, CompletedRow;
    match a {
      case PostProgress(_, other, pct, stage) => WrittenOk(s.rows, id, UpdateProgress(other, pct, stage), now);
      case PostHeartbeat(_, other) => WrittenOk(s.rows, id, Heartbeat(other), now);
      case PostComplete(_, other, success, msg) => WrittenOk(s.rows, id, Complete(other, success, msg), now);
      case PostResult(_, _, _, _, _, _, _, _, _) =>
    }
  }

  /** And so is what anybody else's leaves. */
  lemma StepKeepsRow(s: State, a: Act, now: Time, id: JobId)
    requires Possible(s, a) && TableOk(s.rows) && id in Next(s, a, now).rows
    ensures RowOk(Next(s, a, now).rows[id])
  {
    hide CleanupNext, KeysOf, JobsOf, KeysOfUser, WithoutResultsOf, NewRow, CanceledRow, RerunRow, RequeuedRow,
      Candidates;
    if id !in s.rows {
      NewJob(s, a, now, id);
      NewRowOk(Create(id, a.owner, "any", a.key, a.size), now);
      return;
    }
    if IsPost(a) || a.ClaimJob? {
      WorkerKeepsRow(s, a, now, id);
      return;
    }
    assert RowOk(s.rows[id]);
    hide RowOk;
    match a {
      case CancelJob(other) => WrittenOk(s.rows, id, Cancel(other), now);
      case RerunJob(other, _, _) =>
        WrittenOk(s.rows, id, Rerun(other), now);
        WrittenOk(s.rows, id, MarkVideoDeleted(other), now);
      case DeleteVideo(other, _) => WrittenOk(s.rows, id, MarkVideoDeleted(other), now);
      case Requeue(timeout) => WrittenOk(s.rows, id, RequeueStale(timeout), now);
      case Cleanup(refs, _, outcomes) =>
        CleanupRow(s, refs, outcomes, now, id);
        CleanupRowOk(s.rows[id], Next(s, a, now).rows[id]);
      case _ =>
    }
  }

  lemma CleanupRowOk(j: Job, k: Job)
    requires RowOk(j) && k == j.(videoDeletedAt := k.videoDeletedAt)
    ensures RowOk(k)
  {
  }

  lemma {:induction false} TableAlwaysOk(run: seq<Step>, n: nat)
    requires ValidRun(run) && n <= |run|
    ensures TableOk(StateAt(run, n).rows)
    decreases n
  {
    hide Next, Possible, RowOk;
    if n > 0 {
      TableAlwaysOk(run, n - 1);
      StepKeepsTable(StateAt(run, n - 1), run[n - 1].act, run[n - 1].now);
    }
  }
}
