/**
 The `jobs` table, which is also the work queue (api/internal/jobs/jobs.go): one row
 update per SQL statement, and what every interleaving of statements keeps.

 The clock is a parameter of each statement. A statement that fails changes nothing.
 */
module JobTable {
  import opened Wrappers

  type JobId = nat
  type Time = int

  datatype Status = Queued | Claimed | Running | Succeeded | Failed | Canceled

  /**
   Where a blob is stored: the uploaded video of a job, or a result file; the number is the unique part
   of the key.
   */
  datatype Key = Input(n: nat) | Output(n: nat)

  datatype Job = Job(
    owner: string, status: Status, workerClass: string, inputKey: Key, inputSize: nat,
    progressPct: int, progressStage: Option<string>,
    claimedBy: Option<string>, claimedAt: Option<Time>, lastHeartbeat: Option<Time>,
    attempt: int, errorMessage: Option<string>,
    createdAt: Time, startedAt: Option<Time>, finishedAt: Option<Time>, videoDeletedAt: Option<Time>)

  type Rows = map<JobId, Job>

  const MAX_ATTEMPTS := 3

  predicate Active(j: Job) { j.status == Queued || j.status == Claimed || j.status == Running }

  predicate Finished(j: Job) { j.status == Succeeded || j.status == Failed || j.status == Canceled }

  // ---------------------------------------------------------- rows, per statement

  function NewRow(owner: string, cls: string, key: Key, size: int, now: Time): Job {
    Job(owner, Queued, cls, key, if size < 0 then 0 else size,
        0, None, None, None, None, 0, None, now, None, None, None)
  }

  function ClaimedRow(j: Job, worker: string, now: Time): Job {
    j.(status := Running, claimedBy := Some(worker), claimedAt := Some(now), lastHeartbeat := Some(now),
       startedAt := if j.startedAt.Some? then j.startedAt else Some(now), attempt := j.attempt + 1)
  }

  function ProgressRow(j: Job, pct: int, stage: string, now: Time): Job {
    j.(progressPct := pct, progressStage := Some(stage), lastHeartbeat := Some(now))
  }

  function CompletedRow(j: Job, success: bool, msg: string, now: Time): Job {
    j.(status := if success then Succeeded else Failed,
       errorMessage := if success || msg == "" then None else Some(msg),
       finishedAt := Some(now), progressPct := if success then 100 else j.progressPct)
  }

  function CanceledRow(j: Job, now: Time): Job { j.(status := Canceled, finishedAt := Some(now)) }

  function RerunRow(j: Job): Job {
    j.(status := Queued, progressPct := 0, progressStage := None, errorMessage := None, claimedBy := None,
       claimedAt := None, lastHeartbeat := None, startedAt := None, finishedAt := None, attempt := 0)
  }

  function RequeuedRow(j: Job, now: Time): Job {
    if j.attempt >= MAX_ATTEMPTS then
      j.(status := Failed, errorMessage := Some("worker timed out"), finishedAt := Some(now), claimedBy := None,
        lastHeartbeat := None)
    else
      j.(status := Queued, claimedBy := None, lastHeartbeat := None)
  }

  /** A running job whose last heartbeat is too old. */
  predicate Stale(j: Job, timeout: Time, now: Time) {
    j.status == Running && j.lastHeartbeat.Some? && j.lastHeartbeat.value < now - timeout
  }

  /** A job the claim statement may take: queued, of one of the classes, and not locked by another transaction. */
  predicate Claimable(rows: Rows, classes: set<string>, locked: set<JobId>, id: JobId) {
    id in rows && rows[id].status == Queued && rows[id].workerClass in classes && id !in locked
  }

  /** The oldest claimable job. */
  predicate Oldest(rows: Rows, classes: set<string>, locked: set<JobId>, id: JobId) {
    && Claimable(rows, classes, locked, id)
    && forall other :: other in rows && Claimable(rows, classes, locked, other) ==>
      rows[id].createdAt <= rows[other].createdAt
  }

  // ------------------------------------------------------------------ statements

  datatype Statement =
    | Create(id: JobId, owner: string, cls: string, key: Key, size: int)
    | Claim(worker: string, classes: set<string>, locked: set<JobId>, taken: Option<JobId>)
    | UpdateProgress(id: JobId, pct: int, stage: string)
    | Heartbeat(id: JobId)
    | Complete(id: JobId, success: bool, msg: string)
    | Cancel(id: JobId)
    | Rerun(id: JobId)
    | MarkVideoDeleted(id: JobId)
    | Delete(id: JobId)
    | RequeueStale(timeout: Time)

  /** When a statement can run: a new row has a new id, and a claim takes an oldest job if there is one. */
  predicate Enabled(rows: Rows, s: Statement) {
    match s
    case Create(id, _, _, _, _) => id !in rows
    case Claim(_, classes, locked, Some(id)) => Oldest(rows, classes, locked, id)
    case Claim(_, classes, locked, None) => forall id :: id in rows ==> !Claimable(rows, classes, locked, id)
    case _ => true
  }

  /** The row a statement writes for a job, when it writes one. */
  function Written(j: Job, id: JobId, s: Statement, now: Time): Option<Job> {
    match s
    case Create(_, _, _, _, _) => None
    case Claim(worker, _, _, taken) => if taken == Some(id) then Some(ClaimedRow(j, worker, now)) else None
    case UpdateProgress(id', pct, stage) =>
      if id' == id && j.status == Running then Some(ProgressRow(j, pct, stage, now)) else None
    case Heartbeat(id') => if id' == id then Some(j.(lastHeartbeat := Some(now))) else None
    case Complete(id', success, msg) => if id' == id then Some(CompletedRow(j, success, msg, now)) else None
    case Cancel(id') => if id' == id && Active(j) then Some(CanceledRow(j, now)) else None
    case Rerun(id') => if id' == id && Finished(j) && j.videoDeletedAt.None? then Some(RerunRow(j)) else None
    case MarkVideoDeleted(id') =>
      if id' == id && j.videoDeletedAt.None? then Some(j.(videoDeletedAt := Some(now))) else None
    case Delete(_) => None
    case RequeueStale(timeout) => if Stale(j, timeout, now) then Some(RequeuedRow(j, now)) else None
  }

  /** The table after a statement. */
  function After(rows: Rows, s: Statement, now: Time): Rows {
    match s
    case Create(id, owner, cls, key, size) => rows[id := NewRow(owner, cls, key, size, now)]
    case Delete(id) => rows - {id}
    case _ => map id | id in rows :: var w := Written(rows[id], id, s, now); if w.Some? then w.value else rows[id]
  }

  /** The jobs that are not as they were. */
  function Differing(before: Rows, after: Rows): set<JobId> {
    set id | id in before && (id !in after || after[id] != before[id])
  }

  // ------------------------------------------------------------- what always holds

  predicate RowOk(j: Job) {
    && 0 <= j.attempt <= MAX_ATTEMPTS
    && j.status != Claimed
    && (j.status == Queued ==> j.claimedBy.None? && j.attempt < MAX_ATTEMPTS)
    && (j.status == Running ==> j.claimedBy.Some? && j.lastHeartbeat.Some? && j.startedAt.Some? && j.attempt >= 1)
    && (j.finishedAt.Some? <==> Finished(j))
    && (j.startedAt.Some? <==> j.attempt >= 1)
    && (j.claimedAt.Some? <==> j.attempt >= 1)
    && (j.errorMessage.Some? ==> j.status == Failed)
    && (j.status == Succeeded ==> j.progressPct == 100)
  }

  predicate TableOk(rows: Rows) { forall id :: id in rows ==> RowOk(rows[id]) }

  lemma WrittenOk(rows: Rows, id: JobId, s: Statement, now: Time)
    requires Enabled(rows, s) && id in rows && RowOk(rows[id])
    ensures Written(rows[id], id, s, now).Some? ==> RowOk(Written(rows[id], id, s, now).value)
  {
  }

  /** Every statement keeps every row in order, whatever ran before it and whoever sent it. */
  lemma StatementKeepsTable(rows: Rows, s: Statement, now: Time)
    requires Enabled(rows, s) && TableOk(rows)
    ensures TableOk(After(rows, s, now))
  {
    hide RowOk, Written, Enabled;
    forall id | id in After(rows, s, now) ensures RowOk(After(rows, s, now)[id]) {
      if id in rows {
        WrittenOk(rows, id, s, now);
      }
      NewRowOk(s, now);
    }
  }

  /**
   What the requeue statement does: a row changes exactly when its job runs and its last heartbeat lies
   more than the timeout before now. Such a job loses its claimant; below the last attempt it goes back
   to the queue, at the last one it fails, and nothing else of it changes.
   */
  lemma RequeueExactly(rows: Rows, timeout: Time, now: Time, id: JobId)
    requires id in rows
    ensures id in After(rows, RequeueStale(timeout), now)
    ensures
      var j, k := rows[id], After(rows, RequeueStale(timeout), now)[id];
      && (k != j <==> j.status == Running && j.lastHeartbeat.Some? && now - j.lastHeartbeat.value > timeout)
      && (k != j ==>
            && k.claimedBy == None && k.lastHeartbeat == None && k.attempt == j.attempt
            && (if j.attempt < 3
                then k.status == Queued && k.errorMessage == j.errorMessage && k.finishedAt == j.finishedAt
                else k.status == Failed && k.errorMessage == Some("worker timed out") && k.finishedAt == Some(now))
            && k == j.(status := k.status, claimedBy := None, lastHeartbeat := None, errorMessage := k.errorMessage,
                       finishedAt := k.finishedAt))
  {
  }

  lemma NewRowOk(s: Statement, now: Time)
    ensures s.Create? ==> RowOk(NewRow(s.owner, s.cls, s.key, s.size, now))
  {
  }

  /** A statement and when it ran. */
  datatype Entry = Entry(statement: Statement, now: Time)

  /** A run of the table from a state, statements in any order. */
  predicate TableRun(rows: Rows, run: seq<Entry>)
    decreases |run|
  {
    run == [] || (Enabled(rows, run[0].statement) && TableRun(After(rows, run[0].statement, run[0].now), run[1..]))
  }

  function AfterRun(rows: Rows, run: seq<Entry>): Rows
    decreases |run|
  {
    if run == [] then rows else AfterRun(After(rows, run[0].statement, run[0].now), run[1..])
  }

  /** Over every interleaving of statements on any number of jobs. */
  lemma {:induction false} RunKeepsTable(rows: Rows, run: seq<Entry>)
    requires TableOk(rows) && TableRun(rows, run)
    ensures TableOk(AfterRun(rows, run))
    decreases |run|
  {
    hide Enabled, After, TableOk;
    if run != [] {
      StatementKeepsTable(rows, run[0].statement, run[0].now);
      RunKeepsTable(After(rows, run[0].statement, run[0].now), run[1..]);
    }
  }

  /** A job is `claimed` in no run from the empty table, and none is tried more than three times. */
  lemma NeverClaimedStatus(run: seq<Entry>, id: JobId)
    requires TableRun(map[], run) && id in AfterRun(map[], run)
    ensures AfterRun(map[], run)[id].status != Claimed && AfterRun(map[], run)[id].attempt <= MAX_ATTEMPTS
  {
    RunKeepsTable(map[], run);
  }

  /**
   The completing statement does not ask who sent it. Between the ownership check of one worker
   and its statement the job can go stale and be claimed by another, whose run it then ends:
   who may move a job is settled only when a handler is one step.
   */
  lemma LateCompleteEndsAnothersRun(rows: Rows, id: JobId, other: string, timeout: Time, t0: Time, t1: Time, t2: Time)
    requires id in rows && Stale(rows[id], timeout, t0) && rows[id].attempt < MAX_ATTEMPTS
    ensures
      var requeued := After(rows, RequeueStale(timeout), t0);
      var claim := Claim(other, {rows[id].workerClass}, requeued.Keys - {id}, Some(id));
      var claimed := After(requeued, claim, t1);
      var ended := After(claimed, Complete(id, true, ""), t2);
      && Enabled(requeued, claim)
      && claimed[id].status == Running && claimed[id].claimedBy == Some(other)
      && ended[id].status == Succeeded && ended[id].claimedBy == Some(other)
  {
    var requeued := After(rows, RequeueStale(timeout), t0);
    assert requeued[id] == RequeuedRow(rows[id], t0);
  }

  // -------------------------------------------------------------------- the table

  /** The repository: each method is one statement. */
  class Table {
    var rows: Rows

    constructor ()
      ensures rows == map[]
    {
      rows := map[];
    }

    method Create(id: JobId, owner: string, cls: string, key: Key, size: int, now: Time)
      requires id !in rows
      modifies this
      ensures rows == After(old(rows), Statement.Create(id, owner, cls, key, size), now)
    {
      var bytes := if size < 0 then 0 else size;
      rows := rows[id := Job(owner, Queued, cls, key, bytes,
                            0, None, None, None, None, 0, None, now, None, None, None)];
    }

    method Get(id: JobId) returns (r: Option<Job>)
      ensures r == if id in rows then Some(rows[id]) else None
    {
      r := if id in rows then Some(rows[id]) else None;
    }

    /** Takes an oldest queued job of the classes that no other transaction has locked. */
    method Claim(worker: string, classes: set<string>, locked: set<JobId>, now: Time) returns (taken: Option<JobId>)
      modifies this
      ensures Enabled(old(rows), Statement.Claim(worker, classes, locked, taken))
      ensures rows == After(old(rows), Statement.Claim(worker, classes, locked, taken), now)
    {
      taken := None;
      var todo := rows.Keys;
      while todo != {}
        invariant todo <= rows.Keys && rows == old(rows)
        invariant taken.Some? ==> taken.value in rows && Claimable(rows, classes, locked, taken.value)
        invariant forall id :: id in rows && id !in todo && Claimable(rows, classes, locked, id) ==>
          taken.Some? && rows[taken.value].createdAt <= rows[id].createdAt
        decreases |todo|
      {
        var id :| id in todo;
        ghost var left := todo - {id};
        assert todo == left + {id};
        if Claimable(rows, classes, locked, id)
           && (taken.None? || rows[id].createdAt < rows[taken.value].createdAt)
        {
          taken := Some(id);
        }
        todo := todo - {id};
      }
      if taken.Some? {
        rows := rows[taken.value := ClaimedRow(rows[taken.value], worker, now)];
      }
    }

    method UpdateProgress(id: JobId, pct: int, stage: string, now: Time) returns (applied: bool)
      modifies this
      ensures rows == After(old(rows), Statement.UpdateProgress(id, pct, stage), now)
      ensures applied <==> id in old(rows) && old(rows)[id].status == Running
    {
      applied := id in rows && rows[id].status == Running;
      if applied {
        rows := rows[id := rows[id].(progressPct := pct, progressStage := Some(stage), lastHeartbeat := Some(now))];
      }
    }

    method Heartbeat(id: JobId, now: Time)
      modifies this
      ensures rows == After(old(rows), Statement.Heartbeat(id), now)
    {
      if id in rows {
        rows := rows[id := rows[id].(lastHeartbeat := Some(now))];
      }
    }

    /** There is no status guard. */
    method Complete(id: JobId, success: bool, msg: string, now: Time)
      modifies this
      ensures rows == After(old(rows), Statement.Complete(id, success, msg), now)
    {
      if id in rows {
        var j := rows[id];
        var error := if !success && msg != "" then Some(msg) else None;
        rows := rows[id := j.(status := if success then Succeeded else Failed, errorMessage := error,
                              finishedAt := Some(now), progressPct := if success then 100 else j.progressPct)];
      }
    }

    method Cancel(id: JobId, now: Time) returns (applied: bool)
      modifies this
      ensures rows == After(old(rows), Statement.Cancel(id), now)
      ensures applied <==> id in old(rows) && Active(old(rows)[id])
    {
      applied := id in rows && Active(rows[id]);
      if applied {
        rows := rows[id := rows[id].(status := Canceled, finishedAt := Some(now))];
      }
    }

    method Rerun(id: JobId, now: Time) returns (applied: bool)
      modifies this
      ensures rows == After(old(rows), Statement.Rerun(id), now)
      ensures applied <==> id in old(rows) && Finished(old(rows)[id]) && old(rows)[id].videoDeletedAt.None?
    {
      applied := id in rows && Finished(rows[id]) && rows[id].videoDeletedAt.None?;
      if applied {
        rows := rows[id := RerunRow(rows[id])];
      }
    }

    method MarkVideoDeleted(id: JobId, now: Time)
      modifies this
      ensures rows == After(old(rows), Statement.MarkVideoDeleted(id), now)
    {
      if id in rows && rows[id].videoDeletedAt.None? {
        rows := rows[id := rows[id].(videoDeletedAt := Some(now))];
      }
    }

    method Delete(id: JobId, now: Time)
      modifies this
      ensures rows == After(old(rows), Statement.Delete(id), now)
    {
      rows := rows - {id};
    }

    method RequeueStale(timeout: Time, now: Time) returns (affected: nat)
      modifies this
      ensures rows == After(old(rows), Statement.RequeueStale(timeout), now)
      ensures affected == |Differing(old(rows), rows)|
    {
      ghost var before := rows;
      var stale := set id | id in rows && Stale(rows[id], timeout, now);
      affected := |stale|;
      rows := map id | id in rows :: if id in stale then RequeuedRow(rows[id], now) else rows[id];
      forall id | id in before ensures id in stale <==> rows[id] != before[id] {
        RequeueExactly(before, timeout, now, id);
      }
      assert stale == Differing(before, rows);
    }
  }
}
