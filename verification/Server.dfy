/**
 The handlers and the cleaner as they run: each is a few statements of the table and
 calls to the blob store, and together they make exactly one step of the protocol.
 */
module Server {
  import opened Wrappers
  import opened JobTable
  import opened Protocol
  import opened Blobs

  /** A statement that writes one row. */
  lemma AfterOneRow(rows: Rows, st: Statement, now: Time, id: JobId)
    requires id in rows && !st.Create? && !st.Delete?
    requires forall other :: other in rows && other != id ==> Written(rows[other], other, st, now).None?
    ensures After(rows, st, now) ==
        (var w := Written(rows[id], id, st, now); if w.Some? then rows[id := w.value] else rows)
  {
  }

  lemma AfterNoRow(rows: Rows, st: Statement, now: Time)
    requires !st.Create? && !st.Delete?
    requires forall other :: other in rows ==> Written(rows[other], other, st, now).None?
    ensures After(rows, st, now) == rows
  {
  }

  datatype File = File(job: JobId, size: nat)

  datatype RunStatus = Success | Partial

  /** The record of one cleanup run. */
  datatype CleanupRun = CleanupRun(status: RunStatus, deleted: nat, bytesFreed: nat, files: seq<File>)

  function TotalSize(files: seq<File>): nat {
    if files == [] then 0 else TotalSize(files[..|files| - 1]) + files[|files| - 1].size
  }

  /** The record a cleanup run should leave: a file for each video deleted and marked, with the size it had. */
  function Recorded(s: State, refs: seq<JobId>, outcomes: seq<Outcome>): seq<File>
    requires |outcomes| == |refs| && forall i :: 0 <= i < |refs| ==> refs[i] in s.rows
  {
    if refs == [] then []
    else
      var n := |refs| - 1;
      var before := Recorded(s, refs[..n], outcomes[..n]);
      var key := s.rows[refs[n]].inputKey;
      if outcomes[n].deleted && outcomes[n].marked
      then before + [File(refs[n], if key in s.blobs then s.blobs[key] else 0)] else before
  }

  predicate AllWorked(outcomes: seq<Outcome>) {
    forall i :: 0 <= i < |outcomes| ==> outcomes[i].deleted && outcomes[i].marked
  }

  /** A day on the clock of the table. */
  const DAY: Time := 86_400

  class Server {
    const table: Table
    var results: map<ResultId, Result>
    var blobs: map<Key, nat>
    var running: bool

    constructor ()
      ensures fresh(table) && Current() == EMPTY && !running
    {
      table := new Table();
      results, blobs, running := map[], map[], false;
    }

    ghost function Current(): State
      reads this, table
    {
      State(table.rows, results, blobs)
    }

    /** The ownership check: a read of its own, before the statement. */
    method BindWorker(worker: string, id: JobId) returns (reply: Reply)
      ensures reply == Bound(Current(), worker, id)
    {
      var job := table.Get(id);
      if job.None? {
        return Conflict;
      }
      if worker == "" {
        return Unauthorized;
      }
      if job.value.status != Running && job.value.status != Claimed {
        return Conflict;
      }
      if job.value.claimedBy.None? || job.value.claimedBy.value != worker {
        return Conflict;
      }
      return Done;
    }

    /** The video is stored first; a blob left by a failed store belongs to no job. */
    method HandleCreateJob(id: JobId, owner: string, key: Key, size: nat, stored: bool, leftover: bool,
            recorded: bool, now: Time)
      returns (reply: Reply)
      requires Possible(Current(), PostJob(id, owner, key, size, stored, leftover, recorded))
      modifies table, this`blobs
      ensures Current() == Next(old(Current()), PostJob(id, owner, key, size, stored, leftover, recorded), now)
      ensures reply == if stored && recorded then Done else ServerError
    {
      if stored || leftover {
        blobs := blobs[key := size];
      }
      if !stored || !recorded {
        return ServerError;
      }
      table.Create(id, owner, "any", key, size, now);
      return Done;
    }

    method HandleClaim(worker: string, enabled: bool, cls: string, locked: set<JobId>, now: Time)
      returns (reply: Reply, taken: Option<JobId>)
      modifies table
      ensures Possible(old(Current()), ClaimJob(worker, enabled, cls, locked, taken))
      ensures Current() == Next(old(Current()), ClaimJob(worker, enabled, cls, locked, taken), now)
      ensures reply == if worker == "" then Unauthorized else if taken.Some? then Done else NoContent
    {
      taken := None;
      var workerClass := if cls == "" then "any" else cls;
      if worker == "" {
        return Unauthorized, None;
      }
      if !enabled {
        return NoContent, None;
      }
      var classes := {workerClass};
      if workerClass != "any" {
        classes := classes + {"any"};
      }
      assert classes == Classes(cls);
      taken := table.Claim(worker, classes, locked, now);
      var st := Statement.Claim(worker, classes, locked, taken);
      if taken.Some? {
        AfterOneRow(old(table.rows), st, now, taken.value);
      } else {
        AfterNoRow(old(table.rows), st, now);
      }
      reply := if taken.Some? then Done else NoContent;
    }

    method HandleProgress(worker: string, id: JobId, pct: int, stage: string, now: Time) returns (reply: Reply)
      modifies table
      ensures Current() == Next(old(Current()), PostProgress(worker, id, pct, stage), now)
      ensures reply == if Bound(old(Current()), worker, id) != Done then Bound(old(Current()), worker, id)
                       else if old(table.rows[id]).status == Running then Done else Conflict
    {
      reply := BindWorker(worker, id);
      if reply == Done {
        AfterOneRow(table.rows, Statement.UpdateProgress(id, pct, stage), now, id);
        var applied := table.UpdateProgress(id, pct, stage, now);
        if !applied {
          reply := Conflict;
        }
      }
    }

    method HandleHeartbeat(worker: string, id: JobId, now: Time) returns (reply: Reply)
      modifies table
      ensures Current() == Next(old(Current()), PostHeartbeat(worker, id), now)
      ensures reply == Bound(old(Current()), worker, id)
    {
      reply := BindWorker(worker, id);
      if reply == Done {
        AfterOneRow(table.rows, Statement.Heartbeat(id), now, id);
        table.Heartbeat(id, now);
      }
    }

    method HandleResult(worker: string, id: JobId, rid: ResultId, key: Key, size: nat,
                        stored: bool, leftover: bool, sized: bool, recorded: bool, now: Time) returns (reply: Reply)
      modifies this`results, this`blobs
      ensures Current() == Next(old(Current()),
          PostResult(worker, id, rid, key, size, stored, leftover, sized, recorded), now)
      ensures reply == if Bound(old(Current()), worker, id) != Done then Bound(old(Current()), worker, id)
                       else if stored && recorded then Done else ServerError
    {
      reply := BindWorker(worker, id);
      if reply != Done {
        return;
      }
      if stored || leftover {
        blobs := blobs[key := size];
      }
      if !stored {
        return ServerError;
      }
      var measured: int := -1;
      if sized {
        measured := blobs[key];
      }
      if !recorded {
        return ServerError;
      }
      results := results[rid := Result(id, key, measured)];
    }

    method HandleComplete(worker: string, id: JobId, success: bool, msg: string, now: Time) returns (reply: Reply)
      modifies table
      ensures Current() == Next(old(Current()), PostComplete(worker, id, success, msg), now)
      ensures reply == Bound(old(Current()), worker, id)
    {
      reply := BindWorker(worker, id);
      if reply == Done {
        AfterOneRow(table.rows, Statement.Complete(id, success, msg), now, id);
        table.Complete(id, success, msg, now);
      }
    }

    method HandleCancelJob(id: JobId, now: Time) returns (reply: Reply)
      modifies table
      ensures Current() == Next(old(Current()), CancelJob(id), now)
      ensures
        reply == if id !in old(table.rows) then NotFound else if Active(old(table.rows[id])) then Done else Conflict
    {
      var job := table.Get(id);
      if job.None? {
        return NotFound;
      }
      AfterOneRow(table.rows, Statement.Cancel(id), now, id);
      var canceled := table.Cancel(id, now);
      reply := if canceled then Done else Conflict;
    }

    /** `statOk` is what Stat said about the video. */
    method HandleRerunJob(id: JobId, statOk: bool, marked: bool, now: Time) returns (reply: Reply)
      modifies table
      ensures Current() == Next(old(Current()), RerunJob(id, statOk, marked), now)
      ensures reply == Done <==> Starts(old(Current()), RerunJob(id, statOk, marked), id)
    {
      var job := table.Get(id);
      if job.None? {
        return NotFound;
      }
      if job.value.videoDeletedAt.Some? {
        return Conflict;
      }
      if !statOk {
        if marked {
          AfterOneRow(table.rows, Statement.MarkVideoDeleted(id), now, id);
          table.MarkVideoDeleted(id, now);
        }
        return Conflict;
      }
      AfterOneRow(table.rows, Statement.Rerun(id), now, id);
      var requeued := table.Rerun(id, now);
      reply := if requeued then Done else Conflict;
    }

    method HandleDeleteVideo(id: JobId, removed: bool, now: Time) returns (reply: Reply)
      modifies table, this`blobs
      ensures Current() == Next(old(Current()), DeleteVideo(id, removed), now)
      ensures
        reply == if id !in old(table.rows) then NotFound else if Active(old(table.rows[id])) then Conflict else Done
    {
      var job := table.Get(id);
      if job.None? {
        return NotFound;
      }
      if Active(job.value) {
        return Conflict;
      }
      if job.value.videoDeletedAt.None? {
        AfterOneRow(table.rows, Statement.MarkVideoDeleted(id), now, id);
        table.MarkVideoDeleted(id, now);
        if removed {
          blobs := blobs - {job.value.inputKey};
        }
      }
      return Done;
    }

    /** The rows go first; the blobs in `gone` are those the store really dropped. */
    method HandleDeleteJob(id: JobId, gone: set<Key>, now: Time) returns (reply: Reply)
      modifies table, this`results, this`blobs
      ensures Current() == Next(old(Current()), DeleteJob(id, gone), now)
      ensures reply == if id in old(table.rows) then Done else NotFound
    {
      var job := table.Get(id);
      if job.None? {
        return NotFound;
      }
      var keys := {job.value.inputKey} + set rid | rid in results && results[rid].job == id :: results[rid].key;
      table.Delete(id, now);
      results := WithoutResultsOf(results, {id});
      blobs := blobs - (keys * gone);
      return Done;
    }

    method HandleDeleteResult(id: JobId, rid: ResultId, gone: set<Key>, now: Time) returns (reply: Reply)
      modifies table, this`results, this`blobs
      ensures Current() == Next(old(Current()), DeleteResult(id, rid, gone), now)
      ensures
        var known := id in old(table.rows) && rid in old(results) && old(results[rid]).job == id;
        reply == if known then Done else NotFound
    {
      var job := table.Get(id);
      if job.None? {
        return NotFound;
      }
      if rid !in results || results[rid].job != id {
        return NotFound;
      }
      var key := results[rid].key;
      results := results - {rid};
      var remaining := set other | other in results && results[other].job == id;
      assert forall other :: other in old(results) && other != rid && old(results)[other].job == id ==>
        other in remaining;
      if remaining == {} {
        assert LastResult(old(Current()), id, rid);
        table.Delete(id, now);
        blobs := blobs - ({key, job.value.inputKey} * gone);
      } else {
        var other :| other in remaining;
        assert other in old(results) && old(results)[other].job == id && other != rid;
        assert !LastResult(old(Current()), id, rid);
        blobs := blobs - ({key} * gone);
      }
      return Done;
    }

    /** The jobs and results of the user go with the user; the keys were listed before. */
    method HandleDeleteUser(owner: string, gone: set<Key>, now: Time)
      modifies table, this`results, this`blobs
      ensures Current() == Next(old(Current()), DeleteUser(owner, gone), now)
    {
      var s := State(table.rows, results, blobs);
      var keys := KeysOfUser(s, owner);
      var ids := JobsOf(s, owner);
      table.rows := table.rows - ids;
      results := WithoutResultsOf(results, ids);
      blobs := blobs - (keys * gone);
    }

    method RequeueTick(timeout: Time, now: Time) returns (affected: nat)
      modifies table
      ensures Current() == Next(old(Current()), Requeue(timeout), now)
      ensures affected == |Differing(old(table.rows), table.rows)|
    {
      affected := table.RequeueStale(timeout, now);
    }

    /** The finished jobs whose videos are old; the query fixes no order. */
    method VideosForCleanup(cutoff: Time) returns (refs: seq<JobId>)
      ensures Candidates(table.rows, cutoff, refs)
    {
      refs := [];
      var todo := table.rows.Keys;
      while todo != {}
        invariant todo <= table.rows.Keys
        invariant forall i, j :: 0 <= i < j < |refs| ==> refs[i] != refs[j]
        invariant forall i :: 0 <= i < |refs| ==>
            refs[i] in table.rows && refs[i] !in todo && CleanupCandidate(table.rows[refs[i]], cutoff)
        invariant forall id :: id in table.rows && id !in todo && CleanupCandidate(table.rows[id], cutoff) ==>
            id in refs
        decreases |todo|
      {
        var id :| id in todo;
        ghost var left := todo - {id};
        assert todo == left + {id};
        todo := todo - {id};
        if CleanupCandidate(table.rows[id], cutoff) {
          refs := refs + [id];
        }
      }
    }

    /** One candidate: what the store held, the delete, and the mark if the delete worked. */
    method CleanVideo(id: JobId, o: Outcome, now: Time) returns (size: nat)
      requires id in table.rows
      modifies table, this`blobs
      ensures Current() == CleanupOne(old(Current()), id, o, now)
      ensures size == if old(table.rows)[id].inputKey in old(blobs) then old(blobs)[old(table.rows)[id].inputKey] else 0
    {
      var key := table.rows[id].inputKey;
      size := 0;
      if key in blobs {
        size := blobs[key];
      }
      if o.gone {
        blobs := blobs - {key};
      }
      if o.deleted && o.marked {
        table.MarkVideoDeleted(id, now);
      }
    }

    /**
     One cleanup run. The outcomes say what the store and the mark statements did, candidate
     by candidate; a second run while one is in progress is refused.
     */
    method Execute(retentionDays: int, outcome: JobId -> Outcome, now: Time)
      returns (run: Option<CleanupRun>, ghost refs: seq<JobId>, ghost outcomes: seq<Outcome>)
      requires KeysApart(Current())
      requires forall id :: outcome(id).deleted ==> outcome(id).gone
      modifies table, this`blobs, this`running
      ensures run.None? <==> old(running)
      ensures old(running) ==> Current() == old(Current()) && running
      ensures !old(running) ==>
        var act := Cleanup(refs, now - (if retentionDays < 1 then 7 else retentionDays) * DAY, outcomes);
        && !running
        && |outcomes| == |refs| && (forall i :: 0 <= i < |refs| ==> outcomes[i] == outcome(refs[i]))
        && Possible(old(Current()), act)
        && Current() == Next(old(Current()), act, now)
        && run.value.files == Recorded(old(Current()), refs, outcomes)
        && run.value.deleted == |run.value.files| && run.value.bytesFreed == TotalSize(run.value.files)
        && (run.value.status == Success <==> AllWorked(outcomes))
    {
      hide CleanupNext, CleanupOne, Recorded, CleanupCandidate, KeysApart, AllWorked, TotalSize;
      refs, outcomes := [], [];
      if running {
        return None, refs, outcomes;
      }
      running := true;
      var days := retentionDays;
      if days < 1 {
        days := 7;
      }
      var cutoff := now - days * DAY;
      var found := VideosForCleanup(cutoff);
      refs := found;
      outcomes := seq(|refs|, i requires 0 <= i < |refs| => outcome(refs[i]));
      var deleted, bytesFreed, files, failures := 0, 0, [], 0;
      ghost var s := Current();
      NothingYet(s, now);
      assert refs[..0] == [] && outcomes[..0] == [];
      var n := 0;
      while n < |found|
        invariant n <= |found| && running
        invariant Current() == CleanupNext(s, refs[..n], outcomes[..n], now)
        invariant files == Recorded(s, refs[..n], outcomes[..n])
        invariant deleted == |files| && bytesFreed == TotalSize(files)
        invariant failures == 0 <==> AllWorked(outcomes[..n])
      {
        var id := found[n];
        CleanupSoFar(s, refs, outcomes, now, cutoff, n);
        OneMore(s, refs, outcomes, now, n);
        var o := outcome(id);
        var size := CleanVideo(id, o, now);
        if !o.deleted || !o.marked {
          failures := failures + 1;
        } else {
          deleted := deleted + 1;
          bytesFreed := bytesFreed + size;
          SizeOfMore(files, File(id, size));
          files := files + [File(id, size)];
        }
        n := n + 1;
      }
      assert refs[..n] == refs && outcomes[..n] == outcomes;
      running := false;
      run := Some(CleanupRun(if failures > 0 then Partial else Success, deleted, bytesFreed, files));
    }
  }

  /** When its turn comes, a candidate has its row and its video still is as it was at the start. */
  lemma CleanupSoFar(s: State, refs: seq<JobId>, outcomes: seq<Outcome>, now: Time, cutoff: Time, n: nat)
    requires KeysApart(s) && Candidates(s.rows, cutoff, refs) && |outcomes| == |refs| && n < |refs|
    ensures
      var mid := CleanupNext(s, refs[..n], outcomes[..n], now);
      && refs[n] in s.rows && refs[n] in mid.rows && mid.rows[refs[n]] == s.rows[refs[n]]
      && var key := s.rows[refs[n]].inputKey;
         && (key in mid.blobs <==> key in s.blobs)
         && (key in mid.blobs ==> mid.blobs[key] == s.blobs[key])
  {
    assert refs[n] in s.rows;
    assert forall a :: 0 <= a < n ==> refs[a] != refs[n];
    CleanupRow(s, refs[..n], outcomes[..n], now, refs[n]);
    CleanupBlobs(s, refs[..n], outcomes[..n], now);
  }

  /** What one more candidate adds to the run. */
  lemma OneMore(s: State, refs: seq<JobId>, outcomes: seq<Outcome>, now: Time, n: nat)
    requires |outcomes| == |refs| && n < |refs| && forall i :: 0 <= i < |refs| ==> refs[i] in s.rows
    ensures CleanupNext(s, refs[..n + 1], outcomes[..n + 1], now)
         == CleanupOne(CleanupNext(s, refs[..n], outcomes[..n], now), refs[n], outcomes[n], now)
    ensures
      var key := s.rows[refs[n]].inputKey;
      var before := Recorded(s, refs[..n], outcomes[..n]);
      Recorded(s, refs[..n + 1], outcomes[..n + 1])
      == if outcomes[n].deleted && outcomes[n].marked
         then before + [File(refs[n], if key in s.blobs then s.blobs[key] else 0)] else before
    ensures AllWorked(outcomes[..n + 1]) <==> AllWorked(outcomes[..n]) && outcomes[n].deleted && outcomes[n].marked
  {
    assert refs[..n + 1][..n] == refs[..n] && outcomes[..n + 1][..n] == outcomes[..n];
    assert outcomes[..n + 1] == outcomes[..n] + [outcomes[n]];
    assert outcomes[..n + 1][n] == outcomes[n];
    assert forall i :: 0 <= i < n ==> outcomes[..n + 1][i] == outcomes[..n][i];
  }

  lemma NothingYet(s: State, now: Time)
    ensures CleanupNext(s, [], [], now) == s && Recorded(s, [], []) == [] && AllWorked([]) && TotalSize([]) == 0
  {
  }

  lemma SizeOfMore(files: seq<File>, f: File)
    ensures TotalSize(files + [f]) == TotalSize(files) + f.size
  {
    assert (files + [f])[..|files|] == files;
  }
}
