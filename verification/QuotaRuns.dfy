/**
 Uploads that overlap (api/internal/httpapi/handlers_jobs.go:29-147): the handler reads the usage before
 it streams the file and inserts the row after it, so reading and recording are two steps here, and
 anything may happen between them.
 */
module QuotaRuns {
  import opened Wrappers
  import opened StorageUse
  import opened Upload

  /** An upload under a quota that has read the usage and is streaming its file. */
  datatype Pending = Pending(user: UserId, limit: Int64, used: Int64)

  datatype State = State(jobs: seq<JobRow>, results: seq<ResultRow>, pending: map<nat, Pending>)

  const START := State([], [], map[])

  /** `Other` is any other statement, and an upload without a quota: the tables become these. */
  datatype Step =
    | ReadUsage(upload: nat, user: UserId, limit: Int64, queryOk: bool)
    | Finish(upload: nat, id: nat, contentLength: Int64, parts: seq<Part>, recorded: bool)
    | Other(jobs: seq<JobRow>, results: seq<ResultRow>)

  /** The row of an upload that finishes is new. */
  predicate NewRow(s: State, id: nat) { forall k :: 0 <= k < |s.results| ==> s.results[k].job != id }

  /** An upload that finishes has read the usage, and its row has a new id. */
  predicate Possible(s: State, step: Step) {
    match step
    case ReadUsage(u, _, limit, _) => u !in s.pending && limit > 0
    case Finish(u, id, _, _, _) => u in s.pending && NewRow(s, id)
    case Other(_, _) => true
  }

  function UsedBy(s: State, user: UserId): int { Used(s.jobs, s.results, user) }

  /** What the upload has read. */
  function Reading(s: State, user: UserId, limit: Int64, queryOk: bool): Pending {
    Pending(user, limit, UsedRead(Some(limit), queryOk, UsedBy(s, user)))
  }

  /** The answer to an upload that finishes. */
  function ReplyTo(p: Pending, step: Step): Reply
    requires step.Finish?
  {
    Verdict(p.used, Some(p.limit), step.contentLength, step.parts, step.recorded)
  }

  function Next(s: State, step: Step): State {
    match step
    case ReadUsage(u, user, limit, queryOk) => s.(pending := s.pending[u := Reading(s, user, limit, queryOk)])
    case Finish(u, id, _, _, _) =>
      if u !in s.pending then s
      else
        var p := s.pending[u];
        var reply := ReplyTo(p, step);
        var rows := if reply.Created? then [JobRow(id, p.user, reply.size, false)] else [];
        s.(jobs := s.jobs + rows, pending := s.pending - {u})
    case Other(jobs, results) => s.(jobs := jobs, results := results)
  }

  /** The two steps with nothing between them do what the handler does in one go. */
  lemma HandlerIsTwoSteps(s: State, u: nat, user: UserId, limit: Int64, queryOk: bool, finish: Step)
    requires Possible(s, ReadUsage(u, user, limit, queryOk)) && finish.Finish? && finish.upload == u
    ensures
      var used := UsedRead(Some(limit), queryOk, Used(s.jobs, s.results, user));
      var reply := Verdict(used, Some(limit), finish.contentLength, finish.parts, finish.recorded);
      Next(Next(s, ReadUsage(u, user, limit, queryOk)), finish)
      == s.(jobs := if reply.Created? then s.jobs + [JobRow(finish.id, user, reply.size, false)] else s.jobs)
  {
    hide Used, Verdict, UsedRead;
    var mid := Next(s, ReadUsage(u, user, limit, queryOk));
    assert mid.pending - {u} == s.pending;
    assert s.jobs + [] == s.jobs;
  }

  // ------------------------------------------------------------------------- runs

  /** The state after the first n steps. */
  function StateAt(run: seq<Step>, n: nat): State
    requires n <= |run|
  {
    if n == 0 then START else Next(StateAt(run, n - 1), run[n - 1])
  }

  predicate ValidRun(run: seq<Step>) { forall i :: 0 <= i < |run| ==> Possible(StateAt(run, i), run[i]) }

  /** The bytes a step records for a user, negative where it takes some away. */
  function StepBytes(s: State, step: Step, user: UserId): int {
    match step
    case ReadUsage(_, _, _, _) => 0
    case Finish(u, _, _, _, _) =>
      if u in s.pending && s.pending[u].user == user && ReplyTo(s.pending[u], step).Created?
      then ReplyTo(s.pending[u], step).size else 0
    case Other(jobs, results) => Used(jobs, results, user) - UsedBy(s, user)
  }

  lemma StepRecords(s: State, step: Step, user: UserId)
    requires Possible(s, step)
    ensures UsedBy(Next(s, step), user) == UsedBy(s, user) + StepBytes(s, step, user)
  {
    hide Used, Verdict, UsedRead;
    if step.Finish? {
      var p := s.pending[step.upload];
      if ReplyTo(p, step).Created? {
        NewJobAdds(s.jobs, s.results, JobRow(step.id, p.user, ReplyTo(p, step).size, false), user);
      } else {
        assert s.jobs + [] == s.jobs;
      }
    }
  }

  /** The bytes recorded for a user by steps j up to i. */
  function Recorded(run: seq<Step>, j: nat, i: nat, user: UserId): int
    requires j <= i <= |run|
  {
    if i == j then 0 else Recorded(run, j, i - 1, user) + StepBytes(StateAt(run, i - 1), run[i - 1], user)
  }

  /** What is stored is what was stored and what has been recorded since. */
  lemma {:induction false} UsageIsRecorded(run: seq<Step>, j: nat, i: nat, user: UserId)
    requires ValidRun(run) && j <= i <= |run|
    ensures UsedBy(StateAt(run, i), user) == UsedBy(StateAt(run, j), user) + Recorded(run, j, i, user)
    decreases i
  {
    hide Next, StepBytes, UsedBy, Possible;
    if j < i {
      UsageIsRecorded(run, j, i - 1, user);
      StepRecords(StateAt(run, i - 1), run[i - 1], user);
    }
  }

  predicate Touches(step: Step, u: nat) { !step.Other? && step.upload == u }

  /** Step j is the reading that the upload pending before step i goes by. */
  predicate ReadAt(run: seq<Step>, j: nat, i: nat, u: nat)
    requires i <= |run|
  {
    && j < i && run[j].ReadUsage? && run[j].upload == u && u in StateAt(run, i).pending
    && StateAt(run, i).pending[u] == Reading(StateAt(run, j), run[j].user, run[j].limit, run[j].queryOk)
    && forall k :: j < k < i ==> !Touches(run[k], u)
  }

  lemma AfterStep(run: seq<Step>, n: nat)
    requires n < |run|
    ensures StateAt(run, n + 1) == Next(StateAt(run, n), run[n])
  {
    hide Next;
  }

  lemma AtStart(run: seq<Step>)
    ensures StateAt(run, 0) == START
  {
  }

  lemma PendingAfter(s: State, step: Step, u: nat)
    requires Possible(s, step) && u in Next(s, step).pending
    ensures
      if Touches(step, u)
      then step.ReadUsage? && Next(s, step).pending[u] == Reading(s, step.user, step.limit, step.queryOk)
      else u in s.pending && Next(s, step).pending[u] == s.pending[u]
  {
    hide ReplyTo, Reading;
  }

  /** In every run: an upload that is pending goes by a reading of its own, made once. */
  lemma {:induction false} PendingWasRead(run: seq<Step>, i: nat, u: nat) returns (j: nat)
    requires ValidRun(run) && i <= |run| && u in StateAt(run, i).pending
    ensures ReadAt(run, j, i, u)
    decreases i
  {
    hide ReplyTo, Reading, Next, StateAt, Possible;
    AtStart(run);
    AfterStep(run, i - 1);
    PendingAfter(StateAt(run, i - 1), run[i - 1], u);
    if Touches(run[i - 1], u) {
      j := i - 1;
    } else {
      j := PendingWasRead(run, i - 1, u);
    }
  }

  // --------------------------------------------------------- the quota over a run

  /** The usage that was read is the usage there was, or there was none. */
  predicate Trusted(s: State, read: Step)
    requires read.ReadUsage?
  {
    (read.queryOk && UsedBy(s, read.user) < INT64) || UsedBy(s, read.user) <= 0
  }

  /**
   In every run: an accepted upload leaves the usage within its limit if and only if the bytes
   recorded for its user since it read the usage leave room for it.
   */
  lemma OverlapIff(run: seq<Step>, j: nat, i: nat)
    requires ValidRun(run) && i < |run| && run[i].Finish? && ReadAt(run, j, i, run[i].upload)
    requires ReplyTo(StateAt(run, i).pending[run[i].upload], run[i]).Created?
    ensures
      var size := ReplyTo(StateAt(run, i).pending[run[i].upload], run[i]).size;
      UsedBy(StateAt(run, i + 1), run[j].user) <= run[j].limit
      <==> Recorded(run, j, i, run[j].user) <= run[j].limit - UsedBy(StateAt(run, j), run[j].user) - size
  {
    hide Next, UsedBy, ReplyTo;
    UsageIsRecorded(run, j, i, run[j].user);
    StepRecords(StateAt(run, i), run[i], run[j].user);
  }

  lemma ReadStep(run: seq<Step>, j: nat, i: nat)
    requires ValidRun(run) && i < |run| && run[i].Finish? && ReadAt(run, j, i, run[i].upload)
    ensures run[j].limit > 0
    ensures NewRow(StateAt(run, i), run[i].id)
  {
    hide Next, StateAt, Reading;
    assert Possible(StateAt(run, j), run[j]) && Possible(StateAt(run, i), run[i]);
  }

  /**
   In every run, whatever is uploaded: the quota is kept if and only if nothing is accepted or the
   bytes recorded since the reading do not make up more than was read. A trusted reading of a sum that
   fits 64 bits asks just that they come to nothing.
   */
  lemma QuotaKeptInRunIff(run: seq<Step>, j: nat, i: nat)
    requires ValidRun(run) && i < |run| && run[i].Finish? && ReadAt(run, j, i, run[i].upload)
    ensures
      var s, p := StateAt(run, i), StateAt(run, i).pending[run[i].upload];
      var stored, since := UsedBy(StateAt(run, j), p.user), Recorded(run, j, i, p.user);
      && (KeepsFrom(s.jobs, s.results, run[i].id, p.user, p.limit, p.used)
          <==> Wrap64(p.limit - p.used) <= 0 || stored + since <= p.used)
      && (run[j].queryOk && -INT64 <= stored < INT64 ==>
            p.used == stored && (stored + since <= p.used <==> since <= 0))
  {
    hide Next, KeepsFrom, Used, Wrap64, Recorded, StateAt, ValidRun, Possible;
    var s, p := StateAt(run, i), StateAt(run, i).pending[run[i].upload];
    ReadStep(run, j, i);
    KeptFromIff(s.jobs, s.results, run[i].id, p.user, p.limit, p.used);
    UsageIsRecorded(run, j, i, p.user);
  }

  /** The steps strictly between record nothing for the user, on balance. */
  predicate Undisturbed(run: seq<Step>, j: nat, i: nat, user: UserId)
    requires j < i <= |run|
  {
    Recorded(run, j + 1, i, user) <= 0
  }

  lemma {:induction false} RecordedFrom(run: seq<Step>, j: nat, i: nat, user: UserId)
    requires j < i <= |run|
    ensures Recorded(run, j, i, user) == StepBytes(StateAt(run, j), run[j], user) + Recorded(run, j + 1, i, user)
    decreases i
  {
    hide StepBytes;
    if j + 1 < i {
      RecordedFrom(run, j, i - 1, user);
    }
  }

  /** The user's uploads do not overlap with anything recorded for the user, and their readings are trusted. */
  predicate OneByOne(run: seq<Step>, user: UserId) {
    forall j, i :: 0 <= j < i < |run| && run[i].Finish? && ReadAt(run, j, i, run[i].upload) && run[j].user == user ==>
      Undisturbed(run, j, i, user) && Trusted(StateAt(run, j), run[j])
  }

  /** In every run in which a user's uploads are made one by one, each leaves the usage within its limit. */
  lemma OneByOneKeepsQuota(run: seq<Step>, user: UserId, i: nat)
    requires ValidRun(run) && OneByOne(run, user) && i < |run| && run[i].Finish?
    requires
      var p := StateAt(run, i).pending[run[i].upload];
      p.user == user && ReplyTo(p, run[i]).Created?
    ensures UsedBy(StateAt(run, i + 1), user) <= StateAt(run, i).pending[run[i].upload].limit
  {
    hide Next, Verdict, Used, KeepsFrom, Wrap64, Recorded;
    var u := run[i].upload;
    var j := PendingWasRead(run, i, u);
    assert Undisturbed(run, j, i, user) && Trusted(StateAt(run, j), run[j]);
    RecordedFrom(run, j, i, user);
    QuotaKeptInRunIff(run, j, i);
    KeptOne(StateAt(run, i), run[i]);
  }

  lemma KeptOne(s: State, step: Step)
    requires Possible(s, step) && step.Finish?
    requires
      var p := s.pending[step.upload];
      KeepsFrom(s.jobs, s.results, step.id, p.user, p.limit, p.used) && ReplyTo(p, step).Created?
    ensures UsedBy(Next(s, step), s.pending[step.upload].user) <= s.pending[step.upload].limit
  {
    hide Verdict, Used;
  }

  // --------------------------------------------------------- two uploads at a time

  /** Both uploads read the usage before either records its row. */
  function TwoUploads(user: UserId, limit: Int64): seq<Step>
    requires limit > 0
  {
    [ReadUsage(0, user, limit, true), ReadUsage(1, user, limit, true),
     Finish(0, 0, 0, OneVideo(limit), true), Finish(1, 1, 0, OneVideo(limit), true)]
  }

  /**
   Two overlapping uploads of one user, each reading an empty store with a query that works: both
   are accepted with the whole limit, and twice the limit is stored.
   */
  lemma TwoUploadsOverrun(user: UserId, limit: Int64)
    requires limit > 0
    ensures
      var run := TwoUploads(user, limit);
      && ValidRun(run)
      && ReplyTo(StateAt(run, 2).pending[0], run[2]) == Created(limit) == ReplyTo(StateAt(run, 3).pending[1], run[3])
      && UsedBy(StateAt(run, 4), user) == 2 * limit > limit
  {
    hide Verdict, OneVideo, Next;
    var run := TwoUploads(user, limit);
    WholeRoomAccepted(0, limit);
    assert Wrap64(limit - 0) == limit;
    TwoUploadsStates(user, limit);
  }

  lemma TwoUploadsStates(user: UserId, limit: Int64)
    requires limit > 0 && Verdict(0, Some(limit), 0, OneVideo(limit), true) == Created(limit)
    ensures
      var run, p := TwoUploads(user, limit), Pending(user, limit, 0);
      && StateAt(run, 0) == START && StateAt(run, 1) == State([], [], map[0 := p])
      && StateAt(run, 2) == State([], [], map[0 := p, 1 := p])
      && StateAt(run, 3) == State([JobRow(0, user, limit, false)], [], map[1 := p])
      && StateAt(run, 4) == State([JobRow(0, user, limit, false), JobRow(1, user, limit, false)], [], map[])
      && UsedBy(StateAt(run, 4), user) == 2 * limit
  {
    hide Verdict, OneVideo, Used, StateAt;
    var run, p := TwoUploads(user, limit), Pending(user, limit, 0);
    NothingUsed(user);
    AtStart(run);
    AfterStep(run, 0);
    AfterStep(run, 1);
    AfterStep(run, 2);
    AfterStep(run, 3);
    NewJobAdds([], [], JobRow(0, user, limit, false), user);
    NewJobAdds([JobRow(0, user, limit, false)], [], JobRow(1, user, limit, false), user);
    assert map[0 := p, 1 := p] - {0} == map[1 := p] && map[1 := p] - {1} == map[];
    assert [] + [JobRow(0, user, limit, false)] == [JobRow(0, user, limit, false)];
  }

  lemma NothingUsed(user: UserId)
    ensures Used([], [], user) == 0
  {
  }
}
