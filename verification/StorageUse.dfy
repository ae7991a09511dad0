/**
 Storage accounting (api/internal/jobs/jobs.go:466-511) and quota enforcement of uploads
 (api/internal/httpapi/handlers_jobs.go:29-165, quota.go:12-22).

 A table is a sequence of rows, as a query scans it. Sizes are 64-bit in the source; sums
 and byte counts are unbounded here, the subtraction and the addition of the quota check wrap.
 */
module StorageUse {
  import opened Wrappers

  type UserId = nat

  datatype JobRow = JobRow(id: nat, owner: UserId, bytes: nat, videoDeleted: bool)

  /** The size of a result is -1 when it could not be read, or null. */
  datatype ResultRow = ResultRow(job: nat, size: Option<int>)

  // ---------------------------------------------------------------- what is stored

  function Bytes(size: Option<int>): int { if size.Some? then size.value else 0 }

  predicate Counts(j: JobRow, user: UserId) { j.owner == user && !j.videoDeleted }

  function VideoBytes(jobs: seq<JobRow>, user: UserId): int {
    if jobs == [] then 0
    else
      var j := jobs[|jobs| - 1];
      VideoBytes(jobs[..|jobs| - 1], user) + if Counts(j, user) then j.bytes else 0
  }

  /** One result joined with the jobs. */
  function JoinBytes(jobs: seq<JobRow>, r: ResultRow, user: UserId): int {
    if jobs == [] then 0
    else
      var j := jobs[|jobs| - 1];
      JoinBytes(jobs[..|jobs| - 1], r, user) + if j.id == r.job && j.owner == user then Bytes(r.size) else 0
  }

  function ResultBytes(jobs: seq<JobRow>, results: seq<ResultRow>, user: UserId): int {
    if results == [] then 0
    else ResultBytes(jobs, results[..|results| - 1], user) + JoinBytes(jobs, results[|results| - 1], user)
  }

  /** A user's stored bytes: videos still there and all results. */
  function Used(jobs: seq<JobRow>, results: seq<ResultRow>, user: UserId): int {
    VideoBytes(jobs, user) + ResultBytes(jobs, results, user)
  }

  predicate HasVideo(jobs: seq<JobRow>, user: UserId) { exists i :: 0 <= i < |jobs| && Counts(jobs[i], user) }

  predicate Joins(j: JobRow, r: ResultRow, user: UserId) { j.id == r.job && j.owner == user }

  predicate HasJoin(jobs: seq<JobRow>, r: ResultRow, user: UserId) {
    exists i :: 0 <= i < |jobs| && Joins(jobs[i], r, user)
  }

  predicate HasResult(jobs: seq<JobRow>, results: seq<ResultRow>, user: UserId) {
    exists k :: 0 <= k < |results| && HasJoin(jobs, results[k], user)
  }

  lemma Snoc<T>(s: seq<T>, n: nat)
    requires n < |s|
    ensures s[..n + 1] == s[..n] + [s[n]] && s[..n + 1][..n] == s[..n] && s[..n + 1][n] == s[n]
  {
  }

  // ------------------------------------------------------------------- the queries

  lemma VideoBytesSnoc(jobs: seq<JobRow>, n: nat, user: UserId)
    requires n < |jobs|
    ensures VideoBytes(jobs[..n + 1], user) ==
        VideoBytes(jobs[..n], user) + if Counts(jobs[n], user) then jobs[n].bytes else 0
  {
    Snoc(jobs, n);
  }

  lemma JoinBytesSnoc(jobs: seq<JobRow>, n: nat, r: ResultRow, user: UserId)
    requires n < |jobs|
    ensures JoinBytes(jobs[..n + 1], r, user) ==
        JoinBytes(jobs[..n], r, user) + if Joins(jobs[n], r, user) then Bytes(r.size) else 0
  {
    Snoc(jobs, n);
  }

  lemma ResultBytesSnoc(jobs: seq<JobRow>, results: seq<ResultRow>, k: nat, user: UserId)
    requires k < |results|
    ensures ResultBytes(jobs, results[..k + 1], user) ==
        ResultBytes(jobs, results[..k], user) + JoinBytes(jobs, results[k], user)
  {
    Snoc(results, k);
  }

  /** The first subquery. */
  method SumVideos(jobs: seq<JobRow>, user: UserId) returns (sum: int)
    ensures sum == VideoBytes(jobs, user)
  {
    sum := 0;
    for n := 0 to |jobs|
      invariant sum == VideoBytes(jobs[..n], user)
    {
      VideoBytesSnoc(jobs, n, user);
      if jobs[n].owner == user && !jobs[n].videoDeleted {
        sum := sum + jobs[n].bytes;
      }
    }
    assert jobs[..|jobs|] == jobs;
  }

  /** The second subquery: results joined with jobs, nulls left out. */
  method SumResults(jobs: seq<JobRow>, results: seq<ResultRow>, user: UserId) returns (sum: int)
    ensures sum == ResultBytes(jobs, results, user)
  {
    hide ResultBytes, JoinBytes;
    sum := 0;
    NoBytes(jobs, user);
    for k := 0 to |results|
      invariant sum == ResultBytes(jobs, results[..k], user)
    {
      ResultBytesSnoc(jobs, results, k, user);
      ghost var before := sum;
      NoJoins(results[k], user);
      for n := 0 to |jobs|
        invariant sum == before + JoinBytes(jobs[..n], results[k], user)
      {
        JoinBytesSnoc(jobs, n, results[k], user);
        if jobs[n].id == results[k].job && jobs[n].owner == user && results[k].size.Some? {
          sum := sum + results[k].size.value;
        }
      }
      assert jobs[..|jobs|] == jobs;
    }
    assert results[..|results|] == results;
  }

  lemma NoBytes(jobs: seq<JobRow>, user: UserId)
    ensures ResultBytes(jobs, [], user) == 0
  {
  }

  lemma NoJoins(r: ResultRow, user: UserId)
    ensures JoinBytes([], r, user) == 0
  {
  }

  /** `StorageUsedByUser`. */
  method StorageUsedByUser(jobs: seq<JobRow>, results: seq<ResultRow>, user: UserId) returns (used: int)
    ensures used == Used(jobs, results, user)
  {
    var videos := SumVideos(jobs, user);
    var files := SumResults(jobs, results, user);
    used := videos + files;
  }

  function At(groups: map<UserId, int>, user: UserId): int { if user in groups then groups[user] else 0 }

  /** Adds to a group, which a first row opens. */
  function Added(groups: map<UserId, int>, user: UserId, bytes: int): map<UserId, int> {
    groups[user := At(groups, user) + bytes]
  }

  lemma AddedAt(groups: map<UserId, int>, user: UserId, bytes: int)
    ensures forall other ::
        At(Added(groups, user, bytes), other) == At(groups, other) + if other == user then bytes else 0
    ensures Added(groups, user, bytes).Keys == groups.Keys + {user}
  {
  }

  lemma HasVideoSnoc(jobs: seq<JobRow>, n: nat, user: UserId)
    requires n < |jobs|
    ensures HasVideo(jobs[..n + 1], user) <==> HasVideo(jobs[..n], user) || Counts(jobs[n], user)
  {
    Snoc(jobs, n);
    if Counts(jobs[n], user) {
      assert Counts(jobs[..n + 1][n], user);
    }
    if HasVideo(jobs[..n], user) {
      var i :| 0 <= i < n && Counts(jobs[..n][i], user);
      assert Counts(jobs[..n + 1][i], user);
    }
  }

  lemma HasJoinSnoc(jobs: seq<JobRow>, n: nat, r: ResultRow, user: UserId)
    requires n < |jobs|
    ensures HasJoin(jobs[..n + 1], r, user) <==> HasJoin(jobs[..n], r, user) || Joins(jobs[n], r, user)
  {
    Snoc(jobs, n);
    if Joins(jobs[n], r, user) {
      assert Joins(jobs[..n + 1][n], r, user);
    }
    if HasJoin(jobs[..n], r, user) {
      var i :| 0 <= i < n && Joins(jobs[..n][i], r, user);
      assert Joins(jobs[..n + 1][i], r, user);
    }
  }

  lemma HasResultSnoc(jobs: seq<JobRow>, results: seq<ResultRow>, k: nat, user: UserId)
    requires k < |results|
    ensures HasResult(jobs, results[..k + 1], user) <==>
        HasResult(jobs, results[..k], user) || HasJoin(jobs, results[k], user)
  {
    hide HasJoin;
    Snoc(results, k);
    if HasJoin(jobs, results[k], user) {
      assert HasJoin(jobs, results[..k + 1][k], user);
    }
    if HasResult(jobs, results[..k], user) {
      var i :| 0 <= i < k && HasJoin(jobs, results[..k][i], user);
      assert HasJoin(jobs, results[..k + 1][i], user);
    }
  }

  /** The inner query on jobs: one hash table, one pass. */
  method GroupVideos(jobs: seq<JobRow>) returns (groups: map<UserId, int>)
    ensures forall user :: At(groups, user) == VideoBytes(jobs, user)
    ensures forall user :: user in groups <==> HasVideo(jobs, user)
  {
    hide HasVideo;
    groups := map[];
    NoVideos();
    for n := 0 to |jobs|
      invariant forall user :: At(groups, user) == VideoBytes(jobs[..n], user)
      invariant forall user :: user in groups <==> HasVideo(jobs[..n], user)
    {
      Snoc(jobs, n);
      forall user ensures HasVideo(jobs[..n + 1], user) <==> HasVideo(jobs[..n], user) || Counts(jobs[n], user) {
        HasVideoSnoc(jobs, n, user);
      }
      if !jobs[n].videoDeleted {
        groups := Added(groups, jobs[n].owner, jobs[n].bytes);
      }
    }
    assert jobs[..|jobs|] == jobs;
  }

  lemma NoVideos()
    ensures forall user :: !HasVideo([], user)
    ensures forall r, user :: !HasJoin([], r, user)
    ensures forall jobs, user :: !HasResult(jobs, [], user)
  {
  }

  /** The inner query on results joined with jobs. */
  method GroupResults(jobs: seq<JobRow>, results: seq<ResultRow>) returns (groups: map<UserId, int>)
    ensures forall user :: At(groups, user) == ResultBytes(jobs, results, user)
    ensures forall user :: user in groups <==> HasResult(jobs, results, user)
  {
    hide HasResult, HasJoin;
    groups := map[];
    NoVideos();
    for k := 0 to |results|
      invariant forall user :: At(groups, user) == ResultBytes(jobs, results[..k], user)
      invariant forall user :: user in groups <==> HasResult(jobs, results[..k], user)
    {
      Snoc(results, k);
      forall user
        ensures HasResult(jobs, results[..k + 1], user) <==>
            HasResult(jobs, results[..k], user) || HasJoin(jobs, results[k], user)
      {
        HasResultSnoc(jobs, results, k, user);
      }
      groups := GroupJoin(jobs, results[k], groups);
    }
    assert results[..|results|] == results;
  }

  method GroupJoin(jobs: seq<JobRow>, r: ResultRow, before: map<UserId, int>) returns (groups: map<UserId, int>)
    ensures forall user :: At(groups, user) == At(before, user) + JoinBytes(jobs, r, user)
    ensures forall user :: user in groups <==> user in before || HasJoin(jobs, r, user)
  {
    hide HasJoin;
    groups := before;
    NoVideos();
    for n := 0 to |jobs|
      invariant forall user :: At(groups, user) == At(before, user) + JoinBytes(jobs[..n], r, user)
      invariant forall user :: user in groups <==> user in before || HasJoin(jobs[..n], r, user)
    {
      Snoc(jobs, n);
      forall user ensures HasJoin(jobs[..n + 1], r, user) <==> HasJoin(jobs[..n], r, user) || Joins(jobs[n], r, user) {
        HasJoinSnoc(jobs, n, r, user);
      }
      if jobs[n].id == r.job {
        groups := Added(groups, jobs[n].owner, Bytes(r.size));
      }
    }
    assert jobs[..|jobs|] == jobs;
  }

  /** The groups of one side added for some of its users. */
  ghost predicate Merged(groups: map<UserId, int>, before: map<UserId, int>, side: map<UserId, int>,
          done: set<UserId>) {
    && (forall user :: At(groups, user) == At(before, user) + if user in done then At(side, user) else 0)
    && (forall user :: user in groups <==> user in before || user in done)
  }

  lemma MergeStep(groups: map<UserId, int>, before: map<UserId, int>, side: map<UserId, int>,
          done: set<UserId>, user: UserId)
    requires Merged(groups, before, side, done) && user in side && user !in done
    ensures Merged(Added(groups, user, side[user]), before, side, done + {user})
  {
    AddedAt(groups, user, side[user]);
    AtKey(side, user);
    hide At, Added;
  }

  lemma MergeNone(before: map<UserId, int>, side: map<UserId, int>)
    ensures Merged(before, before, side, {})
  {
  }

  lemma MergeDone(groups: map<UserId, int>, before: map<UserId, int>, side: map<UserId, int>, done: set<UserId>)
    requires Merged(groups, before, side, done) && done == side.Keys
    ensures forall user :: At(groups, user) == At(before, user) + At(side, user)
    ensures forall user :: user in groups <==> user in before || user in side
  {
  }

  /** The outer query: the groups of one side added to those so far, in any order. */
  method AddGroups(before: map<UserId, int>, side: map<UserId, int>) returns (groups: map<UserId, int>)
    ensures forall user :: At(groups, user) == At(before, user) + At(side, user)
    ensures forall user :: user in groups <==> user in before || user in side
  {
    hide *;
    groups := before;
    var todo := side.Keys;
    assert Merged(groups, before, side, {}) by { MergeNone(before, side); }
    ghost var done: set<UserId> := {};
    while todo != {}
      invariant Merged(groups, before, side, done)
      invariant done == side.Keys - todo && todo <= side.Keys
      decreases |todo|
    {
      var user :| user in todo;
      assert user in side.Keys;
      MergeStep(groups, before, side, done, user);
      groups := Added(groups, user, side[user]);
      assert done + {user} == side.Keys - (todo - {user});
      done := done + {user};
      todo := todo - {user};
    }
    MergeDone(groups, before, side, done);
  }

  lemma AtKey(groups: map<UserId, int>, user: UserId)
    requires user in groups
    ensures At(groups, user) == groups[user]
  {
  }

  /**
   `StorageUsedByUsers`: in every state of the tables the grouped query agrees with the
   query per user, and leaves out exactly the users who store nothing.
   */
  method StorageUsedByUsers(jobs: seq<JobRow>, results: seq<ResultRow>) returns (groups: map<UserId, int>)
    ensures forall user :: At(groups, user) == Used(jobs, results, user)
    ensures forall user :: user in groups <==> HasVideo(jobs, user) || HasResult(jobs, results, user)
  {
    hide HasVideo, HasResult;
    var videos := GroupVideos(jobs);
    var files := GroupResults(jobs, results);
    groups := AddGroups(map[], videos);
    groups := AddGroups(groups, files);
  }

  // ---------------------------------------------------------- what changes the sum

  /** A new job adds its video; results of other jobs are not joined with it. */
  lemma {:induction false} NewJobAdds(jobs: seq<JobRow>, results: seq<ResultRow>, j: JobRow, user: UserId)
    requires forall k :: 0 <= k < |results| ==> results[k].job != j.id
    ensures Used(jobs + [j], results, user) == Used(jobs, results, user) + if Counts(j, user) then j.bytes else 0
    decreases |results|
  {
    assert (jobs + [j])[..|jobs|] == jobs;
    if results != [] {
      NewJobAdds(jobs, results[..|results| - 1], j, user);
    }
  }

  /** Marking a video as deleted frees exactly its bytes, for its owner only. */
  lemma {:induction false} DeletedVideoFrees(jobs: seq<JobRow>, results: seq<ResultRow>, i: nat, user: UserId)
    requires i < |jobs| && !jobs[i].videoDeleted
    ensures Used(jobs[i := jobs[i].(videoDeleted := true)], results, user)
         == Used(jobs, results, user) - if jobs[i].owner == user then jobs[i].bytes else 0
  {
    VideosFreed(jobs, i, user);
    ResultsUnmoved(jobs, results, i, user);
  }

  lemma {:induction false} VideosFreed(jobs: seq<JobRow>, i: nat, user: UserId)
    requires i < |jobs| && !jobs[i].videoDeleted
    ensures VideoBytes(jobs[i := jobs[i].(videoDeleted := true)], user)
         == VideoBytes(jobs, user) - if jobs[i].owner == user then jobs[i].bytes else 0
    decreases |jobs|
  {
    var n := |jobs| - 1;
    var after := jobs[i := jobs[i].(videoDeleted := true)];
    if i < n {
      VideosFreed(jobs[..n], i, user);
      assert after[..n] == jobs[..n][i := jobs[i].(videoDeleted := true)];
    } else {
      assert after[..n] == jobs[..n];
    }
  }

  lemma {:induction false} ResultsUnmoved(jobs: seq<JobRow>, results: seq<ResultRow>, i: nat, user: UserId)
    requires i < |jobs|
    ensures ResultBytes(jobs[i := jobs[i].(videoDeleted := true)], results, user) == ResultBytes(jobs, results, user)
    decreases |results|
  {
    if results != [] {
      ResultsUnmoved(jobs, results[..|results| - 1], i, user);
      JoinUnmoved(jobs, results[|results| - 1], i, user);
    }
  }

  lemma {:induction false} JoinUnmoved(jobs: seq<JobRow>, r: ResultRow, i: nat, user: UserId)
    requires i < |jobs|
    ensures JoinBytes(jobs[i := jobs[i].(videoDeleted := true)], r, user) == JoinBytes(jobs, r, user)
    decreases |jobs|
  {
    var n := |jobs| - 1;
    var after := jobs[i := jobs[i].(videoDeleted := true)];
    if i < n {
      JoinUnmoved(jobs[..n], r, i, user);
      assert after[..n] == jobs[..n][i := jobs[i].(videoDeleted := true)];
    } else {
      assert after[..n] == jobs[..n];
    }
  }

  /** No two jobs have one id. */
  predicate IdsUnique(jobs: seq<JobRow>) { forall a, b :: 0 <= a < b < |jobs| ==> jobs[a].id != jobs[b].id }

  lemma {:induction false} JoinsOne(jobs: seq<JobRow>, r: ResultRow, user: UserId, i: nat)
    requires IdsUnique(jobs) && i < |jobs| && jobs[i].id == r.job
    ensures JoinBytes(jobs, r, user) == if jobs[i].owner == user && r.size.Some? then r.size.value else 0
    decreases |jobs|
  {
    var n := |jobs| - 1;
    if i < n {
      JoinsOne(jobs[..n], r, user, i);
    } else {
      JoinsNone(jobs[..n], r, user);
    }
  }

  lemma {:induction false} JoinsNone(jobs: seq<JobRow>, r: ResultRow, user: UserId)
    requires forall j :: j in jobs ==> j.id != r.job
    ensures JoinBytes(jobs, r, user) == 0
    decreases |jobs|
  {
    if jobs != [] {
      var n := |jobs| - 1;
      assert jobs[n] in jobs && forall j :: j in jobs[..n] ==> j in jobs;
      JoinsNone(jobs[..n], r, user);
    }
  }

  /** A new result adds its size, when it is known, for the owner of its job and for nobody else. */
  lemma NewResultAdds(jobs: seq<JobRow>, results: seq<ResultRow>, i: nat, size: Option<int>, user: UserId)
    requires IdsUnique(jobs) && i < |jobs|
    ensures Used(jobs, results + [ResultRow(jobs[i].id, size)], user)
         == Used(jobs, results, user) + if jobs[i].owner == user && size.Some? then size.value else 0
  {
    var after := results + [ResultRow(jobs[i].id, size)];
    assert after[..|after| - 1] == results;
    JoinsOne(jobs, ResultRow(jobs[i].id, size), user, i);
  }

  /** Nothing is stored before the first row. */
  lemma NothingStored(user: UserId)
    ensures Used([], [], user) == 0
  {
  }
}
