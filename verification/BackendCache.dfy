/**
 The model cache (worker/subextractor/backends/__init__.py:21-96): a look without the lock,
 then a look and a build under it. Threads run one step at a time in any order; a build may
 raise, and `unload_all` empties the cache without taking the lock.
 */
module BackendCache {
  import opened Wrappers

  type Thread = nat
  type Key = nat
  type Instance = nat

  /** Where a thread is in `get_backend`. */
  datatype Place =
    | Entered(key: Key)
    | Waiting(key: Key)
    | Holding(key: Key)
    | Building(key: Key)
    | Leaving(key: Key, result: Option<Instance>)
    | Returned(key: Key, instance: Instance)
    | Raised(key: Key)

  datatype Build = Build(key: Key, instance: Instance)

  datatype State = State(cache: map<Key, Instance>, lock: Option<Thread>, threads: map<Thread, Place>,
                         builds: seq<Build>, unloads: nat)

  const EMPTY := State(map[], None, map[], [], 0)

  datatype Step =
    | Call(thread: Thread, key: Key)
    | FirstLook(thread: Thread)
    | Acquire(thread: Thread)
    | SecondLook(thread: Thread)
    | FinishBuild(thread: Thread, built: Option<Instance>)
    | Release(thread: Thread)
    | Unload

  predicate At(s: State, t: Thread, place: Place) { t in s.threads && s.threads[t] == place }

  /** Between acquiring the lock and releasing it. */
  predicate Inside(p: Place) { p.Holding? || p.Building? || p.Leaving? }

  predicate Possible(s: State, step: Step) {
    match step
    case Call(t, _) => t in s.threads ==> s.threads[t].Returned? || s.threads[t].Raised?
    case FirstLook(t) => t in s.threads && s.threads[t].Entered?
    case Acquire(t) => t in s.threads && s.threads[t].Waiting? && s.lock.None?
    case SecondLook(t) => t in s.threads && s.threads[t].Holding?
    case FinishBuild(t, built) =>
      && t in s.threads && s.threads[t].Building?
      && (built.Some? ==> forall b :: b in s.builds ==> b.instance != built.value)
    case Release(t) => t in s.threads && s.threads[t].Leaving?
    case Unload => true
  }

  function Moved(s: State, t: Thread, place: Place): State { s.(threads := s.threads[t := place]) }

  function Next(s: State, step: Step): State {
    if !Possible(s, step) then s
    else match step
      case Call(t, key) => Moved(s, t, Entered(key))
      case FirstLook(t) =>
        var key := s.threads[t].key;
        Moved(s, t, if key in s.cache then Returned(key, s.cache[key]) else Waiting(key))
      case Acquire(t) => Moved(s, t, Holding(s.threads[t].key)).(lock := Some(t))
      case SecondLook(t) =>
        var key := s.threads[t].key;
        Moved(s, t, if key in s.cache then Leaving(key, Some(s.cache[key])) else Building(key))
      case FinishBuild(t, built) =>
        var key := s.threads[t].key;
        var s1 := Moved(s, t, Leaving(key, built));
        if built.None? then s1
        else s1.(cache := s.cache[key := built.value], builds := s.builds + [Build(key, built.value)])
      case Release(t) =>
        var p := s.threads[t];
        Moved(s, t, if p.result.Some? then Returned(p.key, p.result.value) else Raised(p.key)).(lock := None)
      case Unload => s.(cache := map[], unloads := s.unloads + 1)
  }

  // ------------------------------------------------------------------- invariants

  /** Exactly the holder of the lock is inside. */
  predicate LockOk(s: State) {
    && (forall t :: t in s.threads ==> (Inside(s.threads[t]) <==> s.lock == Some(t)))
    && (s.lock.Some? ==> s.lock.value in s.threads)
  }

  /** What is being built is not in the cache. */
  predicate BuildsMissing(s: State) {
    forall t :: t in s.threads && s.threads[t].Building? ==> s.threads[t].key !in s.cache
  }

  function Given(p: Place): Option<Instance> {
    match p
    case Leaving(_, result) => result
    case Returned(_, instance) => Some(instance)
    case _ => None
  }

  /** Whatever is cached or handed out was built for its key. */
  predicate AllBuilt(s: State) {
    && (forall key :: key in s.cache ==> Build(key, s.cache[key]) in s.builds)
    && (forall t :: t in s.threads && Given(s.threads[t]).Some? ==>
          Build(s.threads[t].key, Given(s.threads[t]).value) in s.builds)
  }

  function CountBuilds(builds: seq<Build>, key: Key): nat {
    if builds == [] then 0
    else CountBuilds(builds[..|builds| - 1], key) + if builds[|builds| - 1].key == key then 1 else 0
  }

  /** A key is built once per emptying of the cache, and once more if it is there. */
  ghost predicate CountsOk(s: State) {
    forall key :: CountBuilds(s.builds, key) <= s.unloads + if key in s.cache then 1 else 0
  }

  ghost predicate Safe(s: State) { LockOk(s) && BuildsMissing(s) && AllBuilt(s) && CountsOk(s) }

  lemma StepKeepsLock(s: State, step: Step)
    requires LockOk(s) && BuildsMissing(s)
    ensures LockOk(Next(s, step)) && BuildsMissing(Next(s, step))
  {
  }

  lemma StepKeepsBuilt(s: State, step: Step)
    requires AllBuilt(s)
    ensures AllBuilt(Next(s, step))
  {
    var t := Next(s, step);
    assert forall b :: b in s.builds ==> b in t.builds;
    if step.FinishBuild? && Possible(s, step) && step.built.Some? {
      assert t.builds[|t.builds| - 1] == Build(s.threads[step.thread].key, step.built.value);
    }
  }

  lemma StepKeepsCounts(s: State, step: Step)
    requires BuildsMissing(s) && CountsOk(s)
    ensures CountsOk(Next(s, step))
  {
    var t := Next(s, step);
    forall key ensures CountBuilds(t.builds, key) <= t.unloads + if key in t.cache then 1 else 0 {
      assert CountBuilds(s.builds, key) <= s.unloads + if key in s.cache then 1 else 0;
      if step.FinishBuild? && Possible(s, step) && step.built.Some? {
        assert t.builds[..|t.builds| - 1] == s.builds;
      }
    }
  }

  // -------------------------------------------------------------------- over runs

  function StateAt(run: seq<Step>, n: nat): State
    requires n <= |run|
  {
    if n == 0 then EMPTY else Next(StateAt(run, n - 1), run[n - 1])
  }

  lemma {:induction false} AlwaysSafe(run: seq<Step>, n: nat)
    requires n <= |run|
    ensures Safe(StateAt(run, n))
    decreases n
  {
    hide Next, LockOk, BuildsMissing, AllBuilt, CountsOk;
    if n == 0 {
      EmptySafe();
    } else {
      AlwaysSafe(run, n - 1);
      StepKeepsLock(StateAt(run, n - 1), run[n - 1]);
      StepKeepsBuilt(StateAt(run, n - 1), run[n - 1]);
      StepKeepsCounts(StateAt(run, n - 1), run[n - 1]);
    }
  }

  lemma EmptySafe()
    ensures LockOk(EMPTY) && BuildsMissing(EMPTY) && AllBuilt(EMPTY) && CountsOk(EMPTY)
  {
  }

  /** In every interleaving at most one build is in progress. */
  lemma OneBuildAtATime(run: seq<Step>, n: nat, t: Thread, u: Thread)
    requires n <= |run|
    requires t in StateAt(run, n).threads && StateAt(run, n).threads[t].Building?
    requires u in StateAt(run, n).threads && StateAt(run, n).threads[u].Building?
    ensures t == u
  {
    AlwaysSafe(run, n);
    hide Next;
  }

  /** In every interleaving a key is built at most once more often than the cache was emptied. */
  lemma BuiltOncePerUnload(run: seq<Step>, n: nat, key: Key)
    requires n <= |run|
    ensures CountBuilds(StateAt(run, n).builds, key) <= StateAt(run, n).unloads + 1
  {
    AlwaysSafe(run, n);
    hide Next, CountBuilds, LockOk, BuildsMissing, AllBuilt;
  }

  lemma {:induction false} CountTwo(builds: seq<Build>, i: nat, j: nat)
    requires i < j < |builds| && builds[i].key == builds[j].key
    ensures CountBuilds(builds, builds[i].key) >= 2
    decreases |builds|
  {
    var n := |builds| - 1;
    if j < n {
      CountTwo(builds[..n], i, j);
    } else {
      CountOne(builds[..n], i);
    }
  }

  lemma {:induction false} CountOne(builds: seq<Build>, i: nat)
    requires i < |builds|
    ensures CountBuilds(builds, builds[i].key) >= 1
    decreases |builds|
  {
    var n := |builds| - 1;
    if i < n {
      CountOne(builds[..n], i);
    }
  }

  lemma {:induction false} NothingForgotten(run: seq<Step>, m: nat, n: nat)
    requires m <= n <= |run|
    ensures StateAt(run, m).builds <= StateAt(run, n).builds && StateAt(run, m).unloads <= StateAt(run, n).unloads
    decreases n
  {
    if m < n {
      NothingForgotten(run, m, n - 1);
    }
  }

  /**
   In every interleaving without an unload, all calls with one key return the same instance,
   whenever they return.
   */
  lemma SameInstance(run: seq<Step>, m: nat, n: nat, t: Thread, u: Thread, a: Place, b: Place)
    requires m <= n <= |run| && StateAt(run, n).unloads == 0
    requires At(StateAt(run, m), t, a) && At(StateAt(run, n), u, b)
    requires a.Returned? && b.Returned? && a.key == b.key
    ensures a.instance == b.instance
  {
    hide Next;
    AlwaysSafe(run, m);
    AlwaysSafe(run, n);
    NothingForgotten(run, m, n);
    var builds := StateAt(run, n).builds;
    assert Given(StateAt(run, m).threads[t]) == Some(a.instance);
    assert Given(StateAt(run, n).threads[u]) == Some(b.instance);
    assert Build(a.key, a.instance) in StateAt(run, m).builds;
    assert Build(b.key, b.instance) in builds;
    var i :| 0 <= i < |StateAt(run, m).builds| && StateAt(run, m).builds[i] == Build(a.key, a.instance);
    var j :| 0 <= j < |builds| && builds[j] == Build(b.key, b.instance);
    assert builds[i] == Build(a.key, a.instance);
    BuiltOncePerUnload(run, n, a.key);
    if i < j {
      CountTwo(builds, i, j);
    } else if j < i {
      CountTwo(builds, j, i);
    }
  }

  /** An unload is what it takes: after one, a second call can return another instance of the same key. */
  lemma UnloadRebuilds(key: Key)
    ensures exists run: seq<Step> ::
      && |run| == 13 && StateAt(run, 6).threads == map[0 := Returned(key, 0)]
      && StateAt(run, 13).threads == map[0 := Returned(key, 1)]
  {
    var round := [Call(0, key), FirstLook(0), Acquire(0), SecondLook(0)];
    var run := round + [FinishBuild(0, Some(0)), Release(0), Unload] + round + [FinishBuild(0, Some(1)), Release(0)];
    var held := State(map[], Some(0), map[0 := Building(key)], [], 0);
    assert StateAt(run, 1) == State(map[], None, map[0 := Entered(key)], [], 0);
    assert StateAt(run, 2) == State(map[], None, map[0 := Waiting(key)], [], 0);
    assert StateAt(run, 4) == held;
    var s6 := State(map[key := 0], None, map[0 := Returned(key, 0)], [Build(key, 0)], 0);
    assert StateAt(run, 6) == s6;
    assert StateAt(run, 7) == s6.(cache := map[], unloads := 1);
    assert StateAt(run, 9).threads == map[0 := Waiting(key)];
    assert StateAt(run, 11) == State(map[], Some(0), map[0 := Building(key)], [Build(key, 0)], 1);
    assert StateAt(run, 13).threads == map[0 := Returned(key, 1)];
  }
}
