/**
 The claim query under row locks (api/internal/jobs/jobs.go:130-149): a transaction picks and
 locks a row, skipping rows others have locked, and later commits or aborts. Any number of
 transactions run at once; every other statement waits for the locks on the rows it writes.

 A queued period of a job runs from when it enters the queue until it leaves it.
 */
module ClaimLocks {
  import opened Wrappers
  import opened JobTable

  type TxId = nat

  datatype Lock = Lock(tx: TxId, worker: string, classes: set<string>)

  /** A claim that was returned to its worker. */
  datatype Return = Return(tx: TxId, id: JobId, period: nat)

  datatype State = State(rows: Rows, locks: map<JobId, Lock>, periods: map<JobId, nat>, log: seq<Return>)

  const EMPTY := State(map[], map[], map[], [])

  datatype Act =
    | Pick(tx: TxId, worker: string, classes: set<string>, taken: Option<JobId>)
    | Commit(tx: TxId, id: JobId)
    | Abort(tx: TxId, id: JobId)
    | Other(statement: Statement)

  datatype Step = Step(act: Act, now: Time)

  function Period(s: State, id: JobId): nat { if id in s.periods then s.periods[id] else 0 }

  predicate Holds(s: State, tx: TxId, id: JobId) { id in s.locks && s.locks[id].tx == tx }

  predicate Possible(s: State, step: Step) {
    match step.act
    case Pick(tx, worker, classes, taken) =>
      && (forall id :: id in s.locks ==> s.locks[id].tx != tx)
      && Enabled(s.rows, Claim(worker, classes, s.locks.Keys, taken))
    case Commit(tx, id) => Holds(s, tx, id)
    case Abort(tx, id) => Holds(s, tx, id)
    case Other(st) =>
      && !st.Claim? && Enabled(s.rows, st)
      && forall id :: id in s.locks ==>
        st != Delete(id) && (id in s.rows ==> Written(s.rows[id], id, st, step.now).None?)
  }

  predicate Enters(before: Rows, after: Rows, id: JobId) {
    id in after && after[id].status == Queued && (id in before ==> before[id].status != Queued)
  }

  /** The claim a commit makes visible: by then only the picked row matters. */
  function ClaimOf(s: State, id: JobId): Statement
    requires id in s.locks
  {
    Claim(s.locks[id].worker, s.locks[id].classes, s.rows.Keys - {id}, Some(id))
  }

  function Next(s: State, step: Step): State {
    match step.act
    case Pick(tx, worker, classes, None) => s
    case Pick(tx, worker, classes, Some(id)) => s.(locks := s.locks[id := Lock(tx, worker, classes)])
    case Commit(tx, id) =>
      if id !in s.locks then s else
      s.(rows := After(s.rows, ClaimOf(s, id), step.now), locks := s.locks - {id},
         log := s.log + [Return(tx, id, Period(s, id))])
    case Abort(_, id) => s.(locks := s.locks - {id})
    case Other(st) =>
      var rows := After(s.rows, st, step.now);
      s.(rows := rows,
         periods := map id | id in s.periods.Keys + rows.Keys ::
           Period(s, id) + if Enters(s.rows, rows, id) then 1 else 0)
  }

  // ------------------------------------------------------------------- invariants

  /** Locked rows are queued, of the claim's classes, and each transaction holds one. */
  predicate LocksOk(s: State) {
    && (forall id :: id in s.locks ==>
          id in s.rows && s.rows[id].status == Queued && s.rows[id].workerClass in s.locks[id].classes)
    && (forall a, b :: a in s.locks && b in s.locks && s.locks[a].tx == s.locks[b].tx ==> a == b)
  }

  /** Returns are of past periods; of the current one only when the job has left the queue. */
  predicate ReturnsPast(s: State) {
    forall r :: r in s.log ==>
      && r.period <= Period(s, r.id)
      && (r.id in s.rows && s.rows[r.id].status == Queued ==> r.period < Period(s, r.id))
  }

  /** No job is returned twice in one queued period. */
  predicate ReturnedOnce(s: State) {
    forall i, j :: 0 <= i < j < |s.log| ==> s.log[i].id != s.log[j].id || s.log[i].period != s.log[j].period
  }

  lemma StepKeepsLocks(s: State, step: Step)
    requires Possible(s, step) && LocksOk(s)
    ensures LocksOk(Next(s, step))
  {
    if step.act.Other? {
      OtherKeepsLocked(s, step);
    }
  }

  /** A statement leaves locked rows as they are. */
  lemma OtherKeepsLocked(s: State, step: Step)
    requires Possible(s, step) && LocksOk(s) && step.act.Other?
    ensures forall id :: id in s.locks ==>
      id in Next(s, step).rows && Next(s, step).rows[id] == s.rows[id] && Period(Next(s, step), id) == Period(s, id)
  {
    var t := Next(s, step);
    forall id | id in s.locks ensures id in t.rows && t.rows[id] == s.rows[id] && Period(t, id) == Period(s, id) {
      assert id in s.rows;
    }
  }

  lemma CommitKeepsReturns(s: State, step: Step)
    requires Possible(s, step) && LocksOk(s) && ReturnsPast(s) && ReturnedOnce(s) && step.act.Commit?
    ensures ReturnsPast(Next(s, step)) && ReturnedOnce(Next(s, step))
  {
    var t, id := Next(s, step), step.act.id;
    assert t.rows[id].status == Running;
    assert forall other :: other in s.rows && other != id ==> t.rows[other] == s.rows[other];
    assert forall other :: Period(t, other) == Period(s, other);
    hide After, Possible;
  }

  /** A period ends when the job leaves the queue, and a new one begins when it comes back. */
  lemma PeriodsGrow(s: State, step: Step, id: JobId)
    requires Possible(s, step) && step.act.Other?
    ensures Period(Next(s, step), id) == Period(s, id) + if Enters(s.rows, Next(s, step).rows, id) then 1 else 0
  {
    hide After, Possible, Enters;
    assert Enters(s.rows, Next(s, step).rows, id) ==>
      id in Next(s, step).rows by { EntersIn(s.rows, Next(s, step).rows, id); }
  }

  lemma EntersIn(before: Rows, after: Rows, id: JobId)
    ensures Enters(before, after, id) ==> id in after
    ensures id in after && after[id].status == Queued ==>
      Enters(before, after, id) || (id in before && before[id].status == Queued)
  {
  }

  lemma StepKeepsReturns(s: State, step: Step)
    requires Possible(s, step) && LocksOk(s) && ReturnsPast(s) && ReturnedOnce(s)
    ensures ReturnsPast(Next(s, step)) && ReturnedOnce(Next(s, step))
  {
    var t := Next(s, step);
    if step.act.Commit? {
      CommitKeepsReturns(s, step);
    } else if step.act.Other? {
      assert t.log == s.log;
      hide Next, Possible, Enters, Period;
      forall r | r in t.log
        ensures r.period <= Period(t, r.id)
        ensures r.id in t.rows && t.rows[r.id].status == Queued ==> r.period < Period(t, r.id)
      {
        PeriodsGrow(s, step, r.id);
        EntersIn(s.rows, t.rows, r.id);
      }
    } else {
      assert t.log == s.log && t.rows == s.rows && t.periods == s.periods;
      hide Next, Possible;
    }
  }

  /** A commit is a claim statement of the table, so the table stays in order. */
  lemma StepKeepsTableOk(s: State, step: Step)
    requires Possible(s, step) && LocksOk(s) && TableOk(s.rows)
    ensures TableOk(Next(s, step).rows)
  {
    match step.act
    case Commit(_, id) => StatementKeepsTable(s.rows, ClaimOf(s, id), step.now);
    case Other(st) => StatementKeepsTable(s.rows, st, step.now);
    case _ =>
  }

  // -------------------------------------------------------------------- over runs

  /** The state after the first n steps from the empty table. */
  function StateAt(run: seq<Step>, n: nat): State
    requires n <= |run|
  {
    if n == 0 then EMPTY else Next(StateAt(run, n - 1), run[n - 1])
  }

  predicate ValidRun(run: seq<Step>) { forall i :: 0 <= i < |run| ==> Possible(StateAt(run, i), run[i]) }

  /**
   Under any number of concurrent claims, in every run: no two claims return the same job in
   one queued period, and the table keeps its invariant.
   */
  lemma {:induction false} NoDoubleClaim(run: seq<Step>, n: nat)
    requires ValidRun(run) && n <= |run|
    ensures LocksOk(StateAt(run, n)) && ReturnsPast(StateAt(run, n))
    ensures ReturnedOnce(StateAt(run, n)) && TableOk(StateAt(run, n).rows)
    decreases n
  {
    hide Possible, Next, RowOk;
    if n > 0 {
      NoDoubleClaim(run, n - 1);
      StepKeepsLocks(StateAt(run, n - 1), run[n - 1]);
      StepKeepsReturns(StateAt(run, n - 1), run[n - 1]);
      StepKeepsTableOk(StateAt(run, n - 1), run[n - 1]);
    }
  }

  /** The transaction holds the lock, and the row and its period are as they were at the pick. */
  predicate Reserved(s: State, picked: State, lock: Lock, id: JobId) {
    && id in s.locks && s.locks[id] == lock
    && id in s.rows && id in picked.rows && s.rows[id] == picked.rows[id]
    && Period(s, id) == Period(picked, id)
  }

  predicate IsPick(step: Step, lock: Lock, id: JobId) {
    step.act == Pick(lock.tx, lock.worker, lock.classes, Some(id))
  }

  lemma LockedStep(s: State, step: Step, id: JobId)
    requires Possible(s, step) && LocksOk(s) && id in Next(s, step).locks
    ensures
      var t := Next(s, step);
      if id in s.locks then Reserved(t, s, s.locks[id], id)
      else
        && IsPick(step, t.locks[id], id) && Oldest(s.rows, t.locks[id].classes, s.locks.Keys, id)
        && Reserved(t, s, t.locks[id], id)
  {
    if step.act.Other? {
      OtherKeepsLocked(s, step);
    }
  }

  lemma ReservedLock(t: State, s: State, lock: Lock, id: JobId)
    requires Reserved(t, s, lock, id)
    ensures id in t.locks && t.locks[id] == lock
  {
  }

  lemma ReservedOn(picked: State, s: State, t: State, lock: Lock, id: JobId)
    requires Reserved(s, picked, lock, id) && Reserved(t, s, lock, id)
    ensures Reserved(t, picked, lock, id)
  {
  }

  /**
   Every lock in every run goes back to the pick that took it: there the job was an oldest
   unlocked queued job of the classes, and since then nobody has touched it.
   */
  lemma {:induction false} LockComesFromPick(run: seq<Step>, n: nat, id: JobId) returns (k: nat)
    requires ValidRun(run) && n <= |run| && id in StateAt(run, n).locks
    ensures k < n && IsPick(run[k], StateAt(run, n).locks[id], id)
    ensures Oldest(StateAt(run, k).rows, StateAt(run, n).locks[id].classes, StateAt(run, k).locks.Keys, id)
    ensures forall m :: k < m <= n ==> Reserved(StateAt(run, m), StateAt(run, k), StateAt(run, n).locks[id], id)
    decreases n
  {
    hide Possible, Next, Oldest, TableOk, ReturnsPast, ReturnedOnce, LocksOk, IsPick, Reserved;
    assert n > 0;
    var s, t := StateAt(run, n - 1), StateAt(run, n);
    NoDoubleClaim(run, n - 1);
    LockedStep(s, run[n - 1], id);
    ReservedLock(t, s, if id in s.locks then s.locks[id] else t.locks[id], id);
    if id in s.locks {
      k := LockComesFromPick(run, n - 1, id);
      ReservedOn(StateAt(run, k), s, t, t.locks[id], id);
    } else {
      k := n - 1;
    }
  }

  /**
   A claim that returns: the job was the oldest it could take when it was picked, and the row
   it writes is that row, claimed for the picking worker.
   */
  lemma ReturnedWasOldest(run: seq<Step>, n: nat) returns (k: nat)
    requires ValidRun(run) && n < |run| && run[n].act.Commit?
    ensures k < n && run[k].act.Pick? && run[k].act.tx == run[n].act.tx && run[k].act.taken == Some(run[n].act.id)
    ensures Oldest(StateAt(run, k).rows, run[k].act.classes, StateAt(run, k).locks.Keys, run[n].act.id)
    ensures
      var id := run[n].act.id;
      && id in StateAt(run, k).rows && id in StateAt(run, n + 1).rows
      && StateAt(run, n + 1).rows[id] == ClaimedRow(StateAt(run, k).rows[id], run[k].act.worker, run[n].now)
  {
    var s := StateAt(run, n);
    var id := run[n].act.id;
    NoDoubleClaim(run, n);
    assert Possible(s, run[n]);
    CommitWrites(s, run[n]);
    k := LockComesFromPick(run, n, id);
    hide Possible, Next, Oldest;
    assert Reserved(StateAt(run, n), StateAt(run, k), s.locks[id], id);
  }

  lemma CommitWrites(s: State, step: Step)
    requires Possible(s, step) && LocksOk(s) && step.act.Commit?
    ensures step.act.id in s.rows && step.act.id in Next(s, step).rows
    ensures Next(s, step).rows[step.act.id] == ClaimedRow(s.rows[step.act.id], s.locks[step.act.id].worker, step.now)
  {
  }

  /** A pick comes back empty exactly when every queued job of its classes is locked by another claim. */
  lemma EmptyPick(s: State, tx: TxId, worker: string, classes: set<string>, now: Time)
    requires forall id :: id in s.locks ==> s.locks[id].tx != tx
    ensures Possible(s, Step(Pick(tx, worker, classes, None), now)) <==>
      forall id :: id in s.rows && s.rows[id].status == Queued && s.rows[id].workerClass in classes ==> id in s.locks
  {
  }

  /** A claim is never stuck: one of the answers of the pick is always possible. */
  lemma {:induction false} SomePick(rows: Rows, classes: set<string>, locked: set<JobId>, among: set<JobId>)
    returns (taken: Option<JobId>)
    requires among <= rows.Keys
    ensures taken.Some? ==> taken.value in among && Claimable(rows, classes, locked, taken.value)
    ensures forall id :: id in among && Claimable(rows, classes, locked, id) ==>
      taken.Some? && rows[taken.value].createdAt <= rows[id].createdAt
    decreases |among|
  {
    taken := None;
    if among != {} {
      var id :| id in among;
      var others := among - {id};
      assert among == others + {id};
      taken := SomePick(rows, classes, locked, others);
      if Claimable(rows, classes, locked, id) && (taken.None? || rows[id].createdAt < rows[taken.value].createdAt) {
        taken := Some(id);
      }
    }
  }

  /** So long as a queued job of its classes is unlocked a pick takes one. */
  lemma PickAnswers(s: State, tx: TxId, worker: string, classes: set<string>, now: Time) returns (taken: Option<JobId>)
    requires forall id :: id in s.locks ==> s.locks[id].tx != tx
    ensures Possible(s, Step(Pick(tx, worker, classes, taken), now))
    ensures taken.None? <==> Possible(s, Step(Pick(tx, worker, classes, None), now))
  {
    taken := SomePick(s.rows, classes, s.locks.Keys, s.rows.Keys);
  }
}
