// A resource policy bounds what runs: under lawful transactions the occupied slots of a
// class never rise above its target, and those of ordinary tasks never into the reserve.

module Limits {
  import opened Types
  import opened RowOrder
  import opened Admission
  import opened Tables
  import opened Integrity
  import opened Lifecycle

  function OrdinaryIds(tasks: TaskTable, class_: Text): set<TaskId> {
    set id | id in ActiveIds(tasks, class_) && !tasks[id].IsRecovery()
  }

  function RecoveryIds(tasks: TaskTable, class_: Text): set<TaskId> {
    set id | id in ActiveIds(tasks, class_) && tasks[id].IsRecovery()
  }

  lemma SubsetSize<T>(a: set<T>, b: set<T>)
    requires a <= b
    ensures |a| <= |b|
  {
    assert b == a + (b - a);
  }

  lemma ActiveSplits(tasks: TaskTable, class_: Text)
    ensures ActiveCount(tasks, class_) == |OrdinaryIds(tasks, class_)| + |RecoveryIds(tasks, class_)|
  {
    assert ActiveIds(tasks, class_) == OrdinaryIds(tasks, class_) + RecoveryIds(tasks, class_);
  }

  /** The class keeps within its policy: target T for all tasks, T - R for ordinary ones. */
  ghost predicate Within(policy: ResourcePolicy, tasks: TaskTable, class_: Text) {
    && ActiveCount(tasks, class_) <= policy.targetWorkers
    && |OrdinaryIds(tasks, class_)| <= policy.targetWorkers - policy.recoveryReserve
  }

  lemma MarkOrdinary(tasks: TaskTable, row: TaskRow, now: Time, class_: Text)
    requires KeyedById(tasks) && row in PendingRows(tasks)
    ensures |OrdinaryIds(MarkSubmitting(tasks, row, now), class_)|
         == |OrdinaryIds(tasks, class_)| + (if row.Class() == class_ && !row.IsRecovery() then 1 else 0)
  {
    var tasks' := MarkSubmitting(tasks, row, now);
    if row.Class() == class_ && !row.IsRecovery() {
      assert OrdinaryIds(tasks', class_) == OrdinaryIds(tasks, class_) + {row.Id()};
    } else {
      assert OrdinaryIds(tasks', class_) == OrdinaryIds(tasks, class_);
    }
  }

  /**
   * A batch never raises the slots of a class above its target, nor those of its ordinary
   * tasks above what the reserve leaves, even when a shrunk policy finds more occupied.
   */
  lemma {:induction false} AdmitNeverExceeds(policies: Policies, tasks: TaskTable, rows: seq<TaskRow>, limit: nat, now: Time, class_: Text)
    requires Candidates(tasks, rows) && class_ in policies
    ensures var tasks', p := Admit(policies, tasks, rows, limit, now).tasks, policies[class_];
      && ActiveCount(tasks', class_) <= Max(ActiveCount(tasks, class_), p.targetWorkers)
      && |OrdinaryIds(tasks', class_)| <= Max(|OrdinaryIds(tasks, class_)|, p.targetWorkers - p.recoveryReserve)
    decreases |rows|
  {
    if limit > 0 && rows != [] {
      AdmitStep(tasks, rows, now, class_);
      if HasRoom(policies, ActiveCount(tasks, rows[0].Class()), rows[0]) {
        MarkOrdinary(tasks, rows[0], now, class_);
        ActiveSplits(tasks, class_);
        AdmitNeverExceeds(policies, MarkSubmitting(tasks, rows[0], now), rows[1..], limit - 1, now, class_);
      } else {
        AdmitNeverExceeds(policies, tasks, rows[1..], limit, now, class_);
      }
    }
  }

  /** Every occupied slot of the new table was occupied in the old one, by the same task. */
  ghost predicate OnlyReleases(tasks: TaskTable, tasks': TaskTable) {
    forall id | id in tasks' && tasks'[id].status.OccupiesSlot() ::
      id in tasks && tasks[id].status.OccupiesSlot() && tasks'[id].spec == tasks[id].spec
  }

  lemma OneRowReleases(tasks: TaskTable, id: TaskId, row: TaskRow)
    requires id in tasks && row.spec == tasks[id].spec
    requires row.status.OccupiesSlot() ==> tasks[id].status.OccupiesSlot()
    ensures OnlyReleases(tasks, tasks[id := row])
  {
  }

  lemma UpdateReleases(name: Naming, db: Db, op: Op, now: Time)
    requires Lawful(db, op) && !Inserting(op) && !op.OpReserve?
    ensures OnlyReleases(db.tasks, Apply(name, db, op, now).tasks)
  {
    if op.id in db.tasks {
      var row := db.tasks[op.id];
      match op
      case OpBind(id, job, status) =>
        if BindJob(db, id, job, status, now).Ok? { OneRowReleases(db.tasks, id, Bound(row, job, status, now)); }
      case OpReset(id, reason) => OneRowReleases(db.tasks, id, Unreserved(row, reason, now));
      case OpFail(id, reason) => OneRowReleases(db.tasks, id, FailedRow(row, reason, now));
      case OpObserve(id, job) => OneRowReleases(db.tasks, id, ObservedRow(row, job, now));
      case OpCheckpoint(id, c) =>
        if RecordCheckpoint(db, id, c, now).Ok? { OneRowReleases(db.tasks, id, RecordCheckpoint(db, id, c, now).value.1); }
      case _ =>
    }
  }

  lemma OthersOnlyRelease(name: Naming, db: Db, op: Op, now: Time)
    requires Intact(name, db) && Lawful(db, op) && !op.OpReserve?
    ensures OnlyReleases(db.tasks, Apply(name, db, op, now).tasks)
  {
    if Inserting(op) { InsertsOnly(name, db, op, now); } else { UpdateReleases(name, db, op, now); }
  }

  lemma ReleasesShrink(tasks: TaskTable, tasks': TaskTable, class_: Text)
    requires OnlyReleases(tasks, tasks')
    ensures ActiveCount(tasks', class_) <= ActiveCount(tasks, class_)
    ensures |OrdinaryIds(tasks', class_)| <= |OrdinaryIds(tasks, class_)|
  {
    SubsetSize(ActiveIds(tasks', class_), ActiveIds(tasks, class_));
    SubsetSize(OrdinaryIds(tasks', class_), OrdinaryIds(tasks, class_));
  }

  /** A class that keeps within its policy keeps within it after any lawful transaction. */
  lemma WithinStep(name: Naming, db: Db, op: Op, now: Time, class_: Text)
    requires Intact(name, db) && Lawful(db, op)
    requires class_ in db.policies && Within(db.policies[class_], db.tasks, class_)
    ensures Within(db.policies[class_], Apply(name, db, op, now).tasks, class_)
  {
    if op.OpReserve? {
      AllPendingAreCandidates(db.tasks);
      if op.limit >= 1 {
        AdmitNeverExceeds(db.policies, db.tasks, Sorted(PendingRows(db.tasks)), op.limit, now, class_);
      }
    } else {
      OthersOnlyRelease(name, db, op, now);
      ReleasesShrink(db.tasks, Apply(name, db, op, now).tasks, class_);
    }
  }

  /**
   * What the reserve is for: within its policy a class always admits as many pending
   * recovery tasks as its reserve has beyond the recoveries already running.
   */
  lemma ReserveServesRecovery(policies: Policies, tasks: TaskTable, limit: nat, now: Time, class_: Text)
    requires KeyedById(tasks) && class_ in policies && Within(policies[class_], tasks, class_)
    requires |Reserve(policies, tasks, limit, now).selected| < limit
    ensures var r := CountIn(Sorted(PendingRows(tasks)), class_, true);
      CountIn(Reserve(policies, tasks, limit, now).selected, class_, true)
        >= Min(r, Max(0, policies[class_].recoveryReserve - |RecoveryIds(tasks, class_)|))
  {
    AllPendingAreCandidates(tasks);
    AdmitCounts(policies, tasks, Sorted(PendingRows(tasks)), limit, now, class_);
    ActiveSplits(tasks, class_);
  }
}
