// What holds in every run of the machine: one job per task, absorbing terminal tasks, an
// event log that agrees with the tasks, bounded admission and reclaimed submissions.

module Protocol {
  import opened Types
  import opened RowOrder
  import opened Admission
  import opened Tables
  import opened Integrity
  import opened Lifecycle
  import opened Limits
  import opened Machine

  ghost predicate Took(name: Naming, grace: Time, ss: seq<Sys>, steps: seq<Step>, i: nat) {
    i < |steps| && i + 1 < |ss| && Enabled(name, grace, ss[i], steps[i]) && ss[i + 1] == Next(name, grace, ss[i], steps[i])
  }

  /** The states that a sequence of steps goes through. */
  ghost predicate IsMachineRun(name: Naming, grace: Time, ss: seq<Sys>, steps: seq<Step>) {
    && |ss| == |steps| + 1
    && forall i {:trigger Took(name, grace, ss, steps, i)} | 0 <= i < |steps| :: Took(name, grace, ss, steps, i)
  }

  /** An empty store; the executor may already run other people's jobs. */
  ghost predicate IsInitial(name: Naming, s: Sys) {
    && s.db == EMPTY_DB && s.phase.Idle?
    && forall j | j in s.jobs :: s.jobs[j].owner.None? && NotATaskName(name, s.jobs[j].name)
  }

  /** A run from an empty store. */
  ghost predicate IsExecution(name: Naming, grace: Time, ss: seq<Sys>, steps: seq<Step>) {
    IsMachineRun(name, grace, ss, steps) && IsInitial(name, ss[0])
  }

  lemma InitialOk(name: Naming, grace: Time, s: Sys)
    requires IsInitial(name, s)
    ensures SysOk(name, grace, s)
  {
    assert forall o :: TaskLog(s.db.events, o) == [];
  }

  lemma {:induction false} ExecutionOk(name: Naming, grace: Time, ss: seq<Sys>, steps: seq<Step>, i: nat)
    requires IsExecution(name, grace, ss, steps) && i <= |steps|
    ensures SysOk(name, grace, ss[i])
    decreases i
  {
    if i == 0 {
      InitialOk(name, grace, ss[0]);
    } else {
      ExecutionOk(name, grace, ss, steps, i - 1);
      assert Took(name, grace, ss, steps, i - 1);
      StepOk(name, grace, ss[i - 1], steps[i - 1]);
    }
  }

  /** At most one job was launched for a task, and a bound task is bound to it. */
  ghost predicate NoDuplicates(s: Sys) {
    && (forall j, k {:trigger s.jobs[j], s.jobs[k]} | j in s.jobs && k in s.jobs && s.jobs[j].owner.Some? && s.jobs[j].owner == s.jobs[k].owner :: j == k)
    && (forall id | id in s.db.tasks && s.db.tasks[id].jobId.Some? ::
          var j := s.db.tasks[id].jobId.value;
          j in s.jobs && s.jobs[j].name == s.db.tasks[id].jobName && s.jobs[j].owner == Some(id))
  }

  /**
   * Whatever crashes, restarts and client calls come in between, in every state each task
   * has at most one job, and every job id that a task is bound to belongs to that job and
   * carries the task's name; so no two tasks share a job.
   */
  lemma OneJobPerTask(name: Naming, grace: Time, ss: seq<Sys>, steps: seq<Step>, i: nat)
    requires IsExecution(name, grace, ss, steps) && i <= |steps|
    ensures NoDuplicates(ss[i])
    ensures forall a, b | a in ss[i].db.tasks && b in ss[i].db.tasks && a != b && ss[i].db.tasks[a].jobId.Some? ::
      ss[i].db.tasks[a].jobId != ss[i].db.tasks[b].jobId
  {
    ExecutionOk(name, grace, ss, steps, i);
    OneJobPerTaskIn(name, grace, ss[i]);
  }

  lemma OneJobPerTaskIn(name: Naming, grace: Time, s: Sys)
    requires SysOk(name, grace, s)
    ensures NoDuplicates(s)
    ensures forall a, b | a in s.db.tasks && b in s.db.tasks && a != b && s.db.tasks[a].jobId.Some? ::
      s.db.tasks[a].jobId != s.db.tasks[b].jobId
  {
    forall id | id in s.db.tasks && s.db.tasks[id].jobId.Some?
      ensures var j := s.db.tasks[id].jobId.value;
        j in s.jobs && s.jobs[j].name == s.db.tasks[id].jobName && s.jobs[j].owner == Some(id)
    {
      assert BoundOk(s.jobs, s.db.tasks[id]);
      assert OwnerOk(name, s.db.tasks, s.jobs[s.db.tasks[id].jobId.value]);
    }
  }

  // ---------------------------------------------------------------------------------
  // Tasks over a run

  lemma StepTasks(name: Naming, grace: Time, s: Sys, step: Step)
    requires SysOk(name, grace, s) && Enabled(name, grace, s, step)
    ensures RowsStep(s.db.tasks, Next(name, grace, s, step).db.tasks)
  {
    if OpOf(grace, s, step).Some? {
      var (op, at) := OpOf(grace, s, step).value;
      StepIsLawful(name, grace, s, step);
      LawfulStep(name, s.db, op, at);
    } else {
      SameRowsStep(s.db.tasks);
    }
  }

  lemma RunStepTasks(name: Naming, grace: Time, ss: seq<Sys>, steps: seq<Step>, i: nat)
    requires IsExecution(name, grace, ss, steps) && i < |steps|
    ensures RowsStep(ss[i].db.tasks, ss[i + 1].db.tasks)
  {
    ExecutionOk(name, grace, ss, steps, i);
    assert Took(name, grace, ss, steps, i);
    StepTasks(name, grace, ss[i], steps[i]);
  }

  /** A terminal task never changes again, but for its checkpoint head. */
  lemma {:induction false} TerminalForever(name: Naming, grace: Time, ss: seq<Sys>, steps: seq<Step>, i: nat, j: nat, id: TaskId)
    requires IsExecution(name, grace, ss, steps) && i <= j <= |steps|
    requires id in ss[i].db.tasks && ss[i].db.tasks[id].status.IsTerminal()
    ensures id in ss[j].db.tasks && SameButHead(ss[i].db.tasks[id], ss[j].db.tasks[id])
    decreases j
  {
    if i < j {
      TerminalForever(name, grace, ss, steps, i, j - 1, id);
      RunStepTasks(name, grace, ss, steps, j - 1);
      assert RowStep(ss[j - 1].db.tasks[id], ss[j].db.tasks[id]);
    }
  }

  /**
   * The event log agrees with the task table in every state: a task that was not submitted
   * announced nothing, a running or terminal one announced its status last, no status is
   * announced twice in a row, and a terminal one once and last.
   */
  lemma LogAgreesForever(name: Naming, grace: Time, ss: seq<Sys>, steps: seq<Step>, i: nat, id: TaskId)
    requires IsExecution(name, grace, ss, steps) && i <= |steps|
    requires id in ss[i].db.tasks && ss[i].db.tasks[id].origin.Some?
    ensures var row := ss[i].db.tasks[id];
      Agrees(row.status, TaskLog(ss[i].db.events, row.origin.value))
  {
    ExecutionOk(name, grace, ss, steps, i);
    assert HoldsSlot(ss[i].db.tasks, id, ss[i].db.tasks[id].origin.value);
  }

  /** The class has this policy in every state from `i` to `j`. */
  ghost predicate PolicyHolds(ss: seq<Sys>, i: nat, j: nat, class_: Text, policy: ResourcePolicy) {
    i <= j < |ss| && forall n | i <= n <= j :: class_ in ss[n].db.policies && ss[n].db.policies[class_] == policy
  }

  lemma StepWithin(name: Naming, grace: Time, s: Sys, step: Step, class_: Text)
    requires SysOk(name, grace, s) && Enabled(name, grace, s, step)
    requires class_ in s.db.policies && Within(s.db.policies[class_], s.db.tasks, class_)
    ensures Within(s.db.policies[class_], Next(name, grace, s, step).db.tasks, class_)
  {
    if OpOf(grace, s, step).Some? {
      var (op, at) := OpOf(grace, s, step).value;
      StepIsLawful(name, grace, s, step);
      WithinStep(name, s.db, op, at, class_);
    }
  }

  /**
   * Under a policy that holds since before the class's first admission, the class never
   * occupies more slots than its target, nor its ordinary tasks more than the reserve leaves.
   */
  lemma {:induction false} WithinForever(name: Naming, grace: Time, ss: seq<Sys>, steps: seq<Step>, i: nat, j: nat, class_: Text, policy: ResourcePolicy)
    requires IsExecution(name, grace, ss, steps) && i <= j <= |steps| && PolicyHolds(ss, i, j, class_, policy)
    requires ActiveCount(ss[i].db.tasks, class_) == 0
    ensures Within(policy, ss[j].db.tasks, class_)
    decreases j
  {
    if i == j {
      ActiveSplits(ss[i].db.tasks, class_);
    } else {
      WithinForever(name, grace, ss, steps, i, j - 1, class_, policy);
      ExecutionOk(name, grace, ss, steps, j - 1);
      assert Took(name, grace, ss, steps, j - 1);
      StepWithin(name, grace, ss[j - 1], steps[j - 1], class_);
    }
  }

  /**
   * Hence a reserve call that does not reach its limit admits at least as many pending
   * recovery tasks as the reserve has beyond the recoveries that are active.
   */
  lemma RecoveryIsServed(name: Naming, grace: Time, ss: seq<Sys>, steps: seq<Step>, i: nat, j: nat, class_: Text, policy: ResourcePolicy,
                         limit: nat, now: Time)
    requires IsExecution(name, grace, ss, steps) && i <= j <= |steps| && PolicyHolds(ss, i, j, class_, policy)
    requires ActiveCount(ss[i].db.tasks, class_) == 0
    requires |ReserveSubmissions(ss[j].db, limit, now).1| < limit
    ensures var tasks := ss[j].db.tasks;
      CountIn(ReserveSubmissions(ss[j].db, limit, now).1, class_, true)
        >= Min(CountIn(Sorted(PendingRows(tasks)), class_, true), Max(0, policy.recoveryReserve - |RecoveryIds(tasks, class_)|))
  {
    WithinForever(name, grace, ss, steps, i, j, class_, policy);
    ExecutionOk(name, grace, ss, steps, j);
    assert class_ in ss[j].db.policies && ss[j].db.policies[class_] == policy;
    ReserveServesRecovery(ss[j].db.policies, ss[j].db.tasks, limit, now, class_);
  }

  // ---------------------------------------------------------------------------------
  // Submissions are reclaimed

  ghost predicate Recent(grace: Time, now: Time, row: TaskRow) {
    row.startedAt.Some? && now - row.startedAt.value < grace
  }

  /** Every submission is recent, or still to be looked at. */
  ghost predicate Reclaimed(grace: Time, now: Time, tasks: TaskTable, todo: set<TaskId>) {
    forall id | id in tasks && tasks[id].status.Submitting? && id !in todo :: Recent(grace, now, tasks[id])
  }

  ghost predicate ReclaimOk(grace: Time, s: Sys) {
    match s.phase
    case Idle => true
    case Listed(_, _) => true
    case Syncing(now, _, todo) => Reclaimed(grace, now, s.db.tasks, IdsOf(todo))
    case Sweeping(now) => Reclaimed(grace, now, s.db.tasks, {})
    case InEngine(now, _) => Reclaimed(grace, now, s.db.tasks, {})
    case Judging(now, _) => Reclaimed(grace, now, s.db.tasks, {})
    case Finishing(now, _, _) => Reclaimed(grace, now, s.db.tasks, {})
    case Launching(now, _) => Reclaimed(grace, now, s.db.tasks, {})
    case Launched(now, _, _, _) => Reclaimed(grace, now, s.db.tasks, {})
    case Finished(now) => Reclaimed(grace, now, s.db.tasks, {})
  }

  lemma ReclaimedGrows(name: Naming, grace: Time, now: Time, db: Db, op: Op, at: Time, todo: set<TaskId>)
    requires TablesOk(name, db) && (IsClientOp(op) || Inserting(op)) && Reclaimed(grace, now, db.tasks, todo)
    ensures Reclaimed(grace, now, Apply(name, db, op, at).tasks, todo)
  {
    ClientHeadsOnly(name, db, op, at);
    LawfulStep(name, db, op, at);
  }

  lemma ReclaimClient(name: Naming, grace: Time, s: Sys, op: Op, at: Time)
    requires TablesOk(name, s.db) && (IsClientOp(op) || Inserting(op)) && ReclaimOk(grace, s)
    ensures ReclaimOk(grace, s.(db := Apply(name, s.db, op, at)))
  {
    if !s.phase.Idle? && !s.phase.Listed? {
      ReclaimedGrows(name, grace, s.phase.now, s.db, op, at, if s.phase.Syncing? then IdsOf(s.phase.todo) else {});
    }
  }

  /** One row changed, and if it is still a submission it is the same. */
  lemma ReclaimedUpdate(grace: Time, now: Time, tasks: TaskTable, id: TaskId, row: TaskRow, todo: set<TaskId>)
    requires Reclaimed(grace, now, tasks, todo + {id}) && (row.status.Submitting? ==> Recent(grace, now, row))
    ensures Reclaimed(grace, now, tasks[id := row], todo)
  {
  }

  lemma ReclaimSync(name: Naming, grace: Time, s: Sys)
    requires SysOk(name, grace, s) && s.phase.Syncing? && s.phase.todo != [] && ReclaimOk(grace, s)
    ensures ReclaimOk(grace, Next(name, grace, s, SyncsTask))
  {
    var now, first, rest := s.phase.now, s.phase.todo[0], s.phase.todo[1..];
    SyncActionSound(name, grace, s);
    assert RowOk(s.db.tasks[first.Id()]);
    assert IdsOf(s.phase.todo) == IdsOf(rest) + {first.Id()} by { assert s.phase.todo == [first] + rest; }
    ReclaimSyncRow(name, grace, s);
  }

  /** The first row is fresh, and every other submission is recent or still to be looked at. */
  ghost predicate FirstToReclaim(grace: Time, s: Sys) {
    && s.phase.Syncing? && s.phase.todo != []
    && var first := s.phase.todo[0];
      && Reclaimed(grace, s.phase.now, s.db.tasks, IdsOf(s.phase.todo[1..]) + {first.Id()})
      && Fresh(s.db.tasks, first) && RowOk(s.db.tasks[first.Id()])
  }

  lemma ReclaimAdopted(name: Naming, grace: Time, s: Sys, job: ExecutorJob)
    requires FirstToReclaim(grace, s) && SyncActionOf(grace, s.phase.now, s.phase.listing, s.phase.todo[0]) == Adopt(job)
    ensures ReclaimOk(grace, Next(name, grace, s, SyncsTask))
  {
    var id, rest := s.phase.todo[0].Id(), s.phase.todo[1..];
    var bound := Bound(s.db.tasks[id], job.jobId, job.status, s.phase.now);
    ReclaimedUpdate(grace, s.phase.now, s.db.tasks, id, bound, IdsOf(rest));
    assert IdsOf(rest) <= IdsOf([bound] + rest);
  }

  lemma ReclaimLooked(name: Naming, grace: Time, s: Sys, job: ExecutorJob)
    requires FirstToReclaim(grace, s) && SyncActionOf(grace, s.phase.now, s.phase.listing, s.phase.todo[0]) == Look(job)
    ensures ReclaimOk(grace, Next(name, grace, s, SyncsTask))
  {
    var id := s.phase.todo[0].Id();
    ReclaimedUpdate(grace, s.phase.now, s.db.tasks, id, ObservedRow(s.db.tasks[id], job, s.phase.now), IdsOf(s.phase.todo[1..]));
  }

  lemma ReclaimSyncRow(name: Naming, grace: Time, s: Sys)
    requires FirstToReclaim(grace, s)
    ensures ReclaimOk(grace, Next(name, grace, s, SyncsTask))
  {
    var now, id, todo := s.phase.now, s.phase.todo[0].Id(), IdsOf(s.phase.todo[1..]);
    var row := s.db.tasks[id];
    match SyncActionOf(grace, now, s.phase.listing, s.phase.todo[0])
    case Skip => ReclaimedUpdate(grace, now, s.db.tasks, id, row, todo);
                 assert s.db.tasks[id := row] == s.db.tasks;
    case Adopt(job) => ReclaimAdopted(name, grace, s, job);
    case Reclaim => ReclaimedUpdate(grace, now, s.db.tasks, id, Unreserved(row, LOST, now), todo);
    case Look(job) => ReclaimLooked(name, grace, s, job);
  }

  lemma ReclaimReserve(name: Naming, grace: Time, db: Db, limit: int, now: Time)
    requires TasksOk(name, db.tasks) && grace > 0.0 && Reclaimed(grace, now, db.tasks, {})
    ensures Reclaimed(grace, now, ReserveSubmissions(db, limit, now).0.tasks, {})
  {
    ReserveOk(name, db.policies, db.tasks, limit, now);
  }

  lemma ReclaimEngine(name: Naming, grace: Time, s: Sys, step: Step)
    requires SysOk(name, grace, s) && Enabled(name, grace, s, step) && ReclaimOk(grace, s)
    requires step.EngineReplaces? || step.EngineSaves? || step.EngineFinishes?
    ensures ReclaimOk(grace, Next(name, grace, s, step))
  {
    if OpOf(grace, s, step).Some? {
      ReclaimClient(name, grace, s, OpOf(grace, s, step).value.0, OpOf(grace, s, step).value.1);
    }
  }

  lemma ReclaimLaunch(name: Naming, grace: Time, s: Sys, step: Step)
    requires Enabled(name, grace, s, step) && ReclaimOk(grace, s)
    requires step.RejectsSpec? || step.LaunchFails? || step.RecordsJob?
    ensures ReclaimOk(grace, Next(name, grace, s, step))
  {
    var (op, at) := OpOf(grace, s, step).value;
    ReclaimLaunchOp(name, grace, s.phase.now, s.db, op, at);
  }

  lemma ReclaimLaunchOp(name: Naming, grace: Time, now: Time, db: Db, op: Op, at: Time)
    requires (op.OpFail? || op.OpReset? || op.OpBind?) && Reclaimed(grace, now, db.tasks, {})
    ensures Reclaimed(grace, now, Apply(name, db, op, at).tasks, {})
  {
  }

  lemma ReclaimStep(name: Naming, grace: Time, s: Sys, step: Step)
    requires grace > 0.0 && SysOk(name, grace, s) && Enabled(name, grace, s, step) && ReclaimOk(grace, s)
    ensures ReclaimOk(grace, Next(name, grace, s, step))
  {
    match step
    case ClientCalls(op, at) => ReclaimClient(name, grace, s, op, at);
    case ListsTasks(rows) => assert forall id | id in s.db.tasks :: s.db.tasks[id] in rows && s.db.tasks[id].Id() == id;
    case SyncsTask => ReclaimSync(name, grace, s);
    case EngineReplaces(_, _) => ReclaimEngine(name, grace, s, step);
    case EngineSaves(_, _, _) => ReclaimEngine(name, grace, s, step);
    case EngineFinishes(_) => ReclaimEngine(name, grace, s, step);
    case ReservesTasks(limit) => ReclaimReserve(name, grace, s.db, limit, s.phase.now);
    case RejectsSpec(_) => ReclaimLaunch(name, grace, s, step);
    case LaunchFails(_) => ReclaimLaunch(name, grace, s, step);
    case RecordsJob => ReclaimLaunch(name, grace, s, step);
    case _ =>
  }

  lemma {:induction false} ExecutionReclaims(name: Naming, grace: Time, ss: seq<Sys>, steps: seq<Step>, i: nat)
    requires grace > 0.0 && IsExecution(name, grace, ss, steps) && i <= |steps|
    ensures ReclaimOk(grace, ss[i])
    decreases i
  {
    if i > 0 {
      ExecutionReclaims(name, grace, ss, steps, i - 1);
      ExecutionOk(name, grace, ss, steps, i - 1);
      assert Took(name, grace, ss, steps, i - 1);
      ReclaimStep(name, grace, ss[i - 1], steps[i - 1]);
    }
  }

  /**
   * When a pass has completed, every task still SUBMITTING was reserved less than the
   * grace period before it: slots leaked by a crash, or by the launch loop's early exit,
   * come back.
   */
  lemma PassReclaims(name: Naming, grace: Time, ss: seq<Sys>, steps: seq<Step>, i: nat, id: TaskId)
    requires grace > 0.0 && IsExecution(name, grace, ss, steps) && i <= |steps|
    requires ss[i].phase.Finished? && id in ss[i].db.tasks && ss[i].db.tasks[id].status.Submitting?
    ensures var started := ss[i].db.tasks[id].startedAt;
      started.Some? && ss[i].phase.now - started.value < grace
  {
    ExecutionReclaims(name, grace, ss, steps, i);
  }
}
