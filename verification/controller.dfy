// `TPUSwarmController`: leadership, and `reconcile_once` as the source has it. What the
// executor and the task handlers answer during a pass are its inputs; every pass is
// proved to be a piece of a run of the machine, so all that holds of the machine's runs
// holds of the controller's passes.

module Controller {
  import opened Types
  import opened Tables
  import opened Integrity
  import opened Lifecycle
  import Reservation
  import opened Lease
  import opened StaticHandler
  import opened Machine
  import opened Protocol
  import opened Store
  import opened Engine
  import opened Reach
  import opened Passes

  /** Job ids are new and given out once. */
  ghost predicate FreshJobs(jobs: Jobs, outcomes: seq<LaunchOutcome>) {
    && (forall i | 0 <= i < |outcomes| && outcomes[i].Started? :: outcomes[i].jobId !in jobs)
    && (forall i, j | 0 <= i < j < |outcomes| && outcomes[i].Started? && outcomes[j].Started? :: outcomes[i].jobId != outcomes[j].jobId)
  }

  datatype PassResult = PassResult(isLeader: bool, backendAvailable: bool, completed: bool)

  /** A dictionary with the last job listed under each name. */
  method IndexByName(listing: Listing) returns (byName: map<Text, ExecutorJob>)
    ensures forall n :: ByName(listing, n) == if n in byName then Some(byName[n]) else None
  {
    byName := map[];
    var i := 0;
    while i < |listing|
      invariant 0 <= i <= |listing|
      invariant forall n :: ByName(listing[..i], n) == if n in byName then Some(byName[n]) else None
    {
      assert listing[..i + 1][..i] == listing[..i];
      byName := byName[listing[i].name := listing[i]];
      i := i + 1;
    }
    assert listing[..i] == listing;
  }

  method IndexById(listing: Listing) returns (byId: map<JobId, ExecutorJob>)
    ensures forall j :: ById(listing, j) == if j in byId then Some(byId[j]) else None
  {
    byId := map[];
    var i := 0;
    while i < |listing|
      invariant 0 <= i <= |listing|
      invariant forall j :: ById(listing[..i], j) == if j in byId then Some(byId[j]) else None
    {
      assert listing[..i + 1][..i] == listing[..i];
      byId := byId[listing[i].jobId := listing[i]];
      i := i + 1;
    }
    assert listing[..i] == listing;
  }

  class TPUSwarmController {
    const store: SwarmStore
    const engine: WorkflowEngine
    const controllerId: ControllerId
    const leaseSeconds: Time
    const grace: Time
    const batchSize: int
    var lease: Option<ControllerLease>

    constructor (s: SwarmStore, e: WorkflowEngine, id: ControllerId, length: Time, submissionGrace: Time, batch: int)
      requires e.store == s
      ensures store == s && engine == e && controllerId == id && leaseSeconds == length && grace == submissionGrace
      ensures batchSize == batch && lease == None
    {
      store, engine, controllerId, leaseSeconds, grace, batchSize, lease := s, e, id, length, submissionGrace, batch, None;
    }

    /** `start`: a lease that has not expired is kept, otherwise one is asked for. */
    method Start(now: Time) returns (leading: bool)
      modifies this`lease, store`leadership
      ensures if old(lease).Some? && old(lease).value.expiresAt >= now
              then leading && lease == old(lease) && store.leadership == old(store.leadership)
              else (store.leadership, lease) == Acquire(old(store.leadership), controllerId, leaseSeconds, now) && leading == lease.Some?
    {
      if lease.Some? && lease.value.expiresAt >= now {
        return true;
      }
      lease := store.AcquireLeadership(controllerId, leaseSeconds, now);
      return lease.Some?;
    }

    /** The beginning of a pass: acquire if there is no lease, then renew it. */
    method Lead(now: Time) returns (leading: bool)
      modifies this`lease, store`leadership
      ensures (store.leadership, lease) == Led(old(store.leadership), old(lease), controllerId, leaseSeconds, now)
      ensures leading == lease.Some?
    {
      if lease.None? {
        var started := Start(now);
        if !started {
          return false;
        }
      }
      var renewed := store.RenewLeadership(lease.value, leaseSeconds, now);
      if renewed.Err? {
        lease := None;
        return false;
      }
      lease := Some(renewed.value);
      return true;
    }

    /** The body of the loop over `list_tasks` for one row; not `ok` where a transaction raises. */
    method SyncTask(now: Time, listing: Listing, byName: map<Text, ExecutorJob>, byId: map<JobId, ExecutorJob>,
                    task: TaskRow, ghost rest: seq<TaskRow>, ghost jobs: Jobs) returns (ok: bool)
      requires forall n :: ByName(listing, n) == if n in byName then Some(byName[n]) else None
      requires forall j :: ById(listing, j) == if j in byId then Some(byId[j]) else None
      modifies store`tasks, store`events
      ensures Reaches(store.name, grace, Sys(old(store.Contents()), jobs, Syncing(now, listing, [task] + rest)),
                      Sys(store.Contents(), jobs, if ok then Syncing(now, listing, rest) else Idle))
      ensures !ok ==> PassRaised(store.name, grace, Sys(old(store.Contents()), jobs, Syncing(now, listing, [task] + rest)))
      ensures ok && IsCurrent(old(store.tasks), task) ==>
        OnlyTask(old(store.tasks), store.tasks, task.spec.taskId) && SyncFate(grace, listing, now, task, store.tasks[task.spec.taskId])
    {
      ghost var start := Sys(store.Contents(), jobs, Syncing(now, listing, [task] + rest));
      assert ([task] + rest)[0] == task && ([task] + rest)[1..] == rest;
      ReachesSelf(store.name, grace, start);
      if task.status.Submitting? {
        assert ByName(listing, task.jobName) == if task.jobName in byName then Some(byName[task.jobName]) else None;
        if task.jobName in byName {
          ok := AdoptJob(now, listing, byName, byId, task, rest, jobs);
          return;
        } else if task.startedAt.Some? && now - task.startedAt.value >= grace {
          ReachesNext(store.name, grace, start, start, SyncsTask);
          var reset := store.ResetSubmission(task.Id(), LOST, now);
          if reset.Err? {
            RaisesHere(store.name, grace, start, start, SyncsTask);
          } else if IsCurrent(start.db.tasks, task) {
            ResetFate(store.name, start.db, store.Contents(), grace, listing, now, task);
          }
          return reset.Ok?;
        }
      }
      ok := LookAt(now, listing, byName, byId, task, rest, jobs);
      if ok && IsCurrent(start.db.tasks, task) {
        LookIsFate(grace, listing, now, task, store.tasks[task.spec.taskId]);
      }
    }

    /** The job that runs under the task's name is bound to it, and then looked at. */
    method AdoptJob(now: Time, listing: Listing, byName: map<Text, ExecutorJob>, byId: map<JobId, ExecutorJob>,
                    task: TaskRow, ghost rest: seq<TaskRow>, ghost jobs: Jobs) returns (ok: bool)
      requires forall n :: ByName(listing, n) == if n in byName then Some(byName[n]) else None
      requires forall j :: ById(listing, j) == if j in byId then Some(byId[j]) else None
      requires task.jobName in byName && SyncActionOf(grace, now, listing, task) == Adopt(byName[task.jobName])
      modifies store`tasks, store`events
      ensures Reaches(store.name, grace, Sys(old(store.Contents()), jobs, Syncing(now, listing, [task] + rest)),
                      Sys(store.Contents(), jobs, if ok then Syncing(now, listing, rest) else Idle))
      ensures !ok ==> PassRaised(store.name, grace, Sys(old(store.Contents()), jobs, Syncing(now, listing, [task] + rest)))
      ensures ok && IsCurrent(old(store.tasks), task) ==>
        OnlyTask(old(store.tasks), store.tasks, task.spec.taskId) && SyncFate(grace, listing, now, task, store.tasks[task.spec.taskId])
    {
      ghost var start := Sys(store.Contents(), jobs, Syncing(now, listing, [task] + rest));
      assert ([task] + rest)[0] == task && ([task] + rest)[1..] == rest;
      ReachesSelf(store.name, grace, start);
      ReachesNext(store.name, grace, start, start, SyncsTask);
      var job := byName[task.jobName];
      var bound := store.BindJob(task.Id(), job.jobId, job.status, now);
      if bound.Err? {
        RaisesHere(store.name, grace, start, start, SyncsTask);
        return false;
      }
      ghost var adopted := Next(store.name, grace, start, SyncsTask);
      var again := store.GetTask(task.Id());
      ok := LookAt(now, listing, byName, byId, again.value, rest, jobs);
      ReachesOn(store.name, grace, start, adopted, Sys(store.Contents(), jobs, if ok then Syncing(now, listing, rest) else Idle));
      if !ok {
        RaisesLater(store.name, grace, start, adopted);
      } else if IsCurrent(start.db.tasks, task) {
        AdoptedFate(store.name, grace, listing, now, start.db, adopted.db, store.tasks, task, again.value, job);
      }
    }

    /** The second half of the body: the state of a bound, unfinished task's job is recorded. */
    method LookAt(now: Time, listing: Listing, byName: map<Text, ExecutorJob>, byId: map<JobId, ExecutorJob>,
                  task: TaskRow, ghost rest: seq<TaskRow>, ghost jobs: Jobs) returns (ok: bool)
      requires forall n :: ByName(listing, n) == if n in byName then Some(byName[n]) else None
      requires forall j :: ById(listing, j) == if j in byId then Some(byId[j]) else None
      requires !SyncActionOf(grace, now, listing, task).Adopt? && !SyncActionOf(grace, now, listing, task).Reclaim?
      modifies store`tasks, store`events
      ensures Reaches(store.name, grace, Sys(old(store.Contents()), jobs, Syncing(now, listing, [task] + rest)),
                      Sys(store.Contents(), jobs, if ok then Syncing(now, listing, rest) else Idle))
      ensures !ok ==> PassRaised(store.name, grace, Sys(old(store.Contents()), jobs, Syncing(now, listing, [task] + rest)))
      ensures ok && IsCurrent(old(store.tasks), task) ==>
        OnlyTask(old(store.tasks), store.tasks, task.spec.taskId) && LookedAt(listing, now, task, store.tasks[task.spec.taskId])
    {
      ghost var start := Sys(store.Contents(), jobs, Syncing(now, listing, [task] + rest));
      assert ([task] + rest)[0] == task && ([task] + rest)[1..] == rest;
      ReachesSelf(store.name, grace, start);
      ReachesNext(store.name, grace, start, start, SyncsTask);
      assert ByName(listing, task.jobName) == if task.jobName in byName then Some(byName[task.jobName]) else None;
      if task.jobId.Some? && !task.status.IsTerminal() {
        assert ById(listing, task.jobId.value) == if task.jobId.value in byId then Some(byId[task.jobId.value]) else None;
        if task.jobId.value in byId || task.jobName in byName {
          var job := if task.jobId.value in byId then byId[task.jobId.value] else byName[task.jobName];
          var seen := store.ObserveJob(task.Id(), job, now);
          if seen.Err? {
            RaisesHere(store.name, grace, start, start, SyncsTask);
          } else if IsCurrent(start.db.tasks, task) {
            LookFate(store.name, start.db, store.Contents(), listing, now, task);
          }
          return seen.Ok?;
        }
      }
      if IsCurrent(start.db.tasks, task) {
        LookFate(store.name, start.db, start.db, listing, now, task);
      }
      return true;
    }

    /** The body of the launch loop for one reserved task. */
    method Launch(now: Time, row: TaskRow, outcome: LaunchOutcome, ghost rest: seq<TaskRow>, ghost jobs: Jobs)
      returns (next: AfterLaunch, ghost jobs': Jobs)
      requires outcome.Started? ==> outcome.jobId !in jobs
      modifies store`tasks, store`events
      ensures Reaches(store.name, grace, Sys(old(store.Contents()), jobs, Launching(now, [row] + rest)),
                      Sys(store.Contents(), jobs', PhaseAfter(now, next, rest)))
      ensures next.Raised? ==> PassRaised(store.name, grace, Sys(old(store.Contents()), jobs, Launching(now, [row] + rest)))
      ensures jobs'.Keys <= jobs.Keys + (if outcome.Started? then {outcome.jobId} else {})
      ensures !next.Raised? ==> LaunchedOne(now, row, outcome, old(store.tasks), store.tasks) && (next.Stops? <==> outcome.Unavailable?)
    {
      ghost var start := Sys(store.Contents(), jobs, Launching(now, [row] + rest));
      assert ([row] + rest)[0] == row && ([row] + rest)[1..] == rest;
      ReachesSelf(store.name, grace, start);
      jobs' := jobs;
      match outcome
      case NoSpec(reason) =>
        ReachesNext(store.name, grace, start, start, RejectsSpec(reason));
        var failed := store.FailTask(row.Id(), reason, now);
        if failed.Err? {
          RaisesHere(store.name, grace, start, start, RejectsSpec(reason));
        } else {
          RejectFate(store.name, start.db, store.Contents(), now, row, reason);
        }
        return if failed.Ok? then GoesOn else Raised, jobs;
      case Unavailable(reason) =>
        ReachesNext(store.name, grace, start, start, LaunchFails(reason));
        var reset := store.ResetSubmission(row.Id(), reason, now);
        if reset.Err? {
          RaisesHere(store.name, grace, start, start, LaunchFails(reason));
        } else {
          UnavailableFate(store.name, start.db, store.Contents(), now, row, reason);
        }
        return if reset.Ok? then Stops else Raised, jobs;
      case Started(job, status) =>
        ReachesNext(store.name, grace, start, start, LaunchesJob(job, status));
        ghost var launched := Next(store.name, grace, start, LaunchesJob(job, status));
        jobs' := launched.jobs;
        next := Record(now, row, ExecutorJob(job, row.jobName, status, 0, None), rest, jobs');
        ReachesOn(store.name, grace, start, launched, Sys(store.Contents(), jobs', PhaseAfter(now, next, rest)));
        if next.Raised? { RaisesLater(store.name, grace, start, launched); }
    }

    /** The end of the body: the job just launched is bound to its task. */
    method Record(now: Time, row: TaskRow, job: ExecutorJob, ghost rest: seq<TaskRow>, ghost jobs: Jobs) returns (next: AfterLaunch)
      modifies store`tasks
      ensures Reaches(store.name, grace, Sys(old(store.Contents()), jobs, Launched(now, row, job, rest)),
                      Sys(store.Contents(), jobs, PhaseAfter(now, next, rest)))
      ensures next.Raised? || (next.GoesOn? && LaunchedOne(now, row, Started(job.jobId, job.status), old(store.tasks), store.tasks))
      ensures next.Raised? ==> PassRaised(store.name, grace, Sys(old(store.Contents()), jobs, Launched(now, row, job, rest)))
    {
      ghost var start := Sys(store.Contents(), jobs, Launched(now, row, job, rest));
      ReachesSelf(store.name, grace, start);
      ReachesNext(store.name, grace, start, start, RecordsJob);
      var bound := store.BindJob(row.Id(), job.jobId, job.status, now);
      if bound.Err? {
        RaisesHere(store.name, grace, start, start, RecordsJob);
      } else {
        StartedFate(store.name, start.db, store.Contents(), now, row, job.jobId, job.status);
      }
      return if bound.Ok? then GoesOn else Raised;
    }

    /** The loop over `list_tasks`. */
    method SyncAll(now: Time, listing: Listing, rows: seq<TaskRow>, ghost jobs: Jobs) returns (ok: bool)
      modifies store`tasks, store`events
      ensures Reaches(store.name, grace, Sys(old(store.Contents()), jobs, Syncing(now, listing, rows)),
                      Sys(store.Contents(), jobs, if ok then Sweeping(now) else Idle))
      ensures !ok ==> PassRaised(store.name, grace, Sys(old(store.Contents()), jobs, Syncing(now, listing, rows)))
      ensures ok && KeyedById(old(store.tasks)) && ListsTable(old(store.tasks), rows) ==> AllSynced(grace, listing, now, old(store.tasks), store.tasks)
    {
      ghost var start := Sys(store.Contents(), jobs, Syncing(now, listing, rows));
      var byId := IndexById(listing);
      var byName := IndexByName(listing);
      var i := 0;
      assert rows[0..] == rows;
      ReachesSelf(store.name, grace, start);
      SyncedFirst(grace, listing, now, start.db.tasks, rows);
      while i < |rows|
        invariant 0 <= i <= |rows|
        invariant Reaches(store.name, grace, start, Sys(store.Contents(), jobs, Syncing(now, listing, rows[i..])))
        invariant SyncedUpTo(grace, listing, now, start.db.tasks, rows, store.tasks, i)
      {
        ghost var before := Sys(store.Contents(), jobs, Syncing(now, listing, rows[i..]));
        assert rows[i..] == [rows[i]] + rows[i + 1..];
        ok := SyncTask(now, listing, byName, byId, rows[i], rows[i + 1..], jobs);
        ReachesOn(store.name, grace, start, before, Sys(store.Contents(), jobs, if ok then Syncing(now, listing, rows[i + 1..]) else Idle));
        if !ok {
          RaisesLater(store.name, grace, start, before);
          return;
        }
        SyncedNext(grace, listing, now, start.db.tasks, rows, before.db.tasks, store.tasks, i);
        i := i + 1;
      }
      assert rows[i..] == [];
      if KeyedById(start.db.tasks) && ListsTable(start.db.tasks, rows) {
        SyncedLast(grace, listing, now, start.db.tasks, rows, store.tasks);
      }
      ReachesNext(store.name, grace, start, Sys(store.Contents(), jobs, Syncing(now, listing, [])), EndsSync);
      return true;
    }

    /** The pass over the active workflows: a call of the engine for each, whether or not the ones before raised. */
    method SweepWorkflows(now: Time, at: Time, ghost jobs: Jobs) returns (ids: seq<WorkflowId>)
      requires engine.store == store && SysOk(store.name, grace, Sys(store.Contents(), jobs, Sweeping(now)))
      requires STATIC_KIND in engine.registry.handlers ==> HandlesStatic(engine.registry.handlers[STATIC_KIND])
      modifies store`tasks, store`components, store`workflows
      ensures ListsActive(old(store.workflows), ids)
      ensures store.Contents() == SweptAll(store.name, engine.registry, old(store.Contents()), ids, at)
      ensures Reaches(store.name, grace, Sys(old(store.Contents()), jobs, Sweeping(now)), Sys(store.Contents(), jobs, Sweeping(now)))
    {
      ghost var start := Sys(store.Contents(), jobs, Sweeping(now));
      ids := store.ListActiveWorkflows();
      var i := 0;
      ReachesSelf(store.name, grace, start);
      while i < |ids|
        invariant 0 <= i <= |ids|
        invariant store.Contents() == SweptAll(store.name, engine.registry, start.db, ids[..i], at)
        invariant Reaches(store.name, grace, start, Sys(store.Contents(), jobs, Sweeping(now)))
      {
        SweepOne(store.name, grace, start, now, jobs, engine.registry, store.Contents(), ids[i], at);
        var ok := engine.Reconcile(ids[i], at);
        assert ids[..i + 1][..i] == ids[..i];
        i := i + 1;
      }
      assert ids[..i] == ids;
    }

    /** The launch loop. */
    method LaunchAll(now: Time, rows: seq<TaskRow>, outcomes: seq<LaunchOutcome>, ghost jobs: Jobs) returns (completed: bool, ghost jobs': Jobs)
      requires |rows| <= |outcomes| && FreshJobs(jobs, outcomes)
      modifies store`tasks, store`events
      ensures Reaches(store.name, grace, Sys(old(store.Contents()), jobs, Launching(now, rows)),
                      Sys(store.Contents(), jobs', if completed then Finished(now) else Idle))
      ensures completed && AreCurrent(old(store.tasks), rows) ==> AllLaunched(now, rows, outcomes, old(store.tasks), store.tasks)
      ensures !completed ==> PassRaised(store.name, grace, Sys(old(store.Contents()), jobs, Launching(now, rows)))
    {
      ghost var start := Sys(store.Contents(), jobs, Launching(now, rows));
      jobs' := jobs;
      var i := 0;
      assert rows[0..] == rows;
      ReachesSelf(store.name, grace, start);
      LaunchedFirst(now, rows, outcomes, start.db.tasks);
      while i < |rows|
        invariant 0 <= i <= |rows|
        invariant Reaches(store.name, grace, start, Sys(store.Contents(), jobs', Launching(now, rows[i..])))
        invariant forall k | i <= k < |outcomes| && outcomes[k].Started? :: outcomes[k].jobId !in jobs'
        invariant LaunchedUpTo(now, rows, outcomes, start.db.tasks, store.tasks, i)
      {
        ghost var before := Sys(store.Contents(), jobs', Launching(now, rows[i..]));
        assert rows[i..] == [rows[i]] + rows[i + 1..];
        var next: AfterLaunch;
        next, jobs' := Launch(now, rows[i], outcomes[i], rows[i + 1..], jobs');
        ReachesOn(store.name, grace, start, before, Sys(store.Contents(), jobs', PhaseAfter(now, next, rows[i + 1..])));
        if next.Raised? {
          RaisesLater(store.name, grace, start, before);
          return false, jobs';
        }
        if next.Stops? {
          if AreCurrent(start.db.tasks, rows) {
            LaunchedStop(now, rows, outcomes, start.db.tasks, before.db.tasks, store.tasks, i);
          }
          return true, jobs';
        }
        LaunchedNext(now, rows, outcomes, start.db.tasks, before.db.tasks, store.tasks, i);
        i := i + 1;
      }
      assert rows[i..] == [];
      if AreCurrent(start.db.tasks, rows) {
        LaunchedLast(now, rows, outcomes, start.db.tasks, store.tasks);
      }
      ReachesNext(store.name, grace, start, Sys(store.Contents(), jobs', Launching(now, [])), EndsPass);
      return true, jobs';
    }

    /**
     * `reconcile_once`, given what the executor lists and what becomes of each launch. From
     * a good state it leads, by steps of the machine, to the state `end`: a completed pass
     * to the end of a pass, any other to where the next pass starts. A pass that leads and
     * reaches the executor stops short only where a transaction raises, which in a good
     * state none does (`Reach.NoPassRaises`). A completed pass has called the engine once
     * for every workflow that was active behind the loop over the tasks, and launched what
     * one reservation of the batch size admitted.
     */
    method ReconcileOnce(now: Time, at: Time, listing: Option<Listing>, outcomes: seq<LaunchOutcome>, ghost jobs: Jobs)
      returns (result: PassResult, ghost end: Sys, ghost synced: Db, ghost ids: seq<WorkflowId>)
      requires engine.store == store && batchSize <= |outcomes| && FreshJobs(jobs, outcomes)
      requires SysOk(store.name, grace, Sys(store.Contents(), jobs, Idle))
      requires listing.Some? ==> Shows(jobs, listing.value) && Timely(grace, now, store.tasks, jobs, listing.value)
      requires STATIC_KIND in engine.registry.handlers ==> HandlesStatic(engine.registry.handlers[STATIC_KIND])
      modifies this`lease, store
      ensures end.db == store.Contents() && Reaches(store.name, grace, Sys(old(store.Contents()), jobs, Idle), end)
      ensures end.phase == if result.completed then Finished(now) else Idle
      ensures !result.isLeader || !result.backendAvailable ==> store.Contents() == old(store.Contents()) && !result.completed
      ensures (store.leadership, lease) == Led(old(store.leadership), old(lease), controllerId, leaseSeconds, now) && result.isLeader == lease.Some?
      ensures result.isLeader && result.backendAvailable && !result.completed ==> PassRaised(store.name, grace, Sys(old(store.Contents()), jobs, Idle))
      ensures result.backendAvailable <==> !result.isLeader || listing.Some?
      ensures result.completed ==>
        CompletePass(store.name, grace, engine.registry, batchSize, Sys(old(store.Contents()), jobs, Idle), synced, ids, now, at, outcomes, end)
      ensures result.completed ==> AllSynced(grace, listing.value, now, old(store.tasks), synced.tasks)
    {
      ghost var start := Sys(store.Contents(), jobs, Idle);
      ReachesSelf(store.name, grace, start);
      var leading := Lead(now);
      end, synced, ids := start, start.db, [];
      if !leading {
        result := PassResult(false, true, false);
        return;
      }
      if listing.None? {
        result := PassResult(true, false, false);
        return;
      }
      KeyedThere(store.name, grace, start);
      ReachesNext(store.name, grace, start, start, ListsJobs(now, listing.value));
      var rows := store.ListTasks();
      ReachesNext(store.name, grace, start, Sys(store.Contents(), jobs, Listed(now, listing.value)), ListsTasks(rows));
      var ok := SyncAll(now, listing.value, rows, jobs);
      end, synced := Sys(store.Contents(), jobs, if ok then Sweeping(now) else Idle), store.Contents();
      ReachesOn(store.name, grace, start, Sys(start.db, jobs, Syncing(now, listing.value, rows)), end);
      if !ok {
        RaisesLater(store.name, grace, start, Sys(start.db, jobs, Syncing(now, listing.value, rows)));
        result := PassResult(true, true, false);
        return;
      }
      var completed;
      completed, end, ids := SweepAndLaunch(now, at, outcomes, start, jobs);
      result := PassResult(true, true, completed);
    }

    /** The second half of a pass. */
    method SweepAndLaunch(now: Time, at: Time, outcomes: seq<LaunchOutcome>, ghost start: Sys, ghost jobs: Jobs)
      returns (completed: bool, ghost end: Sys, ghost ids: seq<WorkflowId>)
      requires engine.store == store && batchSize <= |outcomes| && FreshJobs(jobs, outcomes) && start.jobs == jobs
      requires SysOk(store.name, grace, start) && Reaches(store.name, grace, start, Sys(store.Contents(), jobs, Sweeping(now)))
      requires STATIC_KIND in engine.registry.handlers ==> HandlesStatic(engine.registry.handlers[STATIC_KIND])
      modifies store`tasks, store`components, store`workflows, store`events
      ensures end.db == store.Contents() && Reaches(store.name, grace, start, end)
      ensures end.phase == if completed then Finished(now) else Idle
      ensures !completed ==> PassRaised(store.name, grace, start)
      ensures completed ==> CompletePass(store.name, grace, engine.registry, batchSize, start, old(store.Contents()), ids, now, at, outcomes, end)
    {
      ghost var synced := Sys(store.Contents(), jobs, Sweeping(now));
      ReachesOk(store.name, grace, start, synced);
      var swept := SweepWorkflows(now, at, jobs);
      ids := swept;
      ReachesOn(store.name, grace, start, synced, Sys(store.Contents(), jobs, Sweeping(now)));
      ReserveThere(store.name, grace, start, Sys(store.Contents(), jobs, Sweeping(now)), batchSize);
      var selected := store.ReserveSubmissions(batchSize, now);
      ghost var reserved := Sys(store.Contents(), jobs, Launching(now, selected));
      ghost var jobs';
      completed, jobs' := LaunchAll(now, selected, outcomes, jobs);
      end := Sys(store.Contents(), jobs', if completed then Finished(now) else Idle);
      ReachesOn(store.name, grace, start, reserved, end);
      if !completed {
        RaisesLater(store.name, grace, start, reserved);
      }
    }
  }

  /** The tables after a call of the engine for each of the workflows in turn. */
  ghost function SweptAll(name: Naming, r: Registry, db: Db, ids: seq<WorkflowId>, at: Time): Db
    decreases |ids|
  {
    if ids == [] then db
    else EngineRun(name, r, SweptAll(name, r, db, ids[..|ids| - 1], at), ids[|ids| - 1], at)
  }

  /** The tables of a sweep are where one call for each workflow after the other leads. */
  lemma {:induction false} SweepIsTrace(name: Naming, r: Registry, ids: seq<WorkflowId>, at: Time, dbs: seq<Db>)
    requires |dbs| == |ids| + 1 && forall i | 0 <= i < |ids| :: dbs[i + 1] == EngineRun(name, r, dbs[i], ids[i], at)
    ensures SweptAll(name, r, dbs[0], ids, at) == dbs[|ids|]
    decreases |ids|
  {
    if ids != [] {
      var n := |ids| - 1;
      assert forall i | 0 <= i < n :: dbs[..n + 1][i + 1] == dbs[i + 1] && ids[..n][i] == ids[i];
      SweepIsTrace(name, r, ids[..n], at, dbs[..n + 1]);
    }
  }

  /** The pass synchronised the tasks, swept the active workflows, reserved once and launched. */
  ghost predicate CompletePass(name: Naming, grace: Time, r: Registry, batch: int, start: Sys, synced: Db, ids: seq<WorkflowId>,
                               now: Time, at: Time, outcomes: seq<LaunchOutcome>, end: Sys)
  {
    && Reaches(name, grace, start, Sys(synced, start.jobs, Sweeping(now)))
    && ListsActive(synced.workflows, ids)
    && var (reserved, selected) := Tables.ReserveSubmissions(SweptAll(name, r, synced, ids, at), batch, now);
      && Reaches(name, grace, Sys(reserved, start.jobs, Launching(now, selected)), end)
      && |selected| <= |outcomes| && AllLaunched(now, selected, outcomes, reserved.tasks, end.db.tasks)
  }

  datatype AfterLaunch = GoesOn | Stops | Raised

  ghost function PhaseAfter(now: Time, next: AfterLaunch, rest: seq<TaskRow>): Phase {
    match next
    case GoesOn => Launching(now, rest)
    case Stops => Finished(now)
    case Raised => Idle
  }

  /** The engine may be called anywhere on the sweep, and the call is a piece of the run. */
  lemma SweepOne(name: Naming, grace: Time, a: Sys, now: Time, jobs: Jobs, r: Registry, db: Db, wid: WorkflowId, at: Time)
    requires SysOk(name, grace, a) && Reaches(name, grace, a, Sys(db, jobs, Sweeping(now)))
    requires STATIC_KIND in r.handlers ==> HandlesStatic(r.handlers[STATIC_KIND])
    ensures Intact(name, db) && Reaches(name, grace, a, Sys(EngineRun(name, r, db, wid, at), jobs, Sweeping(now)))
  {
    ReachesOk(name, grace, a, Sys(db, jobs, Sweeping(now)));
    EngineReaches(name, grace, a, now, jobs, r, db, wid, at);
  }

  lemma KeyedThere(name: Naming, grace: Time, a: Sys)
    requires SysOk(name, grace, a)
    ensures KeyedById(a.db.tasks)
  {
  }

  lemma ReserveThere(name: Naming, grace: Time, a: Sys, b: Sys, limit: int)
    requires SysOk(name, grace, a) && Reaches(name, grace, a, b) && b.phase.Sweeping?
    ensures KeyedById(b.db.tasks)
    ensures var (db', selected) := Tables.ReserveSubmissions(b.db, limit, b.phase.now);
      && Reaches(name, grace, a, Sys(db', b.jobs, Launching(b.phase.now, selected)))
      && (|selected| <= limit || selected == []) && AreCurrent(db'.tasks, selected)
  {
    ReachesOk(name, grace, a, b);
    ReachesNext(name, grace, a, b, ReservesTasks(limit));
    Reservation.ReserveStamps(b.db.policies, b.db.tasks, limit, b.phase.now);
  }

  /** The passes continue an execution of the machine, so its theorems hold of them. */
  lemma PassContinues(name: Naming, grace: Time, ss: seq<Sys>, steps: seq<Step>, end: Sys)
    requires IsExecution(name, grace, ss, steps) && Reaches(name, grace, ss[|steps|], end)
    ensures exists ss', steps' :: IsExecution(name, grace, ss', steps') && ss'[|steps'|] == end
  {
    var own, ownSteps :| Leads(name, grace, own, ownSteps, ss[|steps|], end);
    var ss', steps' := ExecutionGoesOn(name, grace, ss, steps, own, ownSteps, |ownSteps|);
    assert IsExecution(name, grace, ss', steps') && ss'[|steps'|] == end;
  }

  /** So after a pass that completed, every task still SUBMITTING was reserved less than the grace period ago. */
  lemma CompletedPassReclaims(name: Naming, grace: Time, ss: seq<Sys>, steps: seq<Step>, end: Sys, id: TaskId)
    requires grace > 0.0 && IsExecution(name, grace, ss, steps) && Reaches(name, grace, ss[|steps|], end) && end.phase.Finished?
    requires id in end.db.tasks && end.db.tasks[id].status.Submitting?
    ensures Recent(grace, end.phase.now, end.db.tasks[id])
  {
    PassContinues(name, grace, ss, steps, end);
    var ss', steps' :| IsExecution(name, grace, ss', steps') && ss'[|steps'|] == end;
    PassReclaims(name, grace, ss', steps', |steps'|, id);
  }
}
