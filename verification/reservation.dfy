// `reserve_submissions` told on the table before and after, by columns, statuses and the
// names of the priorities.

module Reservation {
  import opened Types
  import opened RowOrder
  import opened Admission
  import opened Integrity

  // ---------------------------------------------------------------------------------
  // The rows

  /** The columns that a reservation writes, and no other. */
  ghost predicate Stamped(was: TaskRow, row: TaskRow, now: Time) {
    && was.status == Pending && row.status == Submitting
    && row.startedAt == Some(now) && row.updatedAt == now && row.lastError == None
    && row.spec == was.spec && row.jobName == was.jobName && row.origin == was.origin && row.createdAt == was.createdAt
    && row.jobId == was.jobId && row.executorStatus == was.executorStatus && row.recoveryCount == was.recoveryCount
    && row.checkpoint == was.checkpoint && row.result == was.result && row.completedAt == was.completedAt
  }

  /** The batch lists, once each, the rows it changed, as they are then; all others stay. */
  lemma ReserveStamps(policies: Policies, tasks: TaskTable, limit: int, now: Time)
    requires KeyedById(tasks)
    ensures var b := Reserve(policies, tasks, limit, now);
      && b.tasks.Keys == tasks.Keys && |b.selected| <= (if limit < 1 then 0 else limit)
      && (forall r | r in b.selected :: var id := r.spec.taskId;
            id in tasks && id in b.tasks && b.tasks[id] == r && Stamped(tasks[id], r, now))
      && (forall i, j | 0 <= i < j < |b.selected| :: b.selected[i].spec.taskId != b.selected[j].spec.taskId)
      && (forall id | id in tasks && tasks[id] != b.tasks[id] :: b.tasks[id] in b.selected)
  {
    ReserveSelects(policies, tasks, limit, now);
    var b := Reserve(policies, tasks, limit, now);
    forall r | r in b.selected
      ensures var id := r.spec.taskId; id in tasks && id in b.tasks && b.tasks[id] == r && Stamped(tasks[id], r, now)
    {
      assert Picked(tasks, b.tasks, r, now);
    }
    forall i, j | 0 <= i < j < |b.selected| ensures b.selected[i].spec.taskId != b.selected[j].spec.taskId {
      assert b.selected[i].Id() != b.selected[j].Id();
    }
    if limit >= 1 { AdmitsAtMostLimit(policies, tasks, Sorted(PendingRows(tasks)), limit, now); }
  }

  // ---------------------------------------------------------------------------------
  // The order

  /** Every admitted row is the stamp of a candidate. */
  lemma {:induction false} SelectedFrom(policies: Policies, tasks: TaskTable, rows: seq<TaskRow>, limit: nat, now: Time, r: TaskRow)
    returns (i: nat)
    requires r in Admit(policies, tasks, rows, limit, now).selected
    ensures i < |rows| && r == Reserved(rows[i], now)
    decreases |rows|
  {
    if HasRoom(policies, ActiveCount(tasks, rows[0].Class()), rows[0]) {
      if r == Reserved(rows[0], now) {
        i := 0;
      } else {
        var j := SelectedFrom(policies, MarkSubmitting(tasks, rows[0], now), rows[1..], limit - 1, now, r);
        i := j + 1;
      }
    } else {
      var j := SelectedFrom(policies, tasks, rows[1..], limit, now, r);
      i := j + 1;
    }
  }

  lemma {:induction false} AdmitKeepsOrder(policies: Policies, tasks: TaskTable, rows: seq<TaskRow>, limit: nat, now: Time)
    requires Ordered(rows)
    ensures Ordered(Admit(policies, tasks, rows, limit, now).selected)
    decreases |rows|
  {
    if limit > 0 && rows != [] {
      if HasRoom(policies, ActiveCount(tasks, rows[0].Class()), rows[0]) {
        var tasks' := MarkSubmitting(tasks, rows[0], now);
        AdmitKeepsOrder(policies, tasks', rows[1..], limit - 1, now);
        var rest := Admit(policies, tasks', rows[1..], limit - 1, now).selected;
        forall r | r in rest ensures Before(Reserved(rows[0], now), r) {
          var i := SelectedFrom(policies, tasks', rows[1..], limit - 1, now, r);
          assert Before(rows[0], rows[i + 1]);
        }
      } else {
        AdmitKeepsOrder(policies, tasks, rows[1..], limit, now);
      }
    }
  }

  /** The batch itself is in admission order. */
  lemma SelectedInOrder(policies: Policies, tasks: TaskTable, limit: int, now: Time)
    requires KeyedById(tasks)
    ensures var s := Reserve(policies, tasks, limit, now).selected; forall i, j | 0 <= i < j < |s| :: Earlier(s[i], s[j])
  {
    AllPendingAreCandidates(tasks);
    var s := Reserve(policies, tasks, limit, now).selected;
    if limit >= 1 { AdmitKeepsOrder(policies, tasks, Sorted(PendingRows(tasks)), limit, now); }
    forall i, j | 0 <= i < j < |s| ensures Earlier(s[i], s[j]) { BeforeExact(s[i], s[j]); }
  }

  lemma NoneOfClass(rows: seq<TaskRow>, class_: Text, r: TaskRow)
    requires OfClass(rows, class_) == [] && r in rows
    ensures r.Class() != class_
    decreases |rows|
  {
    if r != rows[0] { NoneOfClass(rows[1..], class_, r); }
  }

  /** Of two candidates of a class the later is admitted only if the earlier is. */
  lemma {:induction false} AdmitsEarlier(policies: Policies, tasks: TaskTable, rows: seq<TaskRow>, limit: nat, now: Time, i: nat, j: nat)
    requires Candidates(tasks, rows) && i < j < |rows| && rows[i].Class() == rows[j].Class()
    requires Reserved(rows[j], now) in Admit(policies, tasks, rows, limit, now).selected
    ensures Reserved(rows[i], now) in Admit(policies, tasks, rows, limit, now).selected
    decreases |rows|
  {
    var b := Admit(policies, tasks, rows, limit, now);
    AdmitStep(tasks, rows, now, rows[0].Class());
    if HasRoom(policies, ActiveCount(tasks, rows[0].Class()), rows[0]) {
      if i > 0 {
        assert Before(rows[0], rows[j]);
        StampsDiffer(rows[0], rows[j], now);
        AdmitsEarlier(policies, MarkSubmitting(tasks, rows[0], now), rows[1..], limit - 1, now, i - 1, j - 1);
      }
    } else if rows[0].Class() == rows[i].Class() {
      FirstBeforeRest(rows);
      FullStaysFull(policies, tasks, rows[1..], limit, now, rows[0]);
      NoneOfClass(b.selected, rows[0].Class(), Reserved(rows[j], now));
    } else {
      AdmitsEarlier(policies, tasks, rows[1..], limit, now, i - 1, j - 1);
    }
  }

  lemma StampsDiffer(a: TaskRow, b: TaskRow, now: Time)
    requires Before(a, b)
    ensures Reserved(a, now) != Reserved(b, now)
  {
    BeforeAsymmetric(a, b);
  }

  lemma AdmitsEarlierRow(policies: Policies, tasks: TaskTable, rows: seq<TaskRow>, limit: nat, now: Time, x: TaskRow, y: TaskRow)
    requires Candidates(tasks, rows) && x in rows && y in rows && x.Class() == y.Class() && Before(x, y)
    requires Reserved(y, now) in Admit(policies, tasks, rows, limit, now).selected
    ensures Reserved(x, now) in Admit(policies, tasks, rows, limit, now).selected
  {
    var m := IndexOf(rows, x);
    var n := IndexOf(rows, y);
    BeforeAsymmetric(x, y);
    AdmitsEarlier(policies, tasks, rows, limit, now, m, n);
  }

  lemma PendingListed(tasks: TaskTable, x: TaskRow)
    requires KeyedById(tasks) && x in PendingRows(tasks)
    ensures Candidates(tasks, Sorted(PendingRows(tasks))) && x in Sorted(PendingRows(tasks))
  {
    AllPendingAreCandidates(tasks);
    assert x in Rows(Sorted(PendingRows(tasks)));
  }

  lemma EarlierSelected(policies: Policies, tasks: TaskTable, limit: int, now: Time, x: TaskRow, y: TaskRow)
    requires KeyedById(tasks) && x in PendingRows(tasks) && y in PendingRows(tasks) && x.Class() == y.Class() && Before(x, y)
    requires Reserved(y, now) in Reserve(policies, tasks, limit, now).selected
    ensures Reserved(x, now) in Reserve(policies, tasks, limit, now).selected
  {
    PendingListed(tasks, x);
    PendingListed(tasks, y);
    AdmitsEarlierRow(policies, tasks, Sorted(PendingRows(tasks)), limit, now, x, y);
  }

  lemma EarlierIsAhead(policies: Policies, tasks: TaskTable, limit: int, now: Time, i: nat, j: nat)
    requires KeyedById(tasks)
    requires var s := Reserve(policies, tasks, limit, now).selected; i < |s| && j < |s| && Before(s[i], s[j])
    ensures i < j
  {
    var s := Reserve(policies, tasks, limit, now).selected;
    SelectedInOrder(policies, tasks, limit, now);
    BeforeAsymmetric(s[i], s[j]);
    if j < i { BeforeExact(s[j], s[i]); }
  }

  /** The stamp of a pending task in the batch. */
  lemma SelectedStamp(policies: Policies, tasks: TaskTable, limit: int, now: Time, r: TaskRow)
    requires KeyedById(tasks) && r in Reserve(policies, tasks, limit, now).selected
    ensures var id, b := r.spec.taskId, Reserve(policies, tasks, limit, now);
      id in tasks && tasks[id].status == Pending && id in b.tasks && r == b.tasks[id] == Reserved(tasks[id], now)
  {
    ReserveSelects(policies, tasks, limit, now);
    assert Picked(tasks, Reserve(policies, tasks, limit, now).tasks, r, now);
  }

  /**
   * Of two pending tasks of one class the earlier goes first: the batch has the later one
   * only behind the other.
   */
  lemma EarlierFirst(policies: Policies, tasks: TaskTable, limit: int, now: Time, a: TaskId, b: TaskId, j: nat)
    requires KeyedById(tasks) && a in tasks && b in tasks && tasks[a].status == Pending && tasks[b].status == Pending
    requires tasks[a].spec.resourceClass == tasks[b].spec.resourceClass && Earlier(tasks[a], tasks[b])
    requires var s := Reserve(policies, tasks, limit, now).selected; j < |s| && s[j].spec.taskId == b
    ensures var s := Reserve(policies, tasks, limit, now).selected; exists i | 0 <= i < j :: s[i].spec.taskId == a
  {
    var s := Reserve(policies, tasks, limit, now).selected;
    SelectedStamp(policies, tasks, limit, now, s[j]);
    BeforeExact(tasks[a], tasks[b]);
    EarlierSelected(policies, tasks, limit, now, tasks[a], tasks[b]);
    var i := IndexOf(s, Reserved(tasks[a], now));
    EarlierIsAhead(policies, tasks, limit, now, i, j);
    assert s[i].spec.taskId == a;
  }

  lemma IndexOf(s: seq<TaskRow>, r: TaskRow) returns (i: nat)
    requires r in s
    ensures i < |s| && s[i] == r
  {
    i :| 0 <= i < |s| && s[i] == r;
  }

  // ---------------------------------------------------------------------------------
  // The numbers

  /** Recoveries are the tasks of the two highest priorities. */
  predicate IsRecoveryPriority(p: Priority) {
    p == OrdinaryRecovery || p == BlockingRecovery
  }

  function Waiting(tasks: TaskTable, class_: Text, recovery: bool): set<TaskId> {
    set id | id in tasks && tasks[id].status == Pending && IsOne(tasks[id], class_, recovery)
  }

  function Occupying(tasks: TaskTable, class_: Text): set<TaskId> {
    set id | id in tasks && tasks[id].spec.resourceClass == class_ && tasks[id].status in {Submitting, Submitted, Running}
  }

  function Admitted(tasks: TaskTable, tasks': TaskTable, class_: Text, recovery: bool): set<TaskId> {
    set id | id in Waiting(tasks, class_, recovery) && id in tasks' && tasks'[id].status == Submitting
  }

  lemma RecoveryNamed(row: TaskRow)
    ensures row.IsRecovery() <==> IsRecoveryPriority(row.spec.priority)
  {
  }

  function IdsIn(rows: seq<TaskRow>, class_: Text, recovery: bool): set<TaskId> {
    set r | r in rows && IsOne(r, class_, recovery) :: r.spec.taskId
  }

  /** `row` is one of the tasks counted. */
  predicate IsOne(row: TaskRow, class_: Text, recovery: bool) {
    row.spec.resourceClass == class_ && IsRecoveryPriority(row.spec.priority) == recovery
  }

  lemma IdsCons(row: TaskRow, rows: seq<TaskRow>, class_: Text, recovery: bool)
    requires forall r | r in rows :: r.spec.taskId != row.spec.taskId
    ensures |IdsIn([row] + rows, class_, recovery)| == |IdsIn(rows, class_, recovery)| + (if IsOne(row, class_, recovery) then 1 else 0)
  {
    if IsOne(row, class_, recovery) {
      assert IdsIn([row] + rows, class_, recovery) == IdsIn(rows, class_, recovery) + {row.spec.taskId};
    } else {
      assert IdsIn([row] + rows, class_, recovery) == IdsIn(rows, class_, recovery);
    }
  }

  ghost predicate DistinctIds(rows: seq<TaskRow>) {
    forall i, j | 0 <= i < j < |rows| :: rows[i].spec.taskId != rows[j].spec.taskId
  }

  lemma {:induction false} CountsIds(rows: seq<TaskRow>, class_: Text, recovery: bool)
    requires DistinctIds(rows)
    ensures CountIn(rows, class_, recovery) == |IdsIn(rows, class_, recovery)|
    decreases |rows|
  {
    if rows != [] {
      CountsIds(rows[1..], class_, recovery);
      RecoveryNamed(rows[0]);
      forall r | r in rows[1..] ensures r.spec.taskId != rows[0].spec.taskId {
        var i :| 0 <= i < |rows| - 1 && rows[1..][i] == r;
        assert rows[i + 1] == r;
      }
      IdsCons(rows[0], rows[1..], class_, recovery);
      assert rows == [rows[0]] + rows[1..];
    }
  }

  /** The counts of `AdmitCounts`, as sizes of sets of task ids. */
  lemma CountsWaiting(tasks: TaskTable, class_: Text, recovery: bool)
    requires KeyedById(tasks)
    ensures CountIn(Sorted(PendingRows(tasks)), class_, recovery) == |Waiting(tasks, class_, recovery)|
  {
    var rows := Sorted(PendingRows(tasks));
    AllPendingAreCandidates(tasks);
    forall i, j | 0 <= i < j < |rows| ensures rows[i].spec.taskId != rows[j].spec.taskId {
      assert rows[i] in Rows(rows) && rows[j] in Rows(rows) && Before(rows[i], rows[j]);
      if rows[i] == rows[j] { BeforeAsymmetric(rows[i], rows[j]); }
    }
    CountsIds(rows, class_, recovery);
    forall id ensures id in IdsIn(rows, class_, recovery) <==> id in Waiting(tasks, class_, recovery) {
      if id in Waiting(tasks, class_, recovery) { assert tasks[id] in Rows(rows); }
      if id in IdsIn(rows, class_, recovery) {
        var r :| r in rows && IsOne(r, class_, recovery) && r.spec.taskId == id;
        assert r in Rows(rows);
      }
    }
    assert IdsIn(rows, class_, recovery) == Waiting(tasks, class_, recovery);
  }

  /** A task is stamped and in the batch, or stays as it is. */
  lemma FateOf(policies: Policies, tasks: TaskTable, limit: int, now: Time, id: TaskId)
    requires KeyedById(tasks) && id in tasks
    ensures var b := Reserve(policies, tasks, limit, now);
      && id in b.tasks
      && (if b.tasks[id] in b.selected then tasks[id].status == Pending && b.tasks[id] == Reserved(tasks[id], now) else b.tasks[id] == tasks[id])
  {
    ReserveSelects(policies, tasks, limit, now);
    var b := Reserve(policies, tasks, limit, now);
    if b.tasks[id] in b.selected { assert Picked(tasks, b.tasks, b.tasks[id], now); }
  }

  lemma InAdmitted(policies: Policies, tasks: TaskTable, limit: int, now: Time, class_: Text, recovery: bool, id: TaskId)
    requires KeyedById(tasks)
    ensures var b := Reserve(policies, tasks, limit, now);
      id in IdsIn(b.selected, class_, recovery) <==> id in Admitted(tasks, b.tasks, class_, recovery)
  {
    var b := Reserve(policies, tasks, limit, now);
    if id in tasks { FateOf(policies, tasks, limit, now, id); }
    if id in IdsIn(b.selected, class_, recovery) {
      var r :| r in b.selected && IsOne(r, class_, recovery) && r.spec.taskId == id;
      SelectedStamp(policies, tasks, limit, now, r);
    }
  }

  lemma CountsAdmitted(policies: Policies, tasks: TaskTable, limit: int, now: Time, class_: Text, recovery: bool)
    requires KeyedById(tasks)
    ensures var b := Reserve(policies, tasks, limit, now);
      CountIn(b.selected, class_, recovery) == |Admitted(tasks, b.tasks, class_, recovery)|
  {
    var b := Reserve(policies, tasks, limit, now);
    ReserveStamps(policies, tasks, limit, now);
    CountsIds(b.selected, class_, recovery);
    forall id ensures id in IdsIn(b.selected, class_, recovery) <==> id in Admitted(tasks, b.tasks, class_, recovery) {
      InAdmitted(policies, tasks, limit, now, class_, recovery, id);
    }
    assert IdsIn(b.selected, class_, recovery) == Admitted(tasks, b.tasks, class_, recovery);
  }

  lemma CountsBoth(policies: Policies, tasks: TaskTable, limit: int, now: Time, class_: Text)
    requires KeyedById(tasks)
    ensures forall recovery :: CountIn(Sorted(PendingRows(tasks)), class_, recovery) == |Waiting(tasks, class_, recovery)|
    ensures var b := Reserve(policies, tasks, limit, now);
      forall recovery :: CountIn(b.selected, class_, recovery) == |Admitted(tasks, b.tasks, class_, recovery)|
  {
    forall recovery ensures CountIn(Sorted(PendingRows(tasks)), class_, recovery) == |Waiting(tasks, class_, recovery)| {
      CountsWaiting(tasks, class_, recovery);
    }
    forall recovery
      ensures var b := Reserve(policies, tasks, limit, now);
        CountIn(b.selected, class_, recovery) == |Admitted(tasks, b.tasks, class_, recovery)|
    {
      CountsAdmitted(policies, tasks, limit, now, class_, recovery);
    }
  }

  /**
   * A call that does not reach its limit admits, of a class with target T and reserve R and
   * c tasks SUBMITTING, SUBMITTED or RUNNING, exactly a = min(r, max(0, T-c)) of its r
   * pending recoveries and min(o, max(0, T-R-c-a)) of its o other pending tasks; of a class
   * without a policy it admits everything.
   */
  lemma ReserveFills(policies: Policies, tasks: TaskTable, limit: nat, now: Time, class_: Text)
    requires KeyedById(tasks) && |Reserve(policies, tasks, limit, now).selected| < limit
    ensures var tasks' := Reserve(policies, tasks, limit, now).tasks;
      var c, r, o := |Occupying(tasks, class_)|, |Waiting(tasks, class_, true)|, |Waiting(tasks, class_, false)|;
      if class_ !in policies then
        Admitted(tasks, tasks', class_, true) == Waiting(tasks, class_, true) && Admitted(tasks, tasks', class_, false) == Waiting(tasks, class_, false)
      else
        var p := policies[class_];
        var a := Min(r, Max(0, p.targetWorkers - c));
        && |Admitted(tasks, tasks', class_, true)| == a
        && |Admitted(tasks, tasks', class_, false)| == Min(o, Max(0, p.targetWorkers - p.recoveryReserve - c - a))
  {
    var tasks' := Reserve(policies, tasks, limit, now).tasks;
    AllPendingAreCandidates(tasks);
    CountsBoth(policies, tasks, limit, now, class_);
    assert Occupying(tasks, class_) == ActiveIds(tasks, class_);
    if class_ in policies {
      AdmitCounts(policies, tasks, Sorted(PendingRows(tasks)), limit, now, class_);
    } else {
      forall recovery ensures Admitted(tasks, tasks', class_, recovery) == Waiting(tasks, class_, recovery) {
        AdmitUnlimitedClass(policies, tasks, Sorted(PendingRows(tasks)), limit, now, class_, recovery);
        SubsetFull(Admitted(tasks, tasks', class_, recovery), Waiting(tasks, class_, recovery));
      }
    }
  }

  lemma SubsetFull<T>(a: set<T>, b: set<T>)
    requires a <= b && |a| == |b|
    ensures a == b
  {
    assert b == a + (b - a);
  }
}
