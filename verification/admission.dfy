// Admission: which pending tasks `reserve_submissions` moves to SUBMITTING.
//
// `Admit` is the reference form: before every row it recounts the occupied slots of the
// row's class in the current table. The store's method keeps a counter instead and is
// proved equal to this form in store.dfy.

module Admission {
  import opened Types
  import opened RowOrder

  type Policies = map<Text, ResourcePolicy>

  function ActiveIds(tasks: TaskTable, class_: Text): set<TaskId> {
    set id | id in tasks && tasks[id].Class() == class_ && tasks[id].status.OccupiesSlot()
  }

  function ActiveCount(tasks: TaskTable, class_: Text): nat {
    |ActiveIds(tasks, class_)|
  }

  function PendingRows(tasks: TaskTable): set<TaskRow> {
    set id | id in tasks && tasks[id].status == Pending :: tasks[id]
  }

  /** Recovery tasks may use every worker, ordinary ones leave the reserve alone. */
  function Capacity(policy: ResourcePolicy, row: TaskRow): nat {
    if row.IsRecovery() then policy.targetWorkers
    else policy.targetWorkers - policy.recoveryReserve
  }

  predicate HasRoom(policies: Policies, count: nat, row: TaskRow) {
    row.Class() in policies ==> count < Capacity(policies[row.Class()], row)
  }

  function Reserved(row: TaskRow, now: Time): TaskRow {
    row.(status := Submitting, startedAt := Some(now), updatedAt := now, lastError := None)
  }

  function MarkSubmitting(tasks: TaskTable, row: TaskRow, now: Time): TaskTable {
    tasks[row.Id() := Reserved(row, now)]
  }

  /** The table after a batch, the admitted rows and the rows left pending. */
  datatype Batch = Batch(tasks: TaskTable, selected: seq<TaskRow>, left: seq<TaskRow>)

  function Admit(policies: Policies, tasks: TaskTable, rows: seq<TaskRow>, limit: nat, now: Time): Batch
    decreases |rows|
  {
    if limit == 0 || rows == [] then Batch(tasks, [], rows)
    else if HasRoom(policies, ActiveCount(tasks, rows[0].Class()), rows[0]) then
      var b := Admit(policies, MarkSubmitting(tasks, rows[0], now), rows[1..], limit - 1, now);
      Batch(b.tasks, [Reserved(rows[0], now)] + b.selected, b.left)
    else
      var b := Admit(policies, tasks, rows[1..], limit, now);
      Batch(b.tasks, b.selected, [rows[0]] + b.left)
  }

  /** The rows are pending rows of the table, listed once each in admission order. */
  ghost predicate Candidates(tasks: TaskTable, rows: seq<TaskRow>) {
    KeyedById(tasks) && Ordered(rows) && Rows(rows) <= PendingRows(tasks)
  }

  lemma CandidatesTail(tasks: TaskTable, rows: seq<TaskRow>)
    requires Candidates(tasks, rows) && rows != []
    ensures rows[0] in PendingRows(tasks) && rows[0].Id() in tasks && rows[0] !in Rows(rows[1..])
    ensures rows[0].status == Pending && tasks[rows[0].Id()] == rows[0]
    ensures Rows(rows) == {rows[0]} + Rows(rows[1..])
    ensures Candidates(tasks, rows[1..])
  {
    assert rows[0] in Rows(rows);
    forall r | r in Rows(rows[1..]) ensures r in Rows(rows) && r != rows[0] {
      var i :| 0 <= i < |rows| - 1 && rows[1..][i] == r;
      assert Before(rows[0], rows[i + 1]);
      if r == rows[0] { BeforeAsymmetric(r, r); }
    }
    assert rows == [rows[0]] + rows[1..];
  }

  /** Marking one pending row takes exactly one slot of its class and none of any other. */
  lemma MarkCounts(tasks: TaskTable, row: TaskRow, now: Time, class_: Text)
    requires KeyedById(tasks) && row in PendingRows(tasks)
    ensures ActiveCount(MarkSubmitting(tasks, row, now), class_)
         == ActiveCount(tasks, class_) + (if row.Class() == class_ then 1 else 0)
    ensures PendingRows(MarkSubmitting(tasks, row, now)) == PendingRows(tasks) - {row}
  {
    var tasks' := MarkSubmitting(tasks, row, now);
    if row.Class() == class_ {
      assert ActiveIds(tasks', class_) == ActiveIds(tasks, class_) + {row.Id()};
    } else {
      assert ActiveIds(tasks', class_) == ActiveIds(tasks, class_);
    }
    forall r ensures r in PendingRows(tasks') <==> r in PendingRows(tasks) - {row} {
      if r in PendingRows(tasks) - {row} { assert r.Id() in tasks' && tasks'[r.Id()] == r; }
      if r in PendingRows(tasks') { assert tasks'[r.Id()] == r && r.Id() in tasks; }
    }
  }

  /** The induction step shared by every theorem about `Admit`. */
  lemma AdmitStep(tasks: TaskTable, rows: seq<TaskRow>, now: Time, class_: Text)
    requires Candidates(tasks, rows) && rows != []
    ensures Candidates(tasks, rows[1..]) && rows[0] in PendingRows(tasks)
    ensures Candidates(MarkSubmitting(tasks, rows[0], now), rows[1..])
    ensures ActiveCount(MarkSubmitting(tasks, rows[0], now), class_)
         == ActiveCount(tasks, class_) + (if rows[0].Class() == class_ then 1 else 0)
  {
    CandidatesTail(tasks, rows);
    MarkCounts(tasks, rows[0], now, class_);
  }

  // ---------------------------------------------------------------------------------
  // What a batch does to the table

  /** Row `r` of the new table is a pending row of the old one, stamped. */
  ghost predicate Picked(tasks: TaskTable, tasks': TaskTable, r: TaskRow, now: Time) {
    && r.Id() in tasks && tasks[r.Id()].status == Pending
    && r.Id() in tasks' && r == tasks'[r.Id()] == Reserved(tasks[r.Id()], now)
  }

  ghost predicate Selects(tasks: TaskTable, b: Batch, now: Time) {
    && b.tasks.Keys == tasks.Keys && KeyedById(b.tasks)
    && (forall r | r in b.selected :: Picked(tasks, b.tasks, r, now))
    && (forall i, j | 0 <= i < j < |b.selected| :: b.selected[i].Id() != b.selected[j].Id())
    && (forall id | id in tasks :: b.tasks[id] == tasks[id] || b.tasks[id] in b.selected)
  }

  lemma SelectsCons(tasks: TaskTable, row: TaskRow, b: Batch, now: Time)
    requires KeyedById(tasks) && row in PendingRows(tasks)
    requires Selects(MarkSubmitting(tasks, row, now), b, now)
    ensures Selects(tasks, Batch(b.tasks, [Reserved(row, now)] + b.selected, b.left), now)
  {
    var tasks', first := MarkSubmitting(tasks, row, now), Reserved(row, now);
    var selected := [first] + b.selected;
    forall r | r in b.selected ensures r.Id() != row.Id() && Picked(tasks, b.tasks, r, now) {
      assert Picked(tasks', b.tasks, r, now);
    }
    assert Picked(tasks, b.tasks, first, now);
    forall id | id in tasks ensures b.tasks[id] == tasks[id] || b.tasks[id] in selected {
      assert id in tasks' && (b.tasks[id] == tasks'[id] || b.tasks[id] in b.selected);
      assert selected[0] == first;
    }
    forall i, j | 0 <= i < j < |selected| ensures selected[i].Id() != selected[j].Id() {
      assert selected[j] == b.selected[j - 1] && b.selected[j - 1] in b.selected;
      if i > 0 { assert selected[i] == b.selected[i - 1]; }
    }
  }

  /** The selected rows are distinct pending rows, each stamped in place; no other row changes. */
  lemma {:induction false} AdmitSelects(policies: Policies, tasks: TaskTable, rows: seq<TaskRow>, limit: nat, now: Time)
    requires Candidates(tasks, rows)
    ensures Selects(tasks, Admit(policies, tasks, rows, limit, now), now)
    decreases |rows|
  {
    if limit > 0 && rows != [] {
      AdmitStep(tasks, rows, now, rows[0].Class());
      if HasRoom(policies, ActiveCount(tasks, rows[0].Class()), rows[0]) {
        var tasks' := MarkSubmitting(tasks, rows[0], now);
        AdmitSelects(policies, tasks', rows[1..], limit - 1, now);
        SelectsCons(tasks, rows[0], Admit(policies, tasks', rows[1..], limit - 1, now), now);
      } else {
        AdmitSelects(policies, tasks, rows[1..], limit, now);
      }
    }
  }

  lemma {:induction false} AdmitsAtMostLimit(policies: Policies, tasks: TaskTable, rows: seq<TaskRow>, limit: nat, now: Time)
    ensures |Admit(policies, tasks, rows, limit, now).selected| <= limit
    decreases |rows|
  {
    if limit > 0 && rows != [] {
      AdmitsAtMostLimit(policies, MarkSubmitting(tasks, rows[0], now), rows[1..], limit - 1, now);
      AdmitsAtMostLimit(policies, tasks, rows[1..], limit, now);
    }
  }

  /** The rows left are exactly the pending rows that remain, still in admission order. */
  lemma {:induction false} AdmitLeaves(policies: Policies, tasks: TaskTable, rows: seq<TaskRow>, limit: nat, now: Time)
    requires Candidates(tasks, rows)
    ensures var b := Admit(policies, tasks, rows, limit, now);
      && Rows(b.left) <= Rows(rows) && Candidates(b.tasks, b.left)
      && PendingRows(b.tasks) == PendingRows(tasks) - (Rows(rows) - Rows(b.left))
    decreases |rows|
  {
    var b := Admit(policies, tasks, rows, limit, now);
    if limit > 0 && rows != [] {
      var row := rows[0];
      AdmitStep(tasks, rows, now, rows[0].Class());
      CandidatesTail(tasks, rows);
      if HasRoom(policies, ActiveCount(tasks, row.Class()), row) {
        AdmitLeaves(policies, MarkSubmitting(tasks, row, now), rows[1..], limit - 1, now);
        MarkCounts(tasks, row, now, row.Class());
        assert Rows(rows) - Rows(b.left) == {row} + (Rows(rows[1..]) - Rows(b.left));
      } else {
        AdmitLeaves(policies, tasks, rows[1..], limit, now);
        LeftCons(policies, tasks, rows, limit, now);
      }
    }
  }

  lemma LeftCons(policies: Policies, tasks: TaskTable, rows: seq<TaskRow>, limit: nat, now: Time)
    requires Candidates(tasks, rows) && rows != []
    requires var b := Admit(policies, tasks, rows[1..], limit, now);
      && Rows(b.left) <= Rows(rows[1..]) && Candidates(b.tasks, b.left)
      && PendingRows(b.tasks) == PendingRows(tasks) - (Rows(rows[1..]) - Rows(b.left))
    ensures var b := Admit(policies, tasks, rows[1..], limit, now);
      && Rows([rows[0]] + b.left) == {rows[0]} + Rows(b.left) <= Rows(rows)
      && Rows(rows) - Rows([rows[0]] + b.left) == Rows(rows[1..]) - Rows(b.left)
      && Candidates(b.tasks, [rows[0]] + b.left)
  {
    var b, row := Admit(policies, tasks, rows[1..], limit, now), rows[0];
    CandidatesTail(tasks, rows);
    assert Rows([row] + b.left) == {row} + Rows(b.left);
    forall j | 0 <= j < |b.left| ensures Before(row, b.left[j]) {
      assert b.left[j] in Rows(rows[1..]);
      var i :| 0 <= i < |rows| - 1 && rows[1..][i] == b.left[j];
      assert Before(rows[0], rows[i + 1]);
    }
    assert Ordered([row] + b.left);
  }

  /** Slots are only ever taken. */
  lemma {:induction false} AdmitGrows(policies: Policies, tasks: TaskTable, rows: seq<TaskRow>, limit: nat, now: Time, class_: Text)
    requires Candidates(tasks, rows)
    ensures ActiveCount(Admit(policies, tasks, rows, limit, now).tasks, class_) >= ActiveCount(tasks, class_)
    decreases |rows|
  {
    if limit > 0 && rows != [] {
      AdmitStep(tasks, rows, now, class_);
      if HasRoom(policies, ActiveCount(tasks, rows[0].Class()), rows[0]) {
        AdmitGrows(policies, MarkSubmitting(tasks, rows[0], now), rows[1..], limit - 1, now, class_);
      } else {
        AdmitGrows(policies, tasks, rows[1..], limit, now, class_);
      }
    }
  }

  // ---------------------------------------------------------------------------------
  // How many tasks of a class a batch admits

  function Min(a: int, b: int): int { if a < b then a else b }

  function Max(a: int, b: int): int { if a > b then a else b }

  /** Rows of one class and one kind (recovery or ordinary) in a listing. */
  function CountIn(rows: seq<TaskRow>, class_: Text, recovery: bool): nat {
    if rows == [] then 0
    else
      var here := if rows[0].Class() == class_ && rows[0].IsRecovery() == recovery then 1 else 0;
      here + CountIn(rows[1..], class_, recovery)
  }

  lemma {:induction false} NoRecoveryAfterOrdinary(rows: seq<TaskRow>, class_: Text)
    requires Ordered(rows) && rows != [] && !rows[0].IsRecovery()
    ensures CountIn(rows, class_, true) == 0
    decreases |rows|
  {
    if |rows| > 1 {
      assert Before(rows[0], rows[1]);
      NoRecoveryAfterOrdinary(rows[1..], class_);
    }
  }

  lemma CountCons(row: TaskRow, rows: seq<TaskRow>, class_: Text, recovery: bool)
    ensures CountIn([row] + rows, class_, recovery)
         == (if row.Class() == class_ && row.IsRecovery() == recovery then 1 else 0) + CountIn(rows, class_, recovery)
  {
    assert ([row] + rows)[1..] == rows;
  }

  /** Of r recovery candidates, as many as fit the free workers. */
  function RecoveryShare(policy: ResourcePolicy, occupied: nat, r: nat): nat {
    Min(r, Max(0, policy.targetWorkers - occupied))
  }

  /** Of o ordinary candidates, as many as fit after the recoveries without touching the reserve. */
  function OrdinaryShare(policy: ResourcePolicy, occupied: nat, r: nat, o: nat): nat {
    Min(o, Max(0, policy.targetWorkers - policy.recoveryReserve - occupied - RecoveryShare(policy, occupied, r)))
  }

  /** How the shares change with the first candidate; ordinary ones come after all recoveries. */
  lemma ShareStep(policy: ResourcePolicy, occupied: nat, r: nat, o: nat)
    ensures r > 0 && occupied < policy.targetWorkers ==>
      && RecoveryShare(policy, occupied, r) == 1 + RecoveryShare(policy, occupied + 1, r - 1)
      && OrdinaryShare(policy, occupied, r, o) == OrdinaryShare(policy, occupied + 1, r - 1, o)
    ensures r > 0 && occupied >= policy.targetWorkers ==>
      && RecoveryShare(policy, occupied, r) == RecoveryShare(policy, occupied, r - 1)
      && OrdinaryShare(policy, occupied, r, o) == OrdinaryShare(policy, occupied, r - 1, o)
    ensures r == 0 && o > 0 && occupied < policy.targetWorkers - policy.recoveryReserve ==>
      OrdinaryShare(policy, occupied, r, o) == 1 + OrdinaryShare(policy, occupied + 1, r, o - 1)
    ensures r == 0 && o > 0 && occupied >= policy.targetWorkers - policy.recoveryReserve ==>
      OrdinaryShare(policy, occupied, r, o) == OrdinaryShare(policy, occupied, r, o - 1)
    ensures RecoveryShare(policy, occupied, 0) == 0
  {
  }

  /** What a batch admits of a class, told from the table and the candidates. */
  ghost predicate AdmitsShares(policies: Policies, tasks: TaskTable, rows: seq<TaskRow>, selected: seq<TaskRow>, class_: Text)
    requires class_ in policies
  {
    var c, r, o := ActiveCount(tasks, class_), CountIn(rows, class_, true), CountIn(rows, class_, false);
    && CountIn(selected, class_, true) == RecoveryShare(policies[class_], c, r)
    && CountIn(selected, class_, false) == OrdinaryShare(policies[class_], c, r, o)
  }

  lemma SharesAdmitted(policies: Policies, tasks: TaskTable, rows: seq<TaskRow>, selected: seq<TaskRow>, now: Time, class_: Text)
    requires class_ in policies && rows != [] && (!rows[0].IsRecovery() ==> CountIn(rows, class_, true) == 0)
    requires HasRoom(policies, ActiveCount(tasks, rows[0].Class()), rows[0])
    requires var tasks' := MarkSubmitting(tasks, rows[0], now);
      && ActiveCount(tasks', class_) == ActiveCount(tasks, class_) + (if rows[0].Class() == class_ then 1 else 0)
      && AdmitsShares(policies, tasks', rows[1..], selected, class_)
    ensures AdmitsShares(policies, tasks, rows, [Reserved(rows[0], now)] + selected, class_)
  {
    ShareStep(policies[class_], ActiveCount(tasks, class_), CountIn(rows, class_, true), CountIn(rows, class_, false));
    CountCons(Reserved(rows[0], now), selected, class_, true);
    CountCons(Reserved(rows[0], now), selected, class_, false);
  }

  lemma SharesSkipped(policies: Policies, tasks: TaskTable, rows: seq<TaskRow>, selected: seq<TaskRow>, class_: Text)
    requires class_ in policies && rows != [] && (!rows[0].IsRecovery() ==> CountIn(rows, class_, true) == 0)
    requires !HasRoom(policies, ActiveCount(tasks, rows[0].Class()), rows[0])
    requires AdmitsShares(policies, tasks, rows[1..], selected, class_)
    ensures AdmitsShares(policies, tasks, rows, selected, class_)
  {
    ShareStep(policies[class_], ActiveCount(tasks, class_), CountIn(rows, class_, true), CountIn(rows, class_, false));
  }

  /**
   * A batch that is not cut by the limit admits, of a class with target T and reserve R
   * and c occupied slots, exactly a = min(r, max(0, T-c)) of its r recovery candidates and
   * min(o, max(0, T-R-c-a)) of its o ordinary ones.
   */
  lemma {:induction false} AdmitCounts(policies: Policies, tasks: TaskTable, rows: seq<TaskRow>, limit: nat, now: Time, class_: Text)
    requires Candidates(tasks, rows) && class_ in policies
    requires |Admit(policies, tasks, rows, limit, now).selected| < limit
    ensures AdmitsShares(policies, tasks, rows, Admit(policies, tasks, rows, limit, now).selected, class_)
    decreases |rows|
  {
    if rows != [] {
      AdmitStep(tasks, rows, now, class_);
      if !rows[0].IsRecovery() { NoRecoveryAfterOrdinary(rows, class_); }
      if HasRoom(policies, ActiveCount(tasks, rows[0].Class()), rows[0]) {
        var tasks' := MarkSubmitting(tasks, rows[0], now);
        AdmitCounts(policies, tasks', rows[1..], limit - 1, now, class_);
        SharesAdmitted(policies, tasks, rows, Admit(policies, tasks', rows[1..], limit - 1, now).selected, now, class_);
      } else {
        AdmitCounts(policies, tasks, rows[1..], limit, now, class_);
        SharesSkipped(policies, tasks, rows, Admit(policies, tasks, rows[1..], limit, now).selected, class_);
      }
    }
  }

  /** The same for a class without a policy: everything pending is admitted. */
  lemma {:induction false} AdmitUnlimitedClass(policies: Policies, tasks: TaskTable, rows: seq<TaskRow>, limit: nat, now: Time, class_: Text, recovery: bool)
    requires Candidates(tasks, rows) && class_ !in policies
    requires |Admit(policies, tasks, rows, limit, now).selected| < limit
    ensures CountIn(Admit(policies, tasks, rows, limit, now).selected, class_, recovery) == CountIn(rows, class_, recovery)
    decreases |rows|
  {
    if rows != [] {
      AdmitStep(tasks, rows, now, class_);
      if HasRoom(policies, ActiveCount(tasks, rows[0].Class()), rows[0]) {
        var tasks' := MarkSubmitting(tasks, rows[0], now);
        var b' := Admit(policies, tasks', rows[1..], limit - 1, now);
        AdmitUnlimitedClass(policies, tasks', rows[1..], limit - 1, now, class_, recovery);
        CountCons(Reserved(rows[0], now), b'.selected, class_, recovery);
      } else {
        AdmitUnlimitedClass(policies, tasks, rows[1..], limit, now, class_, recovery);
      }
    }
  }

  // ---------------------------------------------------------------------------------
  // No priority inversion, work conservation

  /** The rows of one class, in order. */
  function OfClass(rows: seq<TaskRow>, class_: Text): seq<TaskRow> {
    if rows == [] then []
    else (if rows[0].Class() == class_ then [rows[0]] else []) + OfClass(rows[1..], class_)
  }

  function ReservedAll(rows: seq<TaskRow>, now: Time): seq<TaskRow> {
    if rows == [] then [] else [Reserved(rows[0], now)] + ReservedAll(rows[1..], now)
  }

  /** No row of the class is admitted once an earlier one could not be. */
  lemma {:induction false} FullStaysFull(policies: Policies, tasks: TaskTable, rows: seq<TaskRow>, limit: nat, now: Time, refused: TaskRow)
    requires Candidates(tasks, rows)
    requires forall r | r in rows :: Before(refused, r)
    requires !HasRoom(policies, ActiveCount(tasks, refused.Class()), refused)
    ensures OfClass(Admit(policies, tasks, rows, limit, now).selected, refused.Class()) == []
    decreases |rows|
  {
    if limit > 0 && rows != [] {
      AdmitStep(tasks, rows, now, refused.Class());
      assert rows[0] in rows;
      if HasRoom(policies, ActiveCount(tasks, rows[0].Class()), rows[0]) {
        var tasks' := MarkSubmitting(tasks, rows[0], now);
        var b' := Admit(policies, tasks', rows[1..], limit - 1, now);
        FullStaysFull(policies, tasks', rows[1..], limit - 1, now, refused);
        assert ([Reserved(rows[0], now)] + b'.selected)[1..] == b'.selected;
      } else {
        FullStaysFull(policies, tasks, rows[1..], limit, now, refused);
      }
    }
  }

  lemma PrefixAdmitted(rows: seq<TaskRow>, selected: seq<TaskRow>, now: Time, class_: Text)
    requires rows != [] && OfClass(selected, class_) <= ReservedAll(OfClass(rows[1..], class_), now)
    ensures OfClass([Reserved(rows[0], now)] + selected, class_) <= ReservedAll(OfClass(rows, class_), now)
  {
    assert ([Reserved(rows[0], now)] + selected)[1..] == selected;
    if rows[0].Class() == class_ {
      assert OfClass(rows, class_)[1..] == OfClass(rows[1..], class_);
    } else {
      assert OfClass(rows, class_) == OfClass(rows[1..], class_);
    }
  }

  lemma FirstBeforeRest(rows: seq<TaskRow>)
    requires Ordered(rows) && rows != []
    ensures forall r | r in rows[1..] :: Before(rows[0], r)
  {
    forall r | r in rows[1..] ensures Before(rows[0], r) {
      var i :| 0 <= i < |rows| - 1 && rows[1..][i] == r;
      assert Before(rows[0], rows[i + 1]);
    }
  }

  /**
   * Within each class the admitted tasks are a prefix of the candidates in admission
   * order, whether or not the limit cuts the batch.
   */
  lemma {:induction false} AdmitsPrefixOfClass(policies: Policies, tasks: TaskTable, rows: seq<TaskRow>, limit: nat, now: Time, class_: Text)
    requires Candidates(tasks, rows)
    ensures OfClass(Admit(policies, tasks, rows, limit, now).selected, class_)
         <= ReservedAll(OfClass(rows, class_), now)
    decreases |rows|
  {
    if limit > 0 && rows != [] {
      var row := rows[0];
      AdmitStep(tasks, rows, now, class_);
      if HasRoom(policies, ActiveCount(tasks, row.Class()), row) {
        var tasks' := MarkSubmitting(tasks, row, now);
        AdmitsPrefixOfClass(policies, tasks', rows[1..], limit - 1, now, class_);
        PrefixAdmitted(rows, Admit(policies, tasks', rows[1..], limit - 1, now).selected, now, class_);
      } else if row.Class() == class_ {
        FirstBeforeRest(rows);
        FullStaysFull(policies, tasks, rows[1..], limit, now, row);
      } else {
        AdmitsPrefixOfClass(policies, tasks, rows[1..], limit, now, class_);
        assert OfClass(rows, class_) == OfClass(rows[1..], class_);
      }
    }
  }

  /** If the limit is not reached, every row left has its class at or above its capacity. */
  lemma {:induction false} AdmitConservesWork(policies: Policies, tasks: TaskTable, rows: seq<TaskRow>, limit: nat, now: Time, row: TaskRow)
    requires Candidates(tasks, rows)
    requires |Admit(policies, tasks, rows, limit, now).selected| < limit
    requires row in Admit(policies, tasks, rows, limit, now).left
    ensures !HasRoom(policies, ActiveCount(Admit(policies, tasks, rows, limit, now).tasks, row.Class()), row)
    decreases |rows|
  {
    AdmitStep(tasks, rows, now, rows[0].Class());
    if HasRoom(policies, ActiveCount(tasks, rows[0].Class()), rows[0]) {
      AdmitConservesWork(policies, MarkSubmitting(tasks, rows[0], now), rows[1..], limit - 1, now, row);
    } else if row in Admit(policies, tasks, rows[1..], limit, now).left {
      AdmitConservesWork(policies, tasks, rows[1..], limit, now, row);
    } else {
      AdmitGrows(policies, tasks, rows[1..], limit, now, row.Class());
    }
  }

  // ---------------------------------------------------------------------------------
  // Admission composes

  /** Both ways of reserving a + b. */
  ghost predicate Composes(policies: Policies, tasks: TaskTable, rows: seq<TaskRow>, a: nat, b: nat, now: Time) {
    var first := Admit(policies, tasks, rows, a, now);
    var second := Admit(policies, first.tasks, first.left, b, now);
    Admit(policies, tasks, rows, a + b, now) == Batch(second.tasks, first.selected + second.selected, second.left)
  }

  lemma ComposesAdmitted(policies: Policies, tasks: TaskTable, rows: seq<TaskRow>, a: nat, b: nat, now: Time)
    requires a > 0 && rows != [] && HasRoom(policies, ActiveCount(tasks, rows[0].Class()), rows[0])
    requires Composes(policies, MarkSubmitting(tasks, rows[0], now), rows[1..], a - 1, b, now)
    ensures Composes(policies, tasks, rows, a, b, now)
  {
    var first := Admit(policies, MarkSubmitting(tasks, rows[0], now), rows[1..], a - 1, now);
    var second := Admit(policies, first.tasks, first.left, b, now);
    assert [Reserved(rows[0], now)] + (first.selected + second.selected) == ([Reserved(rows[0], now)] + first.selected) + second.selected;
  }

  lemma ComposesSkipped(policies: Policies, tasks: TaskTable, rows: seq<TaskRow>, a: nat, b: nat, now: Time)
    requires a > 0 && rows != [] && !HasRoom(policies, ActiveCount(tasks, rows[0].Class()), rows[0])
    requires Composes(policies, tasks, rows[1..], a, b, now)
    requires ActiveCount(Admit(policies, tasks, rows[1..], a, now).tasks, rows[0].Class()) >= ActiveCount(tasks, rows[0].Class())
    ensures Composes(policies, tasks, rows, a, b, now)
  {
    var first := Admit(policies, tasks, rows[1..], a, now);
    assert ([rows[0]] + first.left)[1..] == first.left;
    if b == 0 {
      assert first.selected + [] == first.selected;
    }
  }

  lemma {:induction false} AdmitComposes(policies: Policies, tasks: TaskTable, rows: seq<TaskRow>, a: nat, b: nat, now: Time)
    requires Candidates(tasks, rows)
    ensures Composes(policies, tasks, rows, a, b, now)
    decreases |rows|
  {
    if a == 0 {
      var second := Admit(policies, tasks, rows, b, now);
      assert [] + second.selected == second.selected;
    } else if rows != [] {
      AdmitStep(tasks, rows, now, rows[0].Class());
      if HasRoom(policies, ActiveCount(tasks, rows[0].Class()), rows[0]) {
        AdmitComposes(policies, MarkSubmitting(tasks, rows[0], now), rows[1..], a - 1, b, now);
        ComposesAdmitted(policies, tasks, rows, a, b, now);
      } else {
        AdmitComposes(policies, tasks, rows[1..], a, b, now);
        AdmitGrows(policies, tasks, rows[1..], a, now, rows[0].Class());
        ComposesSkipped(policies, tasks, rows, a, b, now);
      }
    }
  }

  // ---------------------------------------------------------------------------------
  // The whole call

  /** `reserve_submissions` on the table: a limit below one admits nothing. */
  function Reserve(policies: Policies, tasks: TaskTable, limit: int, now: Time): Batch {
    var rows := Sorted(PendingRows(tasks));
    if limit < 1 then Batch(tasks, [], rows) else Admit(policies, tasks, rows, limit, now)
  }

  lemma PendingKeyed(tasks: TaskTable)
    requires KeyedById(tasks)
    ensures Keyed(PendingRows(tasks))
  {
  }

  lemma AllPendingAreCandidates(tasks: TaskTable)
    requires KeyedById(tasks)
    ensures Candidates(tasks, Sorted(PendingRows(tasks)))
    ensures Rows(Sorted(PendingRows(tasks))) == PendingRows(tasks)
  {
    PendingKeyed(tasks);
    SortedCorrect(PendingRows(tasks));
  }

  /** What is left pending is exactly what the next call will look at. */
  lemma ReserveLeavesPending(policies: Policies, tasks: TaskTable, limit: int, now: Time)
    requires KeyedById(tasks)
    ensures var b := Reserve(policies, tasks, limit, now); b.left == Sorted(PendingRows(b.tasks))
  {
    var rows := Sorted(PendingRows(tasks));
    AllPendingAreCandidates(tasks);
    if limit >= 1 {
      AdmitLeaves(policies, tasks, rows, limit, now);
      var b := Reserve(policies, tasks, limit, now);
      assert PendingRows(b.tasks) == Rows(b.left);
      PendingKeyed(b.tasks);
      SortedUnique(b.left);
    }
  }

  /** Reserving a and then b at the same time is reserving a + b. */
  lemma ReserveComposes(policies: Policies, tasks: TaskTable, a: nat, b: nat, now: Time)
    requires KeyedById(tasks)
    ensures var first := Reserve(policies, tasks, a, now);
      var second := Reserve(policies, first.tasks, b, now);
      Reserve(policies, tasks, a + b, now) == Batch(second.tasks, first.selected + second.selected, second.left)
  {
    var rows := Sorted(PendingRows(tasks));
    AllPendingAreCandidates(tasks);
    AdmitComposes(policies, tasks, rows, a, b, now);
    ReserveLeavesPending(policies, tasks, a, now);
    assert forall t: TaskTable, s: seq<TaskRow> :: Admit(policies, t, s, 0, now) == Batch(t, [], s);
  }

  /** A call that admitted fewer tasks than its limit has reached a fixpoint. */
  lemma ReserveFixpoint(policies: Policies, tasks: TaskTable, limit: nat, more: nat, now: Time)
    requires KeyedById(tasks)
    requires |Reserve(policies, tasks, limit, now).selected| < limit
    ensures var first := Reserve(policies, tasks, limit, now);
      Reserve(policies, first.tasks, more, now) == Batch(first.tasks, [], first.left)
  {
    var first := Reserve(policies, tasks, limit, now);
    ReserveComposes(policies, tasks, limit, more, now);
    var second := Reserve(policies, first.tasks, more, now);
    AllPendingAreCandidates(tasks);
    LimitNotReached(policies, tasks, Sorted(PendingRows(tasks)), limit, more, now);
    assert first.selected + second.selected == first.selected;
    assert |second.selected| == 0;
  }

  /** A larger limit changes nothing for a batch that did not reach its own. */
  lemma {:induction false} LimitNotReached(policies: Policies, tasks: TaskTable, rows: seq<TaskRow>, limit: nat, more: nat, now: Time)
    requires |Admit(policies, tasks, rows, limit, now).selected| < limit
    ensures Admit(policies, tasks, rows, limit + more, now) == Admit(policies, tasks, rows, limit, now)
    decreases |rows|
  {
    if rows != [] {
      if HasRoom(policies, ActiveCount(tasks, rows[0].Class()), rows[0]) {
        LimitNotReached(policies, MarkSubmitting(tasks, rows[0], now), rows[1..], limit - 1, more, now);
      } else {
        LimitNotReached(policies, tasks, rows[1..], limit, more, now);
      }
    }
  }
}
