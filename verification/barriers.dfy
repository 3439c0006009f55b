// Barriers: a committed manifest is immutable and stays backed by checkpoint rows, and
// while one required component keeps its task barriers are committed in increasing order.

module Barriers {
  import opened Types
  import opened Admission
  import opened Tables
  import opened Integrity

  /** The barriers a workflow announced, in log order. */
  function BarrierLog(events: seq<Event>, wid: WorkflowId): seq<int> {
    if events == [] then []
    else
      var rest, last := BarrierLog(events[..|events| - 1], wid), events[|events| - 1];
      if last.workflowId == wid && last.kind.BarrierCommitted? && last.payload.BarrierReport?
      then rest + [last.payload.barrier] else rest
  }

  /** Task events are not barriers. */
  lemma TaskEventsNoBarrier(events: seq<Event>, events': seq<Event>, wid: WorkflowId)
    requires TaskEventsOnly(events, events')
    ensures BarrierLog(events', wid) == BarrierLog(events, wid)
  {
    if events' != events { assert events'[..|events'| - 1] == events; }
  }

  // ---------------------------------------------------------------------------------
  // Committed barriers stay backed

  /** The row records the entry. */
  predicate Records(row: CheckpointRow, entry: CheckpointRef) {
    row.uri == entry.uri && row.metadata == entry.metadata
  }

  /** Task `id` is the required component `key`, and its checkpoint row of the barrier records the entry. */
  ghost predicate Backed(db: Db, wid: WorkflowId, key: Text, barrier: int, entry: CheckpointRef, id: TaskId) {
    && (wid, key) in db.components && db.components[(wid, key)].required && db.components[(wid, key)].taskId == id
    && (id, barrier) in db.checkpoints && Records(db.checkpoints[(id, barrier)], entry)
  }

  lemma ManifestBacked(name: Naming, db: Db, wid: WorkflowId, barrier: int, key: Text)
    requires Intact(name, db) && EveryHeadAt(db, wid, barrier) && key in ManifestOf(db, wid)
    ensures (wid, key) in db.components
    ensures ManifestOf(db, wid)[key].sequence == barrier
    ensures Backed(db, wid, key, barrier, ManifestOf(db, wid)[key], db.components[(wid, key)].taskId)
  {
    var slot :| slot in db.components && IsRequired(db, slot, wid) && HeadOf(db, slot).Some? && slot.1 == key;
    assert slot == (wid, key);
    assert HeadOk(db.checkpoints, db.tasks[db.components[slot].taskId]);
  }

  /** The transaction that adds a commit finds every entry of its manifest backed. */
  lemma NewCommitBacked(name: Naming, dbs: seq<Db>, ops: seq<(Op, Time)>, i: nat, wid: WorkflowId, barrier: int, key: Text)
    returns (id: TaskId)
    requires IsHistory(name, dbs, ops) && i < |ops|
    requires (wid, barrier) !in dbs[i].commits && (wid, barrier) in dbs[i + 1].commits
    requires key in dbs[i + 1].commits[(wid, barrier)].manifest
    ensures var entry := dbs[i + 1].commits[(wid, barrier)].manifest[key];
      entry.sequence == barrier && Backed(dbs[i], wid, key, barrier, entry, id)
  {
    StepHistory(name, dbs, ops, i);
    var op := ops[i].0;
    assert op.OpCommit? && op.wid == wid && op.barrier == barrier && CommitBarrier(dbs[i], wid, barrier, op.uri, ops[i].1).Ok?;
    id := BackedAt(name, dbs, ops, i, wid, barrier, key);
  }

  /** A manifest has an entry for every required component and for no other. */
  lemma ManifestComplete(db: Db, wid: WorkflowId, barrier: int, key: Text)
    requires ComponentsOk(db) && EveryHeadAt(db, wid, barrier)
    ensures key in ManifestOf(db, wid) <==> (wid, key) in db.components && db.components[(wid, key)].required
  {
    if key in ManifestOf(db, wid) {
      var slot :| slot in db.components && IsRequired(db, slot, wid) && HeadOf(db, slot).Some? && slot.1 == key;
      assert slot == (wid, key);
    }
    if (wid, key) in db.components && db.components[(wid, key)].required {
      assert IsRequired(db, (wid, key), wid);
    }
  }

  lemma ComponentsThere(name: Naming, dbs: seq<Db>, ops: seq<(Op, Time)>, i: nat)
    requires IsHistory(name, dbs, ops) && i <= |ops|
    ensures ComponentsOk(dbs[i])
  {
    RunKeeps(name, dbs, ops, i, i);
  }

  /** The manifest that a transaction commits covers exactly the components required at that moment. */
  lemma NewCommitComplete(name: Naming, dbs: seq<Db>, ops: seq<(Op, Time)>, i: nat, wid: WorkflowId, barrier: int, key: Text)
    requires IsHistory(name, dbs, ops) && i < |ops|
    requires (wid, barrier) !in dbs[i].commits && (wid, barrier) in dbs[i + 1].commits
    ensures key in dbs[i + 1].commits[(wid, barrier)].manifest
       <==> (wid, key) in dbs[i].components && dbs[i].components[(wid, key)].required
  {
    StepHistory(name, dbs, ops, i);
    var op := ops[i].0;
    assert op.OpCommit? && op.wid == wid && op.barrier == barrier && CommitBarrier(dbs[i], wid, barrier, op.uri, ops[i].1).Ok?;
    ComponentsThere(name, dbs, ops, i);
    ManifestComplete(dbs[i], wid, barrier, key);
  }

  lemma BackedAt(name: Naming, dbs: seq<Db>, ops: seq<(Op, Time)>, i: nat, wid: WorkflowId, barrier: int, key: Text)
    returns (id: TaskId)
    requires IsHistory(name, dbs, ops) && i <= |ops|
    requires EveryHeadAt(dbs[i], wid, barrier) && key in ManifestOf(dbs[i], wid)
    ensures var entry := ManifestOf(dbs[i], wid)[key];
      entry.sequence == barrier && Backed(dbs[i], wid, key, barrier, entry, id)
  {
    RunKeeps(name, dbs, ops, i, i);
    ManifestBacked(name, dbs[i], wid, barrier, key);
    id := dbs[i].components[(wid, key)].taskId;
  }

  /** Every entry of a committed manifest was backed by the component's task when it was committed. */
  lemma {:induction false} CommitWasBacked(name: Naming, dbs: seq<Db>, ops: seq<(Op, Time)>, j: nat, wid: WorkflowId, barrier: int, key: Text)
    returns (n: nat, id: TaskId)
    requires IsHistory(name, dbs, ops) && j <= |ops|
    requires (wid, barrier) in dbs[j].commits && key in dbs[j].commits[(wid, barrier)].manifest
    ensures var entry := dbs[j].commits[(wid, barrier)].manifest[key];
      n <= j && entry.sequence == barrier && Backed(dbs[n], wid, key, barrier, entry, id)
    decreases j
  {
    if j == 0 {
      assert false;
    } else if (wid, barrier) in dbs[j - 1].commits {
      StepHistory(name, dbs, ops, j - 1);
      n, id := CommitWasBacked(name, dbs, ops, j - 1, wid, barrier, key);
    } else {
      n := j - 1;
      id := NewCommitBacked(name, dbs, ops, j - 1, wid, barrier, key);
    }
  }

  /**
   * Every committed barrier stays backed forever: its row never changes again, and
   * each entry is recorded, URI and metadata, under the barrier's sequence, for a task that held that
   * required component.
   */
  lemma BarriersStayBacked(name: Naming, dbs: seq<Db>, ops: seq<(Op, Time)>, j: nat, later: nat, wid: WorkflowId, barrier: int, key: Text)
    requires IsHistory(name, dbs, ops) && j <= later <= |ops|
    requires (wid, barrier) in dbs[j].commits && key in dbs[j].commits[(wid, barrier)].manifest
    ensures var row, db' := dbs[j].commits[(wid, barrier)], dbs[later];
      && (wid, barrier) in db'.commits && db'.commits[(wid, barrier)] == row
      && row.manifest[key].sequence == barrier
      && exists n, id :: 0 <= n <= j && Backed(dbs[n], wid, key, barrier, row.manifest[key], id)
           && (id, barrier) in db'.checkpoints && Records(db'.checkpoints[(id, barrier)], row.manifest[key])
  {
    var n, id := CommitWasBacked(name, dbs, ops, j, wid, barrier, key);
    RunKeeps(name, dbs, ops, j, later);
    RunKeeps(name, dbs, ops, n, later);
  }

  /** A successful repetition of a commit, however much later, returns the first one's value. */
  lemma CommitRepeats(name: Naming, db: Db, wid: WorkflowId, barrier: int, uri: Option<Text>, now: Time,
                      dbs: seq<Db>, ops: seq<(Op, Time)>, uri': Option<Text>, later: Time)
    requires Intact(name, db) && CommitBarrier(db, wid, barrier, uri, now).Ok?
    requires IsRun(name, dbs, ops) && dbs[0] == CommitBarrier(db, wid, barrier, uri, now).value.0
    ensures var value, last := CommitBarrier(db, wid, barrier, uri, now).value.1, dbs[|ops|];
      var again := CommitBarrier(last, wid, barrier, uri', later);
      again.Ok? ==> uri' == uri && again.value == (last, value)
  {
    CommitSurvives(name, db, wid, barrier, uri, now, dbs, ops);
    CommittedOnce(db, wid, barrier, uri, now, dbs[|ops|], uri', later);
  }

  lemma CommittedOnce(db: Db, wid: WorkflowId, barrier: int, uri: Option<Text>, now: Time, last: Db, uri': Option<Text>, later: Time)
    requires CommitBarrier(db, wid, barrier, uri, now).Ok? && CommitsKept(CommitBarrier(db, wid, barrier, uri, now).value.0, last)
    ensures var again := CommitBarrier(last, wid, barrier, uri', later);
      again.Ok? ==> uri' == uri && again.value == (last, CommitBarrier(db, wid, barrier, uri, now).value.1)
  {
  }

  lemma CommitSurvives(name: Naming, db: Db, wid: WorkflowId, barrier: int, uri: Option<Text>, now: Time,
                       dbs: seq<Db>, ops: seq<(Op, Time)>)
    requires Intact(name, db) && CommitBarrier(db, wid, barrier, uri, now).Ok?
    requires IsRun(name, dbs, ops) && dbs[0] == CommitBarrier(db, wid, barrier, uri, now).value.0
    ensures CommitsKept(dbs[0], dbs[|ops|])
  {
    CommitOk(name, db, wid, barrier, uri, now);
    RunKeeps(name, dbs, ops, 0, |ops|);
  }

  // ---------------------------------------------------------------------------------
  // Commits and announcements are in bijection

  ghost predicate NoDuplicates(s: seq<int>) {
    forall i, j | 0 <= i < j < |s| :: s[i] != s[j]
  }

  /** The barriers of a workflow are exactly those it announced, each once. */
  ghost predicate Announced(db: Db, wid: WorkflowId) {
    && NoDuplicates(BarrierLog(db.events, wid))
    && (forall b :: b in BarrierLog(db.events, wid) <==> (wid, b) in db.commits)
  }

  lemma AnnouncedOne(db: Db, c: (WorkflowId, int))
    requires Announced(db, c.0) && c in db.commits
    ensures c.1 in BarrierLog(db.events, c.0)
  {
    var (wid, barrier) := c;
    assert (wid, barrier) in db.commits;
    assert barrier in BarrierLog(db.events, wid);
  }

  lemma CommitAnnounces(db: Db, wid: WorkflowId, barrier: int, uri: Option<Text>, now: Time, w: WorkflowId)
    requires CommitBarrier(db, wid, barrier, uri, now).Ok? && (wid, barrier) !in db.commits
    ensures BarrierLog(CommitBarrier(db, wid, barrier, uri, now).value.0.events, w)
         == BarrierLog(db.events, w) + (if w == wid then [barrier] else [])
  {
    var events' := CommitBarrier(db, wid, barrier, uri, now).value.0.events;
    assert events'[..|events'| - 1] == db.events;
  }

  lemma CommitKeepsAnnounced(db: Db, wid: WorkflowId, barrier: int, uri: Option<Text>, now: Time, w: WorkflowId)
    requires Announced(db, w) && CommitBarrier(db, wid, barrier, uri, now).Ok?
    ensures Announced(CommitBarrier(db, wid, barrier, uri, now).value.0, w)
  {
    if (wid, barrier) !in db.commits { CommitAnnounces(db, wid, barrier, uri, now, w); }
  }

  lemma {:induction false} CommitsAreAnnounced(name: Naming, dbs: seq<Db>, ops: seq<(Op, Time)>, j: nat, w: WorkflowId)
    requires IsHistory(name, dbs, ops) && j <= |ops|
    ensures Announced(dbs[j], w)
    decreases j
  {
    if j > 0 {
      var db, op, now := dbs[j - 1], ops[j - 1].0, ops[j - 1].1;
      CommitsAreAnnounced(name, dbs, ops, j - 1, w);
      StepHistory(name, dbs, ops, j - 1);
      if op.OpCommit? {
        if CommitBarrier(db, op.wid, op.barrier, op.uri, now).Ok? { CommitKeepsAnnounced(db, op.wid, op.barrier, op.uri, now, w); }
      } else {
        TaskEventsNoBarrier(db.events, dbs[j].events, w);
      }
    }
  }

  // ---------------------------------------------------------------------------------
  // Barriers increase

  ghost predicate Increasing(s: seq<int>) {
    forall i, j | 0 <= i < j < |s| :: s[i] < s[j]
  }

  /** Component `key` of the workflow is required and is task `id`. */
  ghost predicate Anchored(db: Db, wid: WorkflowId, key: Text, id: TaskId) {
    wid in db.workflows ==>
      && (wid, key) in db.components && db.components[(wid, key)].required && db.components[(wid, key)].taskId == id
      && id in db.tasks
  }

  /** The barriers so far increase and none is beyond the anchor's head. */
  ghost predicate BelowHead(db: Db, wid: WorkflowId, id: TaskId) {
    var log := BarrierLog(db.events, wid);
    && Increasing(log)
    && (log != [] ==> id in db.tasks && db.tasks[id].checkpoint.Some? && log[|log| - 1] <= db.tasks[id].checkpoint.value.sequence)
  }

  lemma CommitBelowHead(db: Db, wid: WorkflowId, key: Text, id: TaskId, w: WorkflowId, barrier: int, uri: Option<Text>, now: Time)
    requires BelowHead(db, wid, id) && Anchored(db, wid, key, id) && Announced(db, wid)
    requires CommitBarrier(db, w, barrier, uri, now).Ok?
    ensures BelowHead(CommitBarrier(db, w, barrier, uri, now).value.0, wid, id)
  {
    if (w, barrier) !in db.commits {
      CommitAnnounces(db, w, barrier, uri, now, wid);
      if w == wid {
        assert IsRequired(db, (wid, key), wid);
        var log := BarrierLog(db.events, wid);
        if log != [] { assert log[|log| - 1] in log; }
      }
    }
  }

  /** The workflow's required component `key` is the same task in every state up to `j`. */
  ghost predicate AnchoredUpTo(dbs: seq<Db>, j: nat, wid: WorkflowId, key: Text, id: TaskId) {
    j < |dbs| && forall n | 0 <= n <= j :: Anchored(dbs[n], wid, key, id)
  }

  lemma StepBelowHead(name: Naming, dbs: seq<Db>, ops: seq<(Op, Time)>, i: nat, wid: WorkflowId, key: Text, id: TaskId)
    requires IsHistory(name, dbs, ops) && i < |ops| && Anchored(dbs[i], wid, key, id) && BelowHead(dbs[i], wid, id)
    ensures BelowHead(dbs[i + 1], wid, id)
  {
    var db, op, now := dbs[i], ops[i].0, ops[i].1;
    StepHistory(name, dbs, ops, i);
    if op.OpCommit? {
      CommitsAreAnnounced(name, dbs, ops, i, wid);
      if CommitBarrier(db, op.wid, op.barrier, op.uri, now).Ok? {
        CommitBelowHead(db, wid, key, id, op.wid, op.barrier, op.uri, now);
      }
    } else {
      TaskEventsNoBarrier(db.events, dbs[i + 1].events, wid);
      assert id in db.tasks ==> id in dbs[i + 1].tasks && HeadAdvances(db.tasks[id], dbs[i + 1].tasks[id]);
    }
  }

  /**
   * While one required component keeps its task, the barriers of the workflow are
   * committed in strictly increasing order.
   */
  lemma {:induction false} BarriersIncrease(name: Naming, dbs: seq<Db>, ops: seq<(Op, Time)>, j: nat, wid: WorkflowId, key: Text, id: TaskId)
    requires IsHistory(name, dbs, ops) && j <= |ops| && AnchoredUpTo(dbs, j, wid, key, id)
    ensures BelowHead(dbs[j], wid, id)
    decreases j
  {
    if j > 0 {
      BarriersIncrease(name, dbs, ops, j - 1, wid, key, id);
      StepBelowHead(name, dbs, ops, j - 1, wid, key, id);
    }
  }

  /** `latest_barrier`: the greatest committed barrier of the workflow. */
  ghost predicate IsLatest(db: Db, wid: WorkflowId, barrier: int) {
    (wid, barrier) in db.commits && forall c | c in db.commits && c.0 == wid :: c.1 <= barrier
  }

  /** So the latest barrier is the one announced last. */
  lemma LatestIsLastAnnounced(name: Naming, dbs: seq<Db>, ops: seq<(Op, Time)>, j: nat, wid: WorkflowId, key: Text, id: TaskId, barrier: int)
    requires IsHistory(name, dbs, ops) && j <= |ops| && AnchoredUpTo(dbs, j, wid, key, id)
    ensures var log := BarrierLog(dbs[j].events, wid);
      IsLatest(dbs[j], wid, barrier) <==> log != [] && barrier == log[|log| - 1]
  {
    BarriersIncrease(name, dbs, ops, j, wid, key, id);
    CommitsAreAnnounced(name, dbs, ops, j, wid);
    var db := dbs[j];
    var log := BarrierLog(db.events, wid);
    forall c | c in db.commits && c.0 == wid ensures c.1 in log { AnnouncedOne(db, c); }
    if log != [] { assert log[|log| - 1] in log; }
  }
}
