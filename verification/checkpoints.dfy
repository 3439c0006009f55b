// Checkpoint publication: monotone heads, immutable rows, and the same outcome for any
// order and any repetition of the same publications.

module Checkpoints {
  import opened Types
  import opened Admission
  import opened Tables
  import opened Integrity

  /** A checkpoint of a task, published at a time. */
  datatype Publication = Publication(task: TaskId, checkpoint: CheckpointRef, at: Time)

  /** The tables after publishing in order; a refused publication changes nothing. */
  ghost function Publish(db: Db, ps: seq<Publication>): Db
    decreases |ps|
  {
    if ps == [] then db
    else
      var n := |ps| - 1;
      var db1 := Publish(db, ps[..n]);
      After(db1, RecordCheckpoint(db1, ps[n].task, ps[n].checkpoint, ps[n].at))
  }

  ghost predicate Publishes(ps: seq<Publication>, id: TaskId, c: CheckpointRef) {
    exists i | 0 <= i < |ps| :: ps[i].task == id && ps[i].checkpoint == c
  }

  predicate SameSlot(a: Publication, b: Publication) {
    a.task == b.task && a.checkpoint.sequence == b.checkpoint.sequence
  }

  /** Publications of one sequence number of a task agree with each other and with what is stored. */
  ghost predicate ConflictFree(db: Db, ps: seq<Publication>) {
    && (forall i, j | 0 <= i < |ps| && 0 <= j < |ps| && SameSlot(ps[i], ps[j]) :: ps[i].checkpoint == ps[j].checkpoint)
    && (forall i | 0 <= i < |ps| && (ps[i].task, ps[i].checkpoint.sequence) in db.checkpoints ::
          db.checkpoints[(ps[i].task, ps[i].checkpoint.sequence)].uri == ps[i].checkpoint.uri)
  }

  /** Row `p` of the table after the publications, told from the old tables and the set published. */
  ghost predicate RowAsPublished(db: Db, ps: seq<Publication>, db': Db, p: (TaskId, int)) {
    if p in db.checkpoints then p in db'.checkpoints && db'.checkpoints[p] == db.checkpoints[p]
    else
      && (p in db'.checkpoints <==> p.0 in db.tasks && exists c :: Publishes(ps, p.0, c) && c.sequence == p.1)
      && (p in db'.checkpoints ==>
            Publishes(ps, p.0, CheckpointRef(db'.checkpoints[p].uri, p.1, db'.checkpoints[p].metadata)))
  }

  ghost predicate AsPublished(db: Db, ps: seq<Publication>, db': Db) {
    forall p :: RowAsPublished(db, ps, db', p)
  }

  lemma PublishesMore(ps: seq<Publication>, id: TaskId, q: CheckpointRef)
    requires ps != []
    ensures Publishes(ps, id, q) <==> Publishes(ps[..|ps| - 1], id, q) || (ps[|ps| - 1].task == id && q == ps[|ps| - 1].checkpoint)
  {
    var n := |ps| - 1;
    if Publishes(ps[..n], id, q) {
      var i :| 0 <= i < n && ps[..n][i].task == id && ps[..n][i].checkpoint == q;
      assert ps[i].task == id && ps[i].checkpoint == q;
    }
    if Publishes(ps, id, q) {
      var i :| 0 <= i <= n && ps[i].task == id && ps[i].checkpoint == q;
      if i < n { assert ps[..n][i].task == id && ps[..n][i].checkpoint == q; }
    }
  }

  lemma ConflictFreePrefix(db: Db, ps: seq<Publication>)
    requires ConflictFree(db, ps) && ps != []
    ensures ConflictFree(db, ps[..|ps| - 1])
  {
  }

  /** The last publication is accepted if its task exists, and leaves every row as the whole set tells. */
  lemma RowStep(db: Db, ps: seq<Publication>, db1: Db, p: (TaskId, int))
    requires ConflictFree(db, ps) && ps != [] && db1.tasks.Keys == db.tasks.Keys
    requires AsPublished(db, ps[..|ps| - 1], db1)
    ensures var last := ps[|ps| - 1];
      var r := RecordCheckpoint(db1, last.task, last.checkpoint, last.at);
      (r.Ok? <==> last.task in db.tasks) && RowAsPublished(db, ps, After(db1, r), p)
  {
    var last := ps[|ps| - 1];
    var c, key := last.checkpoint, (last.task, last.checkpoint.sequence);
    assert RowAsPublished(db, ps[..|ps| - 1], db1, key);
    if key in db1.checkpoints && key !in db.checkpoints {
      var stored := CheckpointRef(db1.checkpoints[key].uri, c.sequence, db1.checkpoints[key].metadata);
      PublishesMore(ps, last.task, stored);
      PublishesMore(ps, last.task, c);
      PublishedOnce(db, ps, last.task, stored, c);
    }
    assert RowAsPublished(db, ps[..|ps| - 1], db1, p);
    forall q ensures Publishes(ps, p.0, q) <==> Publishes(ps[..|ps| - 1], p.0, q) || (last.task == p.0 && q == c) { PublishesMore(ps, p.0, q); }
  }

  lemma RecordedIntact(name: Naming, db: Db, id: TaskId, c: CheckpointRef, now: Time)
    requires Intact(name, db)
    ensures var db' := After(db, RecordCheckpoint(db, id, c, now)); Intact(name, db') && db'.tasks.Keys == db.tasks.Keys
  {
    if RecordCheckpoint(db, id, c, now).Ok? { CheckpointOk(name, db, id, c, now); }
  }

  lemma {:induction false} PublishIntact(name: Naming, db: Db, ps: seq<Publication>)
    requires Intact(name, db)
    ensures Intact(name, Publish(db, ps)) && Publish(db, ps).tasks.Keys == db.tasks.Keys
    decreases |ps|
  {
    if ps != [] {
      var n := |ps| - 1;
      PublishIntact(name, db, ps[..n]);
      RecordedIntact(name, Publish(db, ps[..n]), ps[n].task, ps[n].checkpoint, ps[n].at);
    }
  }

  lemma {:induction false} PublishKeys(db: Db, ps: seq<Publication>)
    ensures Publish(db, ps).tasks.Keys == db.tasks.Keys
    decreases |ps|
  {
    if ps != [] { PublishKeys(db, ps[..|ps| - 1]); }
  }

  /**
   * Conflict-free publications of any tasks, in any order, leave exactly the rows that the
   * old tables and the set of publications tell; only those of unknown tasks are refused.
   */
  lemma {:induction false} PublishedRows(db: Db, ps: seq<Publication>)
    requires ConflictFree(db, ps) && forall p | p in db.checkpoints :: p.0 in db.tasks
    ensures AsPublished(db, ps, Publish(db, ps))
    decreases |ps|
  {
    if ps == [] {
      forall p ensures RowAsPublished(db, ps, db, p) {}
    } else {
      ConflictFreePrefix(db, ps);
      PublishedRows(db, ps[..|ps| - 1]);
      PublishKeys(db, ps[..|ps| - 1]);
      forall p ensures RowAsPublished(db, ps, Publish(db, ps), p) {
        RowStep(db, ps, Publish(db, ps[..|ps| - 1]), p);
      }
    }
  }

  /** Equal up to the time at which a row was written. */
  ghost predicate SameRows(a: Db, b: Db) {
    && a.checkpoints.Keys == b.checkpoints.Keys
    && (forall p | p in a.checkpoints && p in b.checkpoints ::
          a.checkpoints[p].uri == b.checkpoints[p].uri && a.checkpoints[p].metadata == b.checkpoints[p].metadata)
  }

  ghost predicate SameCheckpoints(a: Db, b: Db) {
    && SameRows(a, b) && a.tasks.Keys == b.tasks.Keys
    && (forall id | id in a.tasks && id in b.tasks :: a.tasks[id].checkpoint == b.tasks[id].checkpoint)
  }

  /** The head is determined by the table. */
  lemma HeadsFollow(a: Db, b: Db, id: TaskId)
    requires HeadsOk(a) && HeadsOk(b) && KeyedById(a.tasks) && KeyedById(b.tasks) && id in a.tasks && id in b.tasks && SameRows(a, b)
    ensures a.tasks[id].checkpoint == b.tasks[id].checkpoint
  {
    assert HeadOk(a.checkpoints, a.tasks[id]) && HeadOk(b.checkpoints, b.tasks[id]);
    if a.tasks[id].checkpoint.Some? { assert (id, a.tasks[id].checkpoint.value.sequence) in b.checkpoints; }
    if b.tasks[id].checkpoint.Some? { assert (id, b.tasks[id].checkpoint.value.sequence) in a.checkpoints; }
  }

  ghost predicate SamePublished(a: seq<Publication>, b: seq<Publication>) {
    forall id, c :: Publishes(a, id, c) <==> Publishes(b, id, c)
  }

  lemma SameRowAsPublished(db: Db, a: seq<Publication>, b: seq<Publication>, da: Db, dbb: Db, p: (TaskId, int))
    requires ConflictFree(db, b) && SamePublished(a, b) && RowAsPublished(db, a, da, p) && RowAsPublished(db, b, dbb, p)
    ensures p in da.checkpoints <==> p in dbb.checkpoints
    ensures p in da.checkpoints ==>
      da.checkpoints[p].uri == dbb.checkpoints[p].uri && da.checkpoints[p].metadata == dbb.checkpoints[p].metadata
  {
    if p !in db.checkpoints && p in da.checkpoints {
      PublishedOnce(db, b, p.0, CheckpointRef(da.checkpoints[p].uri, p.1, da.checkpoints[p].metadata),
                    CheckpointRef(dbb.checkpoints[p].uri, p.1, dbb.checkpoints[p].metadata));
    }
  }

  lemma PublishedRowsSame(db: Db, a: seq<Publication>, b: seq<Publication>)
    requires ConflictFree(db, a) && SamePublished(a, b) && forall p | p in db.checkpoints :: p.0 in db.tasks
    ensures SameRows(Publish(db, a), Publish(db, b))
  {
    SameSetConflictFree(db, a, b);
    PublishedRows(db, a);
    PublishedRows(db, b);
    forall p
      ensures p in Publish(db, a).checkpoints <==> p in Publish(db, b).checkpoints
      ensures p in Publish(db, a).checkpoints ==>
        && Publish(db, a).checkpoints[p].uri == Publish(db, b).checkpoints[p].uri
        && Publish(db, a).checkpoints[p].metadata == Publish(db, b).checkpoints[p].metadata
    {
      assert RowAsPublished(db, a, Publish(db, a), p) && RowAsPublished(db, b, Publish(db, b), p);
      SameRowAsPublished(db, a, b, Publish(db, a), Publish(db, b), p);
    }
  }

  lemma PublishHeads(name: Naming, db: Db, ps: seq<Publication>)
    requires Intact(name, db)
    ensures HeadsOk(Publish(db, ps)) && KeyedById(Publish(db, ps).tasks) && Publish(db, ps).tasks.Keys == db.tasks.Keys
    ensures forall p | p in db.checkpoints :: p.0 in db.tasks
  {
    PublishIntact(name, db, ps);
  }

  /**
   * Publishing the same conflict-free checkpoints of any tasks, in any order and with any
   * repetitions, leaves the same table and the same heads.
   */
  lemma PublicationConfluent(name: Naming, db: Db, a: seq<Publication>, b: seq<Publication>)
    requires Intact(name, db) && ConflictFree(db, a) && SamePublished(a, b)
    ensures SameCheckpoints(Publish(db, a), Publish(db, b))
  {
    PublishHeads(name, db, a);
    PublishHeads(name, db, b);
    PublishedRowsSame(db, a, b);
    forall id | id in Publish(db, a).tasks && id in Publish(db, b).tasks
      ensures Publish(db, a).tasks[id].checkpoint == Publish(db, b).tasks[id].checkpoint
    {
      HeadsFollow(Publish(db, a), Publish(db, b), id);
    }
  }

  lemma PublishedOnce(db: Db, ps: seq<Publication>, id: TaskId, c: CheckpointRef, d: CheckpointRef)
    requires ConflictFree(db, ps) && Publishes(ps, id, c) && Publishes(ps, id, d) && c.sequence == d.sequence
    ensures c == d
  {
    var i :| 0 <= i < |ps| && ps[i].task == id && ps[i].checkpoint == c;
    var j :| 0 <= j < |ps| && ps[j].task == id && ps[j].checkpoint == d;
    assert SameSlot(ps[i], ps[j]);
  }

  lemma PublishedFits(db: Db, ps: seq<Publication>, id: TaskId, c: CheckpointRef)
    requires ConflictFree(db, ps) && Publishes(ps, id, c) && (id, c.sequence) in db.checkpoints
    ensures db.checkpoints[(id, c.sequence)].uri == c.uri
  {
  }

  lemma SameSetConflictFree(db: Db, a: seq<Publication>, b: seq<Publication>)
    requires ConflictFree(db, a) && SamePublished(a, b)
    ensures ConflictFree(db, b)
  {
    forall i | 0 <= i < |b| ensures Publishes(a, b[i].task, b[i].checkpoint) { assert Publishes(b, b[i].task, b[i].checkpoint); }
    forall i, j | 0 <= i < |b| && 0 <= j < |b| && SameSlot(b[i], b[j]) ensures b[i].checkpoint == b[j].checkpoint {
      PublishedOnce(db, a, b[i].task, b[i].checkpoint, b[j].checkpoint);
    }
    forall i | 0 <= i < |b| && (b[i].task, b[i].checkpoint.sequence) in db.checkpoints
      ensures db.checkpoints[(b[i].task, b[i].checkpoint.sequence)].uri == b[i].checkpoint.uri
    {
      PublishedFits(db, a, b[i].task, b[i].checkpoint);
    }
  }

  /** In every run a recorded checkpoint keeps its URI for good, and a head is the greatest sequence recorded. */
  lemma CheckpointsForever(name: Naming, dbs: seq<Db>, ops: seq<(Op, Time)>, i: nat, j: nat, p: (TaskId, int))
    requires IsHistory(name, dbs, ops) && i <= j <= |ops| && p in dbs[i].checkpoints
    ensures p in dbs[j].checkpoints && dbs[j].checkpoints[p] == dbs[i].checkpoints[p]
    ensures p.0 in dbs[j].tasks && var head := dbs[j].tasks[p.0].checkpoint;
      && head.Some? && head.value.sequence >= p.1 && (p.0, head.value.sequence) in dbs[j].checkpoints
      && dbs[j].checkpoints[(p.0, head.value.sequence)].uri == head.value.uri
  {
    RunKeeps(name, dbs, ops, i, j);
    HeadThere(name, dbs, ops, j, p);
  }

  lemma HeadThere(name: Naming, dbs: seq<Db>, ops: seq<(Op, Time)>, j: nat, p: (TaskId, int))
    requires IsHistory(name, dbs, ops) && j <= |ops| && p in dbs[j].checkpoints
    ensures p.0 in dbs[j].tasks && HeadOk(dbs[j].checkpoints, dbs[j].tasks[p.0]) && dbs[j].tasks[p.0].Id() == p.0
  {
    RunKeeps(name, dbs, ops, j, j);
  }
}
