// The order in which pending tasks are considered: priority descending, then creation
// time, then task id (byte order, which is code-point order). Task ids are primary keys,
// so the order is total on the rows of a table and the sorted sequence is unique.

module RowOrder {
  import opened Types

  predicate LexLess(a: string, b: string) {
    if b == [] then false
    else if a == [] then true
    else a[0] < b[0] || (a[0] == b[0] && LexLess(a[1..], b[1..]))
  }

  lemma {:induction false} LexTotal(a: string, b: string)
    ensures a == b || LexLess(a, b) || LexLess(b, a)
    decreases |a|
  {
    if a != [] && b != [] && a[0] == b[0] {
      LexTotal(a[1..], b[1..]);
      assert a == [a[0]] + a[1..] && b == [b[0]] + b[1..];
    }
  }

  lemma {:induction false} LexAsymmetric(a: string, b: string)
    requires LexLess(a, b)
    ensures !LexLess(b, a)
    decreases |a|
  {
    if a != [] && a[0] == b[0] {
      LexAsymmetric(a[1..], b[1..]);
    }
  }

  lemma {:induction false} LexTransitive(a: string, b: string, c: string)
    requires LexLess(a, b) && LexLess(b, c)
    ensures LexLess(a, c)
    decreases |a|
  {
    if a != [] && a[0] == b[0] == c[0] {
      LexTransitive(a[1..], b[1..], c[1..]);
    }
  }

  predicate Before(a: TaskRow, b: TaskRow) {
    || a.spec.priority.Value() > b.spec.priority.Value()
    || (&& a.spec.priority.Value() == b.spec.priority.Value()
        && (a.createdAt < b.createdAt || (a.createdAt == b.createdAt && LexLess(a.Id().chars, b.Id().chars))))
  }

  // ---------------------------------------------------------------------------------
  // The order told from scratch

  /** The place of a priority among the five, the first to be admitted first. */
  function Place(p: Priority): nat {
    match p
    case BlockingRecovery => 0
    case OrdinaryRecovery => 1
    case WorkflowStart => 2
    case Normal => 3
    case Speculative => 4
  }

  /** Code-point order: a proper prefix comes first, else the smaller character where they first differ. */
  ghost predicate Precedes(a: string, b: string) {
    exists k: nat :: DiffersAt(a, b, k)
  }

  ghost predicate DiffersAt(a: string, b: string, k: nat) {
    k <= |a| && k < |b| && a[..k] == b[..k] && (k < |a| ==> a[k] < b[k])
  }

  lemma {:induction false} LexExact(a: string, b: string)
    ensures LexLess(a, b) <==> Precedes(a, b)
    decreases |a|
  {
    if a == [] && b != [] {
      assert DiffersAt(a, b, 0);
    } else if a != [] && b != [] {
      LexExact(a[1..], b[1..]);
      if a[0] < b[0] { assert DiffersAt(a, b, 0); }
      if a[0] == b[0] { LexTail(a, b); }
    }
  }

  lemma LexTail(a: string, b: string)
    requires a != [] && b != [] && a[0] == b[0]
    ensures Precedes(a, b) <==> Precedes(a[1..], b[1..])
  {
    if Precedes(a[1..], b[1..]) {
      var k: nat :| DiffersAt(a[1..], b[1..], k);
      assert a[..k + 1] == [a[0]] + a[1..][..k] && b[..k + 1] == [b[0]] + b[1..][..k];
      assert DiffersAt(a, b, k + 1);
    }
    if Precedes(a, b) {
      var k: nat :| DiffersAt(a, b, k);
      assert k > 0;
      assert a[1..][..k - 1] == a[..k][1..] && b[1..][..k - 1] == b[..k][1..];
      assert DiffersAt(a[1..], b[1..], k - 1);
    }
  }

  /** The priority placed first, of the same priority the older, at the same age the smaller id. */
  ghost predicate Earlier(a: TaskRow, b: TaskRow) {
    || Place(a.spec.priority) < Place(b.spec.priority)
    || (a.spec.priority == b.spec.priority && a.createdAt < b.createdAt)
    || (a.spec.priority == b.spec.priority && a.createdAt == b.createdAt && Precedes(a.spec.taskId.chars, b.spec.taskId.chars))
  }

  lemma BeforeExact(a: TaskRow, b: TaskRow)
    ensures Before(a, b) <==> Earlier(a, b)
  {
    LexExact(a.Id().chars, b.Id().chars);
  }

  lemma BeforeAsymmetric(a: TaskRow, b: TaskRow)
    requires Before(a, b)
    ensures !Before(b, a)
  {
    if LexLess(a.Id().chars, b.Id().chars) { LexAsymmetric(a.Id().chars, b.Id().chars); }
  }

  lemma BeforeTransitive(a: TaskRow, b: TaskRow, c: TaskRow)
    requires Before(a, b) && Before(b, c)
    ensures Before(a, c)
  {
    if LexLess(a.Id().chars, b.Id().chars) && LexLess(b.Id().chars, c.Id().chars) {
      LexTransitive(a.Id().chars, b.Id().chars, c.Id().chars);
    }
  }

  ghost predicate Keyed(rows: set<TaskRow>) {
    forall a, b {:trigger a in rows, b in rows} | a in rows && b in rows && a.Id() == b.Id() :: a == b
  }

  predicate IsFirst(r: TaskRow, rows: set<TaskRow>) {
    r in rows && forall x | x in rows :: x == r || Before(r, x)
  }

  lemma {:induction false} FirstExists(rows: set<TaskRow>)
    requires rows != {} && Keyed(rows)
    ensures exists r :: IsFirst(r, rows)
    decreases |rows|
  {
    var x :| x in rows;
    if rows == {x} {
      assert IsFirst(x, rows);
    } else {
      var rest := rows - {x};
      assert rows == rest + {x};
      FirstExists(rest);
      var m :| IsFirst(m, rest);
      LexTotal(x.Id().chars, m.Id().chars);
      if Before(x, m) {
        forall y | y in rows ensures y == x || Before(x, y) {
          if y != x && y != m { BeforeTransitive(x, m, y); }
        }
        assert IsFirst(x, rows);
      } else {
        assert Before(m, x);
        assert IsFirst(m, rows);
      }
    }
  }

  lemma FirstUnique(a: TaskRow, b: TaskRow, rows: set<TaskRow>)
    requires IsFirst(a, rows) && IsFirst(b, rows)
    ensures a == b
  {
    if a != b { BeforeAsymmetric(a, b); }
  }

  /**
   * The rows of a table in `ORDER BY priority DESC, created_at, task_id`. Rows of a table
   * have distinct ids, so every non-empty set of them has a first row.
   */
  function Sorted(rows: set<TaskRow>): seq<TaskRow>
    decreases |rows|
  {
    if !(exists r | r in rows :: IsFirst(r, rows)) then []
    else
      assert forall a, b | IsFirst(a, rows) && IsFirst(b, rows) :: a == b by {
        forall a, b | IsFirst(a, rows) && IsFirst(b, rows) ensures a == b { FirstUnique(a, b, rows); }
      }
      var r :| r in rows && IsFirst(r, rows);
      [r] + Sorted(rows - {r})
  }

  ghost predicate Ordered(s: seq<TaskRow>) {
    forall i, j | 0 <= i < j < |s| :: Before(s[i], s[j])
  }

  ghost function Rows(s: seq<TaskRow>): set<TaskRow> {
    set r | r in s
  }

  lemma {:induction false} SortedListing(rows: set<TaskRow>)
    requires Keyed(rows)
    ensures Rows(Sorted(rows)) == rows && Ordered(Sorted(rows)) && |Sorted(rows)| == |rows|
    decreases |rows|
  {
    if rows != {} {
      FirstExists(rows);
      var r := Sorted(rows)[0];
      SortedListing(rows - {r});
      var t := Sorted(rows - {r});
      assert Sorted(rows) == [r] + t;
      forall x | x in t ensures Before(r, x) { assert x in Rows(t); }
      assert rows == {r} + (rows - {r});
      forall x ensures x in Rows(Sorted(rows)) <==> x in rows {
        assert x in t <==> x in Rows(t);
      }
    }
  }

  /** `Sorted` lists exactly the given rows, each once, the earlier first. */
  lemma SortedCorrect(rows: set<TaskRow>)
    requires Keyed(rows)
    ensures Rows(Sorted(rows)) == rows && Ordered(Sorted(rows)) && |Sorted(rows)| == |rows|
    ensures forall i, j | 0 <= i < j < |Sorted(rows)| :: Earlier(Sorted(rows)[i], Sorted(rows)[j])
  {
    SortedListing(rows);
    forall i, j | 0 <= i < j < |Sorted(rows)| ensures Earlier(Sorted(rows)[i], Sorted(rows)[j]) {
      BeforeExact(Sorted(rows)[i], Sorted(rows)[j]);
    }
  }

  /** An ordered listing of a set of rows is the only one. */
  lemma {:induction false} SortedUnique(s: seq<TaskRow>)
    requires Ordered(s) && Keyed(Rows(s))
    ensures s == Sorted(Rows(s))
    decreases |s|
  {
    if s != [] {
      var rows, t := Rows(s), s[1..];
      assert s == [s[0]] + t;
      assert IsFirst(s[0], rows);
      FirstUnique(s[0], Sorted(rows)[0], rows);
      assert s[0] !in t by {
        if s[0] in t {
          var i :| 0 <= i < |t| && t[i] == s[0];
          assert Before(s[0], s[i + 1]);
          BeforeAsymmetric(s[0], s[0]);
        }
      }
      assert Rows(t) == rows - {s[0]};
      SortedUnique(t);
    }
  }
}
