/** The shared error of the parallel solver, as its workers actually update it.

    Every row's update does error = Max(error, change) on one variable shared
    by all workers, with no synchronisation: a worker reads the variable, and
    by the time it writes its maximum back, other workers may have written in
    between. A write is modelled by the worker and row it comes from and by
    which of the variable's earlier values the worker read.
 */
module Race {
  import opened Jacobi
  import opened Partition
  import opened Solver

  /** The update of `row` by `worker`, which read the shared error as it
      stood after `seen` earlier writes. */
  datatype Write = Write(worker: nat, row: nat, seen: nat)

  /** Each write comes from one of the n rows and read a value already
      written. */
  predicate ReadsEarlier(n: nat, ws: seq<Write>)
  {
    forall k :: 0 <= k < |ws| ==> ws[k].row < n && ws[k].seen <= k
  }

  /** A schedule the workers can produce: each write also comes from a row
      of its worker's block, and a worker reads no value older than its own
      previous write (each thread sees its own writes in program order).
      Schedules that skip a row or write one twice are not excluded. */
  predicate ValidSchedule(n: nat, tasks: nat, ws: seq<Write>)
  {
    && ReadsEarlier(n, ws)
    && (forall k :: 0 <= k < |ws| ==> InChunk(n, tasks, ws[k].worker, ws[k].row))
    && (forall j, k :: 0 <= j < k < |ws| && ws[j].worker == ws[k].worker ==> j < ws[k].seen)
  }

  /** Some write in the schedule comes from row i. */
  predicate WritesRow(ws: seq<Write>, i: nat)
  {
    exists k :: 0 <= k < |ws| && ws[k].row == i
  }

  /** Every write read the value left by the write just before it, as when
      the workers run one after another. */
  predicate Serialized(ws: seq<Write>)
  {
    forall k :: 0 <= k < |ws| ==> ws[k].seen == k
  }

  /** The successive values of the shared error: the reset to 0, then one
      value per write, each the larger of the value that write read and its
      row's change. */
  function SharedValues(y: Vector, x: Vector, ws: seq<Write>): (v: seq<real>)
    requires |y| == |x| && ReadsEarlier(|y|, ws)
    ensures |v| == |ws| + 1 && v[0] == 0.0
    decreases |ws|
  {
    if |ws| == 0 then [0.0]
    else
      var prev := SharedValues(y, x, ws[..|ws| - 1]);
      var w := ws[|ws| - 1];
      prev + [Max(prev[w.seen], Change(y, x, w.row))]
  }

  /** The error the coordinator sees after the join: the last value written. */
  function RacyError(y: Vector, x: Vector, ws: seq<Write>): real
    requires |y| == |x| && ReadsEarlier(|y|, ws)
  {
    SharedValues(y, x, ws)[|ws|]
  }

  /** Run one after another, the writes keep a running maximum: the final
      value bounds every written row's change and is one of them, or 0. */
  lemma {:induction false} SerializedIsRunningMax(y: Vector, x: Vector, ws: seq<Write>)
    requires |y| == |x| && ReadsEarlier(|y|, ws) && Serialized(ws)
    ensures var e := RacyError(y, x, ws);
            && e >= 0.0
            && (forall k :: 0 <= k < |ws| ==> Change(y, x, ws[k].row) <= e)
            && (e == 0.0 || exists k :: 0 <= k < |ws| && e == Change(y, x, ws[k].row))
    decreases |ws|
  {
    if |ws| > 0 {
      var front := ws[..|ws| - 1];
      SerializedIsRunningMax(y, x, front);
      var prev := SharedValues(y, x, front);
      var w := ws[|ws| - 1];
      var e := Max(prev[|front|], Change(y, x, w.row));
      assert RacyError(y, x, ws) == e;
      if e != 0.0 && e == prev[|front|] {
        var k :| 0 <= k < |front| && e == Change(y, x, front[k].row);
        assert ws[k] == front[k];
      }
    }
  }

  /** Run one after another over a schedule that writes every row, the
      workers leave the sweep's error in the shared variable. */
  lemma SerializedIsSweepError(A: Matrix, b: Vector, x: Vector, tasks: nat, ws: seq<Write>)
    requires WellFormed(A, b, x) && ValidSchedule(|A|, tasks, ws) && Serialized(ws)
    requires forall i :: 0 <= i < |A| ==> WritesRow(ws, i)
    ensures RacyError(Next(A, b, x), x, ws) == SweepError(A, b, x)
  {
    var y := Next(A, b, x);
    var e := RacyError(y, x, ws);
    SerializedIsRunningMax(y, x, ws);
    forall i | 0 <= i < |A|
      ensures Change(y, x, i) <= e
    {
      assert WritesRow(ws, i);
      var k :| 0 <= k < |ws| && ws[k].row == i;
    }
    MaxChangeUnique(y, x, 0, |A|, e);
  }

  /** The system of the lost-update example: A = [[1, 1/2], [0, 1]],
      b = [5, 1], started from [0, 0]. */
  const ExampleA: Matrix := [[1.0, 0.5], [0.0, 1.0]]
  const ExampleB: Vector := [5.0, 1.0]
  const ExampleStart: Vector := [0.0, 0.0]

  /** One sweep of the example system from [p, q]. */
  lemma ExampleNext(p: real, q: real)
    ensures WellFormed(ExampleA, ExampleB, [p, q])
    ensures Next(ExampleA, ExampleB, [p, q]) == [5.0 - 0.5 * q, 1.0]
  {
    var A, b, x := ExampleA, ExampleB, [p, q];
    assert A[0][1] == 0.5 && A[1][0] == 0.0;
    assert Sigma(A[0], x, 0, 1) == 0.0;
    assert A[0][1] * x[1] == 0.5 * q;
    assert Sigma(A[0], x, 0, 2) == 0.5 * q;
    assert A[1][0] * x[0] == 0.0;
    assert Sigma(A[1], x, 1, 1) == 0.0;
    assert Sigma(A[1], x, 1, 2) == 0.0;
    assert RowValue(A, b, x, 0) == 5.0 - 0.5 * q;
    assert RowValue(A, b, x, 1) == 1.0;
    NextAt(A, b, x, 0);
    NextAt(A, b, x, 1);
  }

  /** A lost update. Two rows over two workers of one row each; both read
      the reset value 0, worker 0 writes its row's change 5, then worker 1
      overwrites it with its row's change 1. The coordinator sees 1, within
      a tolerance of 2 although the sweep's error is 5, so the loop stops
      after this first iteration and returns its iterate [5, 1]. */
  lemma LostUpdate()
    ensures var ws := [Write(0, 0, 0), Write(1, 1, 0)];
            && ValidSchedule(2, 2, ws)
            && Next(ExampleA, ExampleB, ExampleStart) == [5.0, 1.0]
            && RacyError(Next(ExampleA, ExampleB, ExampleStart), ExampleStart, ws) == 1.0
            && 1.0 <= 2.0 < 5.0 == SweepError(ExampleA, ExampleB, ExampleStart)
  {
    var x := ExampleStart;
    var ws := [Write(0, 0, 0), Write(1, 1, 0)];
    ExampleNext(0.0, 0.0);
    var y := Next(ExampleA, ExampleB, x);
    assert 2 / 2 == 1;
    assert InChunk(2, 2, 0, 0) && InChunk(2, 2, 1, 1);
    assert ws[..1] == [Write(0, 0, 0)];
    assert ws[..1][..0] == [];
    assert RacyError(y, x, ws) == 1.0;
    assert MaxChange(y, x, 0, 1) == 5.0;
  }

  /** Without the lost update, the sequential solver does not stop at the
      first sweep: its second sweep, with error 1/2, is the first within the
      tolerance 2, and it returns [4.5, 1] rather than [5, 1]. */
  lemma LostUpdateChangesResult(fuel: nat)
    requires 2 <= fuel
    ensures SolveJacobi(ExampleA, ExampleB, ExampleStart, 2.0, fuel) == Converged([4.5, 1.0], 2)
  {
    var A, b, x0 := ExampleA, ExampleB, ExampleStart;
    assert StartVector(A, x0) == x0;
    ExampleNext(0.0, 0.0);
    ExampleNext(5.0, 1.0);
    var x1 := Iterate(A, b, x0, 1);
    var x2 := Iterate(A, b, x0, 2);
    assert x1 == [5.0, 1.0];
    assert x2 == [4.5, 1.0];
    assert MaxChange(x1, x0, 0, 1) == 5.0;
    assert ErrorAt(A, b, x0, 0) == 5.0;
    assert MaxChange(x2, x1, 0, 1) == 0.5;
    assert ErrorAt(A, b, x0, 1) == 0.5;
    assert FirstStop(A, b, x0, 2.0, 2);
    SolveJacobiConverged(A, b, x0, 2.0, fuel, [4.5, 1.0], 2);
  }
}
