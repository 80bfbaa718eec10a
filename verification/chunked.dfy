/** The parallel sweep, executed chunk by chunk.

    Each worker runs the row update over its own block of rows, writing only
    those rows of the shared buffer and keeping a local maximum of their
    changes. The workers are modelled as a sequential fold over the blocks,
    and the local maxima are combined into the iteration's error as the fold
    goes.
 */
module Chunked {
  import opened Jacobi
  import opened Partition

  /** A buffer with some rows written, and the largest change among the
      rows written. */
  datatype Sweep = Sweep(xNext: Vector, error: real)

  /** One worker's body: rows [lo, hi) updated in increasing order into
      `buffer`, with the running maximum of their changes. */
  function RunRows(A: Matrix, b: Vector, x: Vector, buffer: Vector, lo: nat, hi: nat): (r: Sweep)
    requires WellFormed(A, b, x) && |buffer| == |A| && lo <= hi <= |A|
    ensures |r.xNext| == |A|
    ensures forall i :: lo <= i < hi ==> r.xNext[i] == Next(A, b, x)[i]
    ensures forall i :: 0 <= i < |A| && !(lo <= i < hi) ==> r.xNext[i] == buffer[i]
    ensures r.error == MaxChange(Next(A, b, x), x, lo, hi)
    decreases hi
  {
    if hi == lo then Sweep(buffer, 0.0)
    else
      var prev := RunRows(A, b, x, buffer, lo, hi - 1);
      var v := RowValue(A, b, x, hi - 1);
      NextAt(A, b, x, hi - 1);
      Sweep(prev.xNext[hi - 1 := v], Max(prev.error, Abs(v - x[hi - 1])))
  }

  /** Some worker listed in `order` has row i in its block. */
  predicate Claimed(n: nat, tasks: nat, order: seq<nat>, i: nat)
    decreases |order|
  {
    && |order| > 0
    && (Claimed(n, tasks, order[..|order| - 1], i) || InChunk(n, tasks, order[|order| - 1], i))
  }

  /** A worker listed at position k claims every row of its block. */
  lemma {:induction false} ClaimedByListed(n: nat, tasks: nat, order: seq<nat>, k: nat, i: nat)
    requires k < |order| && InChunk(n, tasks, order[k], i)
    ensures Claimed(n, tasks, order, i)
    decreases |order|
  {
    if k < |order| - 1 {
      var front := order[..|order| - 1];
      assert front[k] == order[k];
      ClaimedByListed(n, tasks, front, k, i);
    }
  }

  /** The workers listed in `order` run one after another on the shared
      buffer, in that order; each worker's local maximum is folded into the
      combined error once it is done. */
  function RunWorkers(A: Matrix, b: Vector, x: Vector, buffer: Vector, tasks: nat, order: seq<nat>): (r: Sweep)
    requires WellFormed(A, b, x) && |buffer| == |A|
    requires forall k :: 0 <= k < |order| ==> order[k] < tasks
    ensures |r.xNext| == |A|
    decreases |order|
  {
    if |order| == 0 then Sweep(buffer, 0.0)
    else
      var prev := RunWorkers(A, b, x, buffer, tasks, order[..|order| - 1]);
      var t := order[|order| - 1];
      var c := RunRows(A, b, x, prev.xNext, ChunkStart(|A|, tasks, t), ChunkEnd(|A|, tasks, t));
      Sweep(c.xNext, Max(prev.error, c.error))
  }

  /** After the listed workers ran, a row holds its update exactly when some
      listed worker owns it, and otherwise what the buffer held. */
  lemma {:induction false} RunWorkersRows(A: Matrix, b: Vector, x: Vector, buffer: Vector, tasks: nat, order: seq<nat>)
    requires WellFormed(A, b, x) && |buffer| == |A|
    requires forall k :: 0 <= k < |order| ==> order[k] < tasks
    ensures forall i :: 0 <= i < |A| ==>
              RunWorkers(A, b, x, buffer, tasks, order).xNext[i]
              == (if Claimed(|A|, tasks, order, i) then Next(A, b, x)[i] else buffer[i])
    decreases |order|
  {
    if |order| > 0 {
      RunWorkersRows(A, b, x, buffer, tasks, order[..|order| - 1]);
    }
  }

  /** The combined error of the listed workers is the largest change among
      the rows they own, or 0 when they own none. */
  lemma {:induction false} RunWorkersError(A: Matrix, b: Vector, x: Vector, buffer: Vector, tasks: nat, order: seq<nat>)
    requires WellFormed(A, b, x) && |buffer| == |A|
    requires forall k :: 0 <= k < |order| ==> order[k] < tasks
    ensures var e := RunWorkers(A, b, x, buffer, tasks, order).error;
            && e >= 0.0
            && (forall i :: 0 <= i < |A| && Claimed(|A|, tasks, order, i) ==> Change(Next(A, b, x), x, i) <= e)
            && (e == 0.0 || exists i :: 0 <= i < |A| && Claimed(|A|, tasks, order, i) && e == Change(Next(A, b, x), x, i))
    decreases |order|
  {
    if |order| > 0 {
      var front := order[..|order| - 1];
      RunWorkersError(A, b, x, buffer, tasks, front);
      var y := Next(A, b, x);
      var prev := RunWorkers(A, b, x, buffer, tasks, front);
      var t := order[|order| - 1];
      var lo, hi := ChunkStart(|A|, tasks, t), ChunkEnd(|A|, tasks, t);
      var c := RunRows(A, b, x, prev.xNext, lo, hi);
      var e := Max(prev.error, c.error);
      assert RunWorkers(A, b, x, buffer, tasks, order).error == e;
      if e != 0.0 {
        if e == prev.error {
          var i :| 0 <= i < |A| && Claimed(|A|, tasks, front, i) && e == Change(y, x, i);
          assert Claimed(|A|, tasks, order, i);
        } else {
          var i :| lo <= i < hi && c.error == Change(y, x, i);
          assert InChunk(|A|, tasks, t, i);
          assert Claimed(|A|, tasks, order, i);
        }
      }
    }
  }

  /** Running every worker, in any order and whatever the buffer held,
      yields exactly the sequential sweep and its error. */
  lemma ChunkedSweepIsSweep(A: Matrix, b: Vector, x: Vector, buffer: Vector, tasks: nat, order: seq<nat>)
    requires WellFormed(A, b, x) && |buffer| == |A| && 1 <= tasks
    requires forall k :: 0 <= k < |order| ==> order[k] < tasks
    requires forall t :: 0 <= t < tasks ==> t in order
    ensures RunWorkers(A, b, x, buffer, tasks, order) == Sweep(Next(A, b, x), SweepError(A, b, x))
  {
    var n := |A|;
    var y := Next(A, b, x);
    var r := RunWorkers(A, b, x, buffer, tasks, order);
    RunWorkersRows(A, b, x, buffer, tasks, order);
    RunWorkersError(A, b, x, buffer, tasks, order);
    ChunksPartitionRows(n, tasks);
    forall i | 0 <= i < n
      ensures Claimed(n, tasks, order, i)
    {
      var t := Owner(n, tasks, i);
      assert t in order;
      var k :| 0 <= k < |order| && order[k] == t;
      ClaimedByListed(n, tasks, order, k, i);
    }
    assert r.xNext == y;
    MaxChangeUnique(y, x, 0, n, r.error);
  }

  /** The workers 0, 1, ..., tasks - 1 in the order they are started. */
  function Range(tasks: nat): (order: seq<nat>)
    ensures |order| == tasks
    ensures forall k :: 0 <= k < tasks ==> order[k] == k
  {
    seq(tasks, k requires 0 <= k => k)
  }

  /** Every worker appears in the start order 0 .. tasks - 1. */
  lemma RangeListsAll(tasks: nat)
    ensures forall t :: 0 <= t < tasks ==> t in Range(tasks)
  {
    var order := Range(tasks);
    forall t | 0 <= t < tasks
      ensures t in order
    {
      assert order[t] == t;
    }
  }

  /** One iteration of the parallel solver: workers 0 .. numTasks - 1 run
      their blocks on the shared buffer and their local maxima are combined.
      With at least one worker this is the sequential sweep and its error,
      whatever the buffer held; with none the buffer is left as it was and
      the error is 0. */
  function ParallelSweep(A: Matrix, b: Vector, x: Vector, buffer: Vector, numTasks: nat): (r: Sweep)
    requires WellFormed(A, b, x) && |buffer| == |A|
    ensures 1 <= numTasks ==> r == Sweep(Next(A, b, x), SweepError(A, b, x))
    ensures numTasks == 0 ==> r == Sweep(buffer, 0.0)
  {
    var order := Range(numTasks);
    if numTasks == 0 then RunWorkers(A, b, x, buffer, numTasks, order)
    else
      RangeListsAll(numTasks);
      ChunkedSweepIsSweep(A, b, x, buffer, numTasks, order);
      RunWorkers(A, b, x, buffer, numTasks, order)
  }

  /** One worker's body, as a loop over its rows: each row's sigma, its new
      value written to the buffer, and the worker's own maximum change. */
  method RunChunk(A: Matrix, b: Vector, x: Vector, buffer: Vector, startRow: nat, endRow: nat)
    returns (xNext: Vector, localError: real)
    requires WellFormed(A, b, x) && |buffer| == |A| && startRow <= endRow <= |A|
    ensures |xNext| == |A|
    ensures forall i :: 0 <= i < |A| ==>
              xNext[i] == (if startRow <= i < endRow then Next(A, b, x)[i] else buffer[i])
    ensures localError == MaxChange(Next(A, b, x), x, startRow, endRow)
  {
    var n := |A|;
    ghost var target := Next(A, b, x);
    xNext := buffer;
    localError := 0.0;
    var i := startRow;
    while i < endRow
      invariant startRow <= i <= endRow
      invariant |xNext| == n
      invariant forall r :: 0 <= r < n ==>
                  xNext[r] == (if startRow <= r < i then target[r] else buffer[r])
      invariant localError == MaxChange(target, x, startRow, i)
    {
      var sigma := RowSigma(A, x, i);
      SigmaIsOffDiagonalDot(A[i], x, i, n);
      assert sigma == Sigma(A[i], x, i, n);
      var v := (b[i] - sigma) / A[i][i];
      NextAt(A, b, x, i);
      assert v == target[i];
      xNext := xNext[i := v];
      localError := Max(localError, Abs(v - x[i]));
      i := i + 1;
    }
  }

  /** One iteration of the parallel solver: workers 0 .. numTasks - 1 each
      run their block against the shared buffer, and each worker's local
      maximum is combined into the iteration's error. */
  method ChunkedSweep(A: Matrix, b: Vector, x: Vector, buffer: Vector, numTasks: nat)
    returns (xNext: Vector, error: real)
    requires WellFormed(A, b, x) && |buffer| == |A|
    ensures Sweep(xNext, error) == ParallelSweep(A, b, x, buffer, numTasks)
    ensures 1 <= numTasks ==> xNext == Next(A, b, x) && error == SweepError(A, b, x)
    ensures numTasks == 0 ==> xNext == buffer && error == 0.0
  {
    var n := |A|;
    xNext := buffer;
    error := 0.0;
    var taskIndex := 0;
    while taskIndex < numTasks
      invariant 0 <= taskIndex <= numTasks
      invariant Sweep(xNext, error) == RunWorkers(A, b, x, buffer, numTasks, Range(taskIndex))
    {
      var startRow := taskIndex * (n / numTasks);
      var endRow := if taskIndex == numTasks - 1 then n else (taskIndex + 1) * (n / numTasks);
      assert startRow == ChunkStart(n, numTasks, taskIndex);
      assert endRow == ChunkEnd(n, numTasks, taskIndex);
      ghost var prev := xNext;
      var localError;
      xNext, localError := RunChunk(A, b, x, xNext, startRow, endRow);
      assert Range(taskIndex + 1)[..taskIndex] == Range(taskIndex);
      assert xNext == RunRows(A, b, x, prev, startRow, endRow).xNext;
      error := Max(error, localError);
      taskIndex := taskIndex + 1;
    }
  }
}
