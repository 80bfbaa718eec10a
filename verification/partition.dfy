/** Row partitioning of the parallel solver.

    The rows [0, n) are split across `tasks` workers. Worker `t` takes the
    contiguous block that starts at t * (n / tasks); every block but the last
    holds n / tasks rows, and the last block also takes the remainder, so it
    always ends at n.
 */
module Partition {

  /** A half-open block of rows [startRow, endRow). */
  datatype Chunk = Chunk(startRow: nat, endRow: nat)

  /** t * q grows with t. */
  lemma MulMono(t: nat, u: nat, q: nat)
    requires t <= u
    ensures t * q <= u * q
  {
    if t < u {
      MulMono(t, u - 1, q);
      assert u * q == (u - 1) * q + q;
    }
  }

  /** No block boundary t * (n / tasks) with t <= tasks lies past n. */
  lemma BoundaryAtMostRows(n: nat, tasks: nat, t: nat)
    requires 1 <= tasks && t <= tasks
    ensures t * (n / tasks) <= n
  {
    MulMono(t, tasks, n / tasks);
  }

  /** First row of worker t. */
  function ChunkStart(n: nat, tasks: nat, t: nat): (s: nat)
    requires t < tasks
    ensures s <= n
  {
    BoundaryAtMostRows(n, tasks, t);
    t * (n / tasks)
  }

  /** One past the last row of worker t; the last worker runs up to n. */
  function ChunkEnd(n: nat, tasks: nat, t: nat): (e: nat)
    requires t < tasks
    ensures ChunkStart(n, tasks, t) <= e <= n
    ensures t == tasks - 1 ==> e == n
    ensures t < tasks - 1 ==> e == ChunkStart(n, tasks, t + 1)
  {
    if t == tasks - 1 then n
    else
      BoundaryAtMostRows(n, tasks, t + 1);
      MulMono(t, t + 1, n / tasks);
      (t + 1) * (n / tasks)
  }

  /** Row i is one of the rows worker t computes. */
  predicate InChunk(n: nat, tasks: nat, t: nat, i: nat)
  {
    t < tasks && ChunkStart(n, tasks, t) <= i < ChunkEnd(n, tasks, t)
  }

  /** The table of (start, end) pairs of all workers. */
  function Chunks(n: nat, tasks: nat): (cs: seq<Chunk>)
    requires 1 <= tasks
    ensures |cs| == tasks
    ensures cs[0].startRow == 0
    ensures cs[tasks - 1].endRow == n
    ensures forall t :: 0 <= t < tasks - 1 ==> cs[t].endRow == cs[t + 1].startRow
    ensures forall t :: 0 <= t < tasks ==> cs[t].startRow <= cs[t].endRow <= n
    ensures forall t :: 0 <= t < tasks ==>
              cs[t] == Chunk(ChunkStart(n, tasks, t), ChunkEnd(n, tasks, t))
  {
    seq(tasks, t requires 0 <= t < tasks => Chunk(ChunkStart(n, tasks, t), ChunkEnd(n, tasks, t)))
  }

  /** Blocks of lower-numbered workers lie entirely before those of
      higher-numbered ones. */
  lemma {:induction false} ChunksOrdered(n: nat, tasks: nat, t1: nat, t2: nat)
    requires t1 < t2 < tasks
    ensures ChunkEnd(n, tasks, t1) <= ChunkStart(n, tasks, t2)
  {
    MulMono(t1 + 1, t2, n / tasks);
  }

  /** The worker whose block holds row i, searching down from worker k. */
  function OwnerFrom(n: nat, tasks: nat, i: nat, k: nat): (t: nat)
    requires k < tasks && i < ChunkEnd(n, tasks, k)
    ensures t <= k && InChunk(n, tasks, t, i)
    decreases k
  {
    if ChunkStart(n, tasks, k) <= i then k
    else OwnerFrom(n, tasks, i, k - 1)
  }

  /** The worker that computes row i. */
  function Owner(n: nat, tasks: nat, i: nat): (t: nat)
    requires 1 <= tasks && i < n
    ensures t < tasks && InChunk(n, tasks, t, i)
  {
    OwnerFrom(n, tasks, i, tasks - 1)
  }

  /** The blocks partition [0, n): every row lies in some block, in no more
      than one, and no block holds a row outside [0, n). */
  lemma ChunksPartitionRows(n: nat, tasks: nat)
    requires 1 <= tasks
    ensures forall i: nat :: i < n ==> InChunk(n, tasks, Owner(n, tasks, i), i)
    ensures forall t1: nat, t2: nat, i: nat ::
              InChunk(n, tasks, t1, i) && InChunk(n, tasks, t2, i) ==> t1 == t2
    ensures forall t: nat, i: nat :: InChunk(n, tasks, t, i) ==> i < n
  {
    forall t1: nat, t2: nat, i: nat | InChunk(n, tasks, t1, i) && InChunk(n, tasks, t2, i)
      ensures t1 == t2
    {
      if t1 < t2 {
        ChunksOrdered(n, tasks, t1, t2);
      } else if t2 < t1 {
        ChunksOrdered(n, tasks, t2, t1);
      }
    }
  }

  /** With more workers than rows, n / tasks is 0: every block but the last
      is empty and the last one is [0, n). */
  lemma MoreTasksThanRows(n: nat, tasks: nat)
    requires n < tasks
    ensures forall t :: 0 <= t < tasks - 1 ==> ChunkStart(n, tasks, t) == ChunkEnd(n, tasks, t) == 0
    ensures ChunkStart(n, tasks, tasks - 1) == 0 && ChunkEnd(n, tasks, tasks - 1) == n
  {
    assert n / tasks == 0;
  }

  /** Seven rows over three workers: [0,2), [2,4), [4,7). */
  lemma SevenRowsThreeTasks()
    ensures Chunks(7, 3) == [Chunk(0, 2), Chunk(2, 4), Chunk(4, 7)]
  {
    assert 7 / 3 == 2;
  }
}
