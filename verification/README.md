# Jacobi solver, sequential and row-partitioned

This project models the Jacobi iteration of `Task1/Program.cs`. It covers two solvers:

- `SolveJacobi`, which sweeps all rows in order.
- `SolveParallelJacobi`, which splits the rows into contiguous blocks, one block per worker, and joins the workers before copying the new iterate over the old one.

Values are Dafny `real`s, not IEEE doubles. Matrices are `seq<seq<real>>` and vectors are `seq<real>`.

The model has five modules:

- `Partition` (`partition.dfy`) covers the block bounds `t * (n / numTasks)` and `(t + 1) * (n / numTasks)`; the last block ends at `n`. It proves that the blocks partition the rows, with the `n = 7`, three-worker table and the more-workers-than-rows case.
- `Jacobi` (`jacobi.dfy`) covers the row update `(b[i] - sigma) / A[i][i]` and the sweep. It defines the error as the largest change, folded from 0. The sweep loop is the `RowSigma` and `JacobiSweep` methods. Also proved here: the sweep's fixed points are exactly the solutions of `A x = b`.
- `Chunked` (`chunked.dfy`) covers the parallel iteration as a fold of worker bodies over the shared buffer. Each worker writes only its rows and keeps a local maximum, and the local maxima are combined. It proves that the fold gives the sequential sweep and its error, for any worker order and any prior buffer contents. It includes the worker loop `RunChunk` and the coordinator loop `ChunkedSweep`.
- `Solver` (`solver.dfy`) covers the do-while loop, written once over the iterates and errors of a solver (`RunLoop`). It is applied to both solvers, with the loop methods `Solve` and `SolveParallel`. With at least one worker the parallel solver returns exactly what the sequential one returns. With no workers it returns the untouched zero buffer.
- `Race` (`race.dfy`) covers the shared `error` variable as the source's workers update it, without synchronisation (see Findings).

The outer loops of the source run until the error falls within the criterion. Here each loop is given a `fuel` bound on the number of sweeps, and running out of fuel is the outcome `FuelExhausted`.

## Model

| member | source | states |
|---|---|---|
| Partition.ChunkStart | Task1/Program.cs:225 | worker t's first row t * (n / numTasks) never lies past n |
| Partition.ChunkEnd | Task1/Program.cs:226 | the last worker's block ends at n; every other block ends where the next one starts; and start <= end <= n |
| Partition.Chunks | Task1/Program.cs:225-226 | the bounds table has one entry per worker: the first starts at 0, the last ends at n, consecutive blocks touch, and each lies within [0, n) |
| Partition.ChunksOrdered | Task1/Program.cs:225-226 | a lower-numbered worker's block ends no later than a higher-numbered worker's block starts |
| Partition.Owner | Task1/Program.cs:225-226 | every row i < n lies in the block of some worker t < numTasks |
| Partition.ChunksPartitionRows | Task1/Program.cs:223-226 | with at least one worker, every row is in some block, no row is in two blocks, and no block holds a row outside [0, n) |
| Partition.MoreTasksThanRows | Task1/Program.cs:225-226 | with more workers than rows, every block but the last is empty and the last is [0, n) |
| Partition.SevenRowsThreeTasks | Task1/Program.cs:225-226 | 7 rows over 3 workers gives the blocks [0,2), [2,4), [4,7) |
| Jacobi.SigmaIsOffDiagonalDot | Task1/Program.cs:176-184 | sigma accumulated over the columns other than i equals the full row product minus the diagonal term |
| Jacobi.RowSigma | Task1/Program.cs:176-184 | the inner loop leaves sigma equal to the row product of A[i] and x without the diagonal term |
| Jacobi.NextAt | Task1/Program.cs:186 | row i of the next iterate is (b[i] - sigma) / A[i][i], computed from the previous iterate x only |
| Jacobi.RowValue | Task1/Program.cs:176-186 | definition of row i's new value (b[i] - sigma) / A[i][i] over the previous iterate; characterised by Jacobi.RowFixedIffEquation and Jacobi.SigmaIsOffDiagonalDot |
| Jacobi.Next | Task1/Program.cs:174-186 | definition of the next iterate; it keeps the shape the sweep needs, and is characterised row by row by Jacobi.NextAt and as a whole by Jacobi.FixedPointIffSolution |
| Jacobi.SweepError | Task1/Program.cs:172-189 | definition of a sweep's error as the largest change from x to the next iterate; characterised by Jacobi.MaxChange and Jacobi.SweepErrorZeroIffSolution |
| Jacobi.NextEverywhere | Task1/Program.cs:174-186 | every row of the next iterate is its row update |
| Jacobi.MaxChange | Task1/Program.cs:172-189 | the error folded from 0 is non-negative, bounds every row's change, and is one of them or 0 |
| Jacobi.MaxChangeSplit | Task1/Program.cs:188-189 | the largest change over a range is the larger of the largest changes over its two halves |
| Jacobi.MaxChangeUnique | Task1/Program.cs:188-189 | any non-negative value that bounds every change over a range and is one of them (or 0) is the folded maximum |
| Jacobi.MaxChangeZeroIffEqual | Task1/Program.cs:188-189 | the error is 0 exactly when no entry changed |
| Jacobi.RowFixedIffEquation | Task1/Program.cs:176-186 | the update leaves row i in place exactly when x satisfies equation i of A x = b |
| Jacobi.FixedPointIffSolution | Task1/Program.cs:174-190 | the sweep leaves x in place exactly when x solves A x = b |
| Jacobi.SweepErrorZeroIffSolution | Task1/Program.cs:172-190 | a sweep's error is 0 exactly when x solves A x = b |
| Jacobi.JacobiSweep | Task1/Program.cs:172-190 | the sweep loop writes every row's update into the buffer, whatever it held; its error is non-negative, bounds every row's change, and is attained by some row (or is 0) |
| Chunked.RunRows | Task1/Program.cs:230-246 | a worker's body writes the update of each row of its block, leaves every other buffer entry as it was, and its local maximum is the largest change over its block |
| Chunked.RunChunk | Task1/Program.cs:230-246 | the worker loop writes exactly its block's updates into the buffer, leaves the other entries unchanged, and returns its block's largest change |
| Chunked.ClaimedByListed | Task1/Program.cs:223-248 | a row in the block of any listed worker counts as written by the workers listed |
| Chunked.RunWorkers | Task1/Program.cs:223-248 | the listed workers run one after another on the shared buffer and their local maxima are folded in; it keeps the buffer's length, and is characterised by Chunked.RunWorkersRows, Chunked.RunWorkersError and Chunked.ChunkedSweepIsSweep |
| Chunked.RunWorkersRows | Task1/Program.cs:223-248 | after the listed workers run, in any order, a row holds its update exactly when some listed worker owns it, and otherwise the buffer's old value |
| Chunked.RunWorkersError | Task1/Program.cs:220-248 | the combined local maxima are non-negative, bound every owned row's change, and are one of those changes or 0 |
| Chunked.ChunkedSweepIsSweep | Task1/Program.cs:220-250 | running all workers, in any order and over any buffer, gives the sequential sweep's iterate and error |
| Chunked.RangeListsAll | Task1/Program.cs:223 | the start order 0 .. numTasks - 1 lists every worker |
| Chunked.ParallelSweep | Task1/Program.cs:220-250 | one parallel iteration with at least one worker equals the sequential sweep and its error; with none, the buffer is untouched and the error is 0 |
| Chunked.ChunkedSweep | Task1/Program.cs:220-250 | the coordinator loop, with bounds computed as at lines 225-226, agrees with ParallelSweep: the sequential sweep and its error with a worker, and the buffer and 0 without one |
| Solver.RunLoop | Task1/Program.cs:170-196 | definition of the do-while loop over a solver's iterates and errors, under fuel; characterised by Solver.RunLoopOutcome, Solver.RunLoopConvergedIff and Solver.RunLoopExhaustedIff |
| Solver.RunLoopStep | Task1/Program.cs:170-196 | a sweep whose error exceeds the criterion leads to the next sweep; one within it ends the loop with the iterate it produced |
| Solver.RunLoopOutcome | Task1/Program.cs:170-204 | the loop stops only at a sweep whose error is within the criterion, after every earlier sweep exceeded it, and returns that sweep's iterate; it runs out of fuel only when every sweep exceeded it |
| Solver.RunLoopCongruent | Task1/Program.cs:170-196 | two loops that see the same iterates and errors end the same way |
| Solver.RunLoopConvergedIff | Task1/Program.cs:170-204 | the loop converges with (x, m) exactly when sweep m is the first within the criterion, m fits in the fuel, and x is the m-th iterate |
| Solver.RunLoopExhaustedIff | Task1/Program.cs:170-196 | the loop runs out of fuel exactly when every sweep it ran exceeded the criterion, and it then holds the last iterate |
| Solver.StartVector | Task1/Program.cs:163-168 | x is a fresh n-entry copy of the first n entries of the initial guess |
| Solver.Zeros | Task1/Program.cs:164 | the xNext buffer starts as n zeros |
| Solver.SolveJacobi | Task1/Program.cs:159-205 | definition of the sequential solver as the loop over the sequential iterates from the copied guess; characterised by Solver.SolveJacobiConverged and Solver.SolveJacobiExhausted |
| Solver.ParallelState | Task1/Program.cs:211-256 | the arrays x and xNext after k parallel iterations: the guess and zeros at first, then x equal to xNext after every iteration, each keeping n entries; connected to the loop by Solver.ParallelIteration |
| Solver.SolveParallelJacobi | Task1/Program.cs:207-267 | definition of the parallel solver as the same loop over the parallel iterates and errors; characterised by Solver.ParallelMatchesSequential and Solver.ParallelWithoutTasks |
| Solver.SolveJacobiConverged | Task1/Program.cs:159-205 | the sequential solver converges with (x, m) exactly when sweep m is the first within the criterion and x is the m-th iterate |
| Solver.SolveJacobiExhausted | Task1/Program.cs:170-196 | the sequential solver does not stop within the fuel exactly when every sweep exceeds the criterion |
| Solver.MoreFuelSameResult | Task1/Program.cs:170-204 | a converged result is unchanged when more sweeps are allowed |
| Solver.StartAtSolution | Task1/Program.cs:168-204 | started at an exact solution with a non-negative criterion, the solver stops after one sweep with the guess unchanged |
| Solver.NegativeToleranceNeverStops | Task1/Program.cs:196 | a negative criterion is never met, since no error is negative |
| Solver.ParallelIterateIsIterate | Task1/Program.cs:218-256 | with at least one worker, the k-th parallel iterate is the k-th sequential iterate |
| Solver.ParallelMatchesSequential | Task1/Program.cs:207-267 | with at least one worker, the parallel solver returns what the sequential solver returns |
| Solver.ParallelWithoutTasks | Task1/Program.cs:211-256 | with no workers the error stays 0, and a non-negative criterion ends the loop after one iteration with the untouched zero buffer |
| Solver.Solve | Task1/Program.cs:159-205 | the sequential loop (copy the guess, sweep, copy xNext over x, repeat while the error exceeds the criterion) returns what SolveJacobi describes |
| Solver.ParallelIteration | Task1/Program.cs:218-255 | one parallel iteration takes the solver's arrays after k iterations to those after k + 1, and yields the error of iteration k |
| Solver.ParallelLoopStep | Task1/Program.cs:218-256 | an iteration of the parallel loop whose error exceeds the criterion leads to the next; one within it ends the loop with the copied buffer |
| Solver.ParallelLoop | Task1/Program.cs:211-256 | the parallel do-while loop (copy the guess, run the workers, join, copy, repeat while the error exceeds the criterion) returns what SolveParallelJacobi describes |
| Solver.SolveParallel | Task1/Program.cs:207-267 | the parallel solver returns what SolveParallelJacobi describes, and with at least one worker exactly what the sequential solver returns, iteration count included |
| Race.SharedValues | Task1/Program.cs:245 | the successive values of the shared error under a schedule of unsynchronised writes: the reset to 0, then one value per write; characterised by Race.SerializedIsRunningMax and Race.LostUpdate |
| Race.RacyError | Task1/Program.cs:245-250 | definition of the error the coordinator reads after the join, the last value written; characterised by Race.SerializedIsSweepError and Race.LostUpdate |
| Race.SerializedIsRunningMax | Task1/Program.cs:245 | writes to the shared error that each see the previous write leave a value that bounds every written row's change and is one of them, or 0 |
| Race.SerializedIsSweepError | Task1/Program.cs:220-246 | serialized writes covering every row leave the sequential sweep's error in the shared variable |
| Race.ExampleNext | Task1/Program.cs:174-186 | one sweep of the system [[1, 1/2], [0, 1]] x = [5, 1] from [p, q] gives [5 - q/2, 1] |
| Race.LostUpdate | Task1/Program.cs:228-256 | on that system from [0, 0], with two one-row workers, a schedule the workers can produce leaves error 1 although the sweep's error is 5, so a criterion of 2 ends the loop after one iteration with [5, 1] |
| Race.LostUpdateChangesResult | Task1/Program.cs:159-205 | on the same system and criterion, the sequential solver stops only after the second sweep and returns [4.5, 1], not the racy run's [5, 1] |

## Left out

- The `error != double.PositiveInfinity` exit of the sequential loop (line 196) and the `null` return on an infinite error (lines 198-201, 259-262). Values are reals, so the error is never infinite.
- A zero diagonal entry, and rounding. The solvers require a non-zero diagonal (`NonZeroDiagonal`), and the arithmetic is exact. In the source, `(b[i] - sigma) / 0.0` is an infinity, or NaN when the numerator is 0, so the error can become infinite and `SolveJacobi` then returns `null` (lines 196-201); none of this is modelled.
- Exceptions from inputs that are too short. The source throws `IndexOutOfRangeException` when `A` has fewer than n columns (`A[i, j]` at lines 182 and 238) or `b` has fewer than n entries (`b[i]` at lines 186 and 242), and `Array.Copy` throws `ArgumentException` when `initialGuess` has fewer than n entries (lines 168 and 216). The model requires these shapes (`WellFormed`, `ValidInputs`) instead of modelling the exceptions.
- Convergence of the iteration (for example, for diagonally dominant systems). It needs real analysis beyond what the code promises.
- Solver.SolveJacobi: the source loops until the error is within the criterion; the model runs at most `fuel` sweeps and reports `FuelExhausted` otherwise.
- Solver.Solve: bounded by `fuel` in the same way.
- Solver.SolveParallelJacobi: bounded by `fuel` in the same way. The loop at line 256 has no infinity exit of its own, so it is not modelled either.
- Solver.SolveParallel: bounded by `fuel` in the same way.
- `Task.Run` / `Task.WaitAll` threads (lines 221-250). The workers run one after another, in start order in `ChunkedSweep` and in any order in `ChunkedSweepIsSweep`. Each worker keeps a local maximum, folded into the error when it is done; this equals the source's per-row shared update when the workers do not interleave.
- Chunked.ChunkedSweep: models the shared `error` update of line 245 as if no two workers interleaved. `Race` shows what an interleaving can do.
- Solver.ParallelState: the arrays after k parallel iterations are defined from what `ParallelSweep` is proved to compute, not by calling it. `ParallelIteration` checks that the coordinator loop produces exactly these arrays.
- A negative `numTasks`. The source throws when allocating `new Task[numTasks]`; the model takes `numTasks` as a `nat`. With `numTasks == 0` the source never writes `xNext`; this is modelled (`ParallelWithoutTasks`).
- 32-bit integer overflow in the bounds arithmetic: `t * (n / numTasks)` with `t <= numTasks` never exceeds `n`, so it cannot overflow.
- The console `Main` and its regenerate-and-retry loop (lines 10-65), the Excel experiment driver (lines 67-106), `MeasureTime` (lines 108-114), the random matrix and vector generators (lines 116-157), and the `Console.WriteLine` of the iteration count (lines 202, 264). These are I/O, timing and randomness outside the solver.

## Findings

| source | as written | input that shows it | evidently intended | confidence | as-written member | corrected member |
|---|---|---|---|---|---|---|
| Task1/Program.cs:245 | every worker does `error = Math.Max(error, change)` on one shared variable with no synchronisation, so a write can overwrite a larger value written after it was read | A = [[1,0.5],[0,1]], b = [5,1], initial guess [0,0], criterion 2, two workers of one row each; both read 0, worker 0 writes 5, worker 1 writes 1; the error seen after the join is 1 while the sweep's error is 5, so the loop returns [5,1] after one iteration, where the sequential solver goes on to a second sweep and returns [4.5,1] | each worker keeps a local maximum of its rows and the coordinator combines them after the join, which gives the sequential sweep's error | high (not executed) | Race.LostUpdate, Race.LostUpdateChangesResult | Chunked.ChunkedSweep |
