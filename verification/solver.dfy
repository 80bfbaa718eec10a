/** The two solvers: sweep, copy the new iterate over the old one, and repeat
    while the sweep's error exceeds the convergence criterion.

    The do-while loops of SolveJacobi and SolveParallelJacobi in
    Task1/Program.cs run until the error is within the criterion; here each
    takes a `fuel` bound on the number of sweeps, and running out of it is
    reported as its own outcome. The loop itself is written once, over the sequence of
    iterates a solver produces and the errors of its sweeps.
 */
module Solver {
  import opened Jacobi
  import opened Partition
  import opened Chunked

  datatype Outcome =
    | Converged(x: Vector, iterations: nat)
    | FuelExhausted(x: Vector, iterations: nat)

  /** The do-while loop, entered after k sweeps: `iterate(j)` is the iterate
      after j sweeps and `error(j)` the error of the sweep from it. A sweep
      whose error is within tol ends the loop with the iterate it produced. */
  function RunLoop(iterate: nat -> Vector, error: nat -> real, tol: real, fuel: nat, k: nat): (out: Outcome)
    decreases fuel
  {
    if fuel == 0 then FuelExhausted(iterate(k), k)
    else if error(k) > tol then RunLoop(iterate, error, tol, fuel - 1, k + 1)
    else Converged(iterate(k + 1), k + 1)
  }

  /** One pass of the loop: a sweep whose error exceeds tol leads to the
      next one; one within tol ends the loop with the iterate it produced. */
  lemma RunLoopStep(iterate: nat -> Vector, error: nat -> real, tol: real, fuel: nat, k: nat)
    requires 1 <= fuel
    ensures error(k) > tol ==> RunLoop(iterate, error, tol, fuel, k) == RunLoop(iterate, error, tol, fuel - 1, k + 1)
    ensures error(k) <= tol ==> RunLoop(iterate, error, tol, fuel, k) == Converged(iterate(k + 1), k + 1)
  {
  }

  /** Entered after k sweeps, the loop either stops at the first sweep m
      whose error is within tol and returns the m-th iterate, or runs out of
      fuel with every error above tol and returns the last iterate. */
  lemma {:induction false} RunLoopOutcome(iterate: nat -> Vector, error: nat -> real, tol: real, fuel: nat, k: nat)
    ensures var out := RunLoop(iterate, error, tol, fuel, k);
            out.Converged? ==>
              && k < out.iterations <= k + fuel
              && out.x == iterate(out.iterations)
              && error(out.iterations - 1) <= tol
              && forall j: nat :: k <= j < out.iterations - 1 ==> error(j) > tol
    ensures var out := RunLoop(iterate, error, tol, fuel, k);
            out.FuelExhausted? ==>
              && out.iterations == k + fuel
              && out.x == iterate(k + fuel)
              && forall j: nat :: k <= j < k + fuel ==> error(j) > tol
    decreases fuel
  {
    if fuel > 0 && error(k) > tol {
      RunLoopOutcome(iterate, error, tol, fuel - 1, k + 1);
    }
  }

  /** The loop only looks at the iterates and errors of the sweeps it runs. */
  lemma {:induction false} RunLoopCongruent(it1: nat -> Vector, err1: nat -> real,
                                            it2: nat -> Vector, err2: nat -> real,
                                            tol: real, fuel: nat, k: nat)
    requires forall j: nat :: k <= j <= k + fuel ==> it1(j) == it2(j)
    requires forall j: nat :: k <= j < k + fuel ==> err1(j) == err2(j)
    ensures RunLoop(it1, err1, tol, fuel, k) == RunLoop(it2, err2, tol, fuel, k)
    decreases fuel
  {
    if fuel > 0 && err1(k) > tol {
      RunLoopCongruent(it1, err1, it2, err2, tol, fuel - 1, k + 1);
    }
  }

  /** What the solvers need of their inputs: n = |A| rows of at least n
      entries with a non-zero diagonal, and b and the initial guess holding
      at least n entries (only the first n are read). */
  predicate ValidInputs(A: Matrix, b: Vector, initialGuess: Vector)
  {
    && Shaped(A)
    && NonZeroDiagonal(A)
    && |b| >= |A|
    && |initialGuess| >= |A|
  }

  /** The fresh copy of the initial guess the solvers iterate on. */
  function StartVector(A: Matrix, initialGuess: Vector): (x: Vector)
    requires |initialGuess| >= |A|
    ensures |x| == |A|
    ensures forall i :: 0 <= i < |A| ==> x[i] == initialGuess[i]
  {
    initialGuess[..|A|]
  }

  /** The xNext buffer as first allocated: all zeros. */
  function Zeros(n: nat): (z: Vector)
    ensures |z| == n
    ensures forall i :: 0 <= i < n ==> z[i] == 0.0
  {
    seq(n, _ => 0.0)
  }

  /** The iterate after k sweeps of the sequential solver. */
  function Iterate(A: Matrix, b: Vector, x0: Vector, k: nat): (x: Vector)
    requires WellFormed(A, b, x0)
    ensures WellFormed(A, b, x)
    decreases k
  {
    if k == 0 then x0 else Next(A, b, Iterate(A, b, x0, k - 1))
  }

  /** The error of the sequential sweep from the j-th iterate. */
  function ErrorAt(A: Matrix, b: Vector, x0: Vector, j: nat): real
    requires WellFormed(A, b, x0)
  {
    SweepError(A, b, Iterate(A, b, x0, j))
  }

  function Iterates(A: Matrix, b: Vector, x0: Vector): nat -> Vector
    requires WellFormed(A, b, x0)
  {
    (j: nat) => Iterate(A, b, x0, j)
  }

  function Errors(A: Matrix, b: Vector, x0: Vector): nat -> real
    requires WellFormed(A, b, x0)
  {
    (j: nat) => ErrorAt(A, b, x0, j)
  }

  /** The sequential solver. */
  function SolveJacobi(A: Matrix, b: Vector, initialGuess: Vector, tol: real, fuel: nat): Outcome
    requires ValidInputs(A, b, initialGuess)
  {
    var x0 := StartVector(A, initialGuess);
    RunLoop(Iterates(A, b, x0), Errors(A, b, x0), tol, fuel, 0)
  }

  /** The two arrays of the parallel solver, x and the shared buffer xNext. */
  datatype State = State(x: Vector, xNext: Vector)

  /** The arrays of the parallel solver with numTasks workers after k
      iterations. The buffer starts as zeros; each iteration runs the workers
      on it and then copies it over x. By ParallelSweep's contract, an
      iteration with at least one worker writes the sequential sweep into
      the buffer whatever it held, and one without workers leaves it as it
      was. */
  function ParallelState(A: Matrix, b: Vector, x0: Vector, numTasks: nat, k: nat): (s: State)
    requires WellFormed(A, b, x0)
    ensures WellFormed(A, b, s.x) && |s.xNext| == |A|
    decreases k
  {
    if k == 0 then State(x0, Zeros(|A|))
    else
      var prev := ParallelState(A, b, x0, numTasks, k - 1);
      var y := if numTasks == 0 then prev.xNext else Next(A, b, prev.x);
      State(y, y)
  }

  /** The iterate after k iterations of the parallel solver. */
  function ParallelIterate(A: Matrix, b: Vector, x0: Vector, numTasks: nat, k: nat): (x: Vector)
    requires WellFormed(A, b, x0)
    ensures WellFormed(A, b, x)
  {
    ParallelState(A, b, x0, numTasks, k).x
  }

  /** The error of the parallel iteration from the j-th iterate: by
      ParallelSweep's contract, the sequential sweep's error when there is a
      worker, and 0 when there is none. */
  function ParallelErrorAt(A: Matrix, b: Vector, x0: Vector, numTasks: nat, j: nat): real
    requires WellFormed(A, b, x0)
  {
    if numTasks == 0 then 0.0 else SweepError(A, b, ParallelIterate(A, b, x0, numTasks, j))
  }

  function ParallelIterates(A: Matrix, b: Vector, x0: Vector, numTasks: nat): nat -> Vector
    requires WellFormed(A, b, x0)
  {
    (j: nat) => ParallelIterate(A, b, x0, numTasks, j)
  }

  function ParallelErrors(A: Matrix, b: Vector, x0: Vector, numTasks: nat): nat -> real
    requires WellFormed(A, b, x0)
  {
    (j: nat) => ParallelErrorAt(A, b, x0, numTasks, j)
  }

  /** The parallel solver with numTasks workers. */
  function SolveParallelJacobi(A: Matrix, b: Vector, initialGuess: Vector, tol: real,
                               numTasks: nat, fuel: nat): Outcome
    requires ValidInputs(A, b, initialGuess)
  {
    var x0 := StartVector(A, initialGuess);
    RunLoop(ParallelIterates(A, b, x0, numTasks), ParallelErrors(A, b, x0, numTasks), tol, fuel, 0)
  }

  /** The sweep from the m-th iterate is the first whose error is within tol. */
  predicate FirstStop(A: Matrix, b: Vector, x0: Vector, tol: real, m: nat)
    requires WellFormed(A, b, x0)
  {
    && 1 <= m
    && ErrorAt(A, b, x0, m - 1) <= tol
    && forall j: nat :: j < m - 1 ==> ErrorAt(A, b, x0, j) > tol
  }

  /** None of the first f sweeps has its error within tol. */
  predicate NeverStopsWithin(A: Matrix, b: Vector, x0: Vector, tol: real, f: nat)
    requires WellFormed(A, b, x0)
  {
    forall j: nat :: j < f ==> ErrorAt(A, b, x0, j) > tol
  }

  /** The loop entered at the start converges with (x, m) exactly when
      sweep m is the first whose error is within tol, it fits in the fuel,
      and x is the m-th iterate. */
  lemma RunLoopConvergedIff(iterate: nat -> Vector, error: nat -> real, tol: real, fuel: nat,
                            x: Vector, m: nat)
    ensures RunLoop(iterate, error, tol, fuel, 0) == Converged(x, m)
            <==> && 1 <= m <= fuel
                 && error(m - 1) <= tol
                 && (forall j: nat :: j < m - 1 ==> error(j) > tol)
                 && x == iterate(m)
  {
    RunLoopOutcome(iterate, error, tol, fuel, 0);
  }

  /** The loop entered at the start runs out of fuel exactly when none of
      the first `fuel` errors is within tol, and then returns the last
      iterate. */
  lemma RunLoopExhaustedIff(iterate: nat -> Vector, error: nat -> real, tol: real, fuel: nat)
    ensures RunLoop(iterate, error, tol, fuel, 0).FuelExhausted?
            <==> forall j: nat :: j < fuel ==> error(j) > tol
    ensures RunLoop(iterate, error, tol, fuel, 0).FuelExhausted?
            ==> RunLoop(iterate, error, tol, fuel, 0) == FuelExhausted(iterate(fuel), fuel)
  {
    RunLoopOutcome(iterate, error, tol, fuel, 0);
  }

  /** The sequential solver converges with (x, m) exactly when sweep m is
      the first within tol, it fits in the fuel, and x is the m-th iterate. */
  lemma SolveJacobiConverged(A: Matrix, b: Vector, initialGuess: Vector, tol: real, fuel: nat,
                             x: Vector, m: nat)
    requires ValidInputs(A, b, initialGuess)
    ensures var x0 := StartVector(A, initialGuess);
            SolveJacobi(A, b, initialGuess, tol, fuel) == Converged(x, m)
            <==> m <= fuel && FirstStop(A, b, x0, tol, m) && x == Iterate(A, b, x0, m)
  {
    var x0 := StartVector(A, initialGuess);
    var its, errs := Iterates(A, b, x0), Errors(A, b, x0);
    forall j: nat ensures errs(j) == ErrorAt(A, b, x0, j) {}
    assert its(m) == Iterate(A, b, x0, m);
    RunLoopConvergedIff(its, errs, tol, fuel, x, m);
  }

  /** The sequential solver runs out of fuel exactly when none of the first
      `fuel` sweeps is within tol, and it then returns the last iterate. */
  lemma SolveJacobiExhausted(A: Matrix, b: Vector, initialGuess: Vector, tol: real, fuel: nat)
    requires ValidInputs(A, b, initialGuess)
    ensures var x0 := StartVector(A, initialGuess);
            SolveJacobi(A, b, initialGuess, tol, fuel).FuelExhausted?
            <==> NeverStopsWithin(A, b, x0, tol, fuel)
    ensures var x0 := StartVector(A, initialGuess);
            SolveJacobi(A, b, initialGuess, tol, fuel).FuelExhausted?
            ==> SolveJacobi(A, b, initialGuess, tol, fuel) == FuelExhausted(Iterate(A, b, x0, fuel), fuel)
  {
    var x0 := StartVector(A, initialGuess);
    var its, errs := Iterates(A, b, x0), Errors(A, b, x0);
    forall j: nat ensures errs(j) == ErrorAt(A, b, x0, j) {}
    assert its(fuel) == Iterate(A, b, x0, fuel);
    RunLoopExhaustedIff(its, errs, tol, fuel);
  }

  /** A result once reached is kept when more sweeps are allowed. */
  lemma MoreFuelSameResult(A: Matrix, b: Vector, initialGuess: Vector, tol: real,
                           fuel: nat, fuel': nat)
    requires ValidInputs(A, b, initialGuess)
    requires fuel <= fuel' && SolveJacobi(A, b, initialGuess, tol, fuel).Converged?
    ensures SolveJacobi(A, b, initialGuess, tol, fuel') == SolveJacobi(A, b, initialGuess, tol, fuel)
  {
    var out := SolveJacobi(A, b, initialGuess, tol, fuel);
    SolveJacobiConverged(A, b, initialGuess, tol, fuel, out.x, out.iterations);
    SolveJacobiConverged(A, b, initialGuess, tol, fuel', out.x, out.iterations);
  }

  /** Started at an exact solution with tol >= 0, the solver stops after one
      sweep and returns the guess unchanged. */
  lemma StartAtSolution(A: Matrix, b: Vector, initialGuess: Vector, tol: real, fuel: nat)
    requires ValidInputs(A, b, initialGuess)
    requires IsSolution(A, b, StartVector(A, initialGuess))
    requires 0.0 <= tol && 1 <= fuel
    ensures SolveJacobi(A, b, initialGuess, tol, fuel) == Converged(StartVector(A, initialGuess), 1)
  {
    var x0 := StartVector(A, initialGuess);
    SweepErrorZeroIffSolution(A, b, x0);
    FixedPointIffSolution(A, b, x0);
    assert Errors(A, b, x0)(0) <= tol;
    assert Iterates(A, b, x0)(1) == x0;
  }

  /** A negative tolerance can never be met, since no error is negative:
      the solver always runs out of fuel. */
  lemma NegativeToleranceNeverStops(A: Matrix, b: Vector, initialGuess: Vector, tol: real, fuel: nat)
    requires ValidInputs(A, b, initialGuess)
    requires tol < 0.0
    ensures SolveJacobi(A, b, initialGuess, tol, fuel)
            == FuelExhausted(Iterate(A, b, StartVector(A, initialGuess), fuel), fuel)
  {
    SolveJacobiExhausted(A, b, initialGuess, tol, fuel);
  }

  /** With at least one worker, the parallel solver goes through the same
      iterates as the sequential one. */
  lemma {:induction false} ParallelIterateIsIterate(A: Matrix, b: Vector, x0: Vector, numTasks: nat, k: nat)
    requires WellFormed(A, b, x0) && 1 <= numTasks
    ensures ParallelIterate(A, b, x0, numTasks, k) == Iterate(A, b, x0, k)
    decreases k
  {
    if k > 0 {
      ParallelIterateIsIterate(A, b, x0, numTasks, k - 1);
    }
  }

  /** The parallel solver returns what the sequential solver returns. */
  lemma ParallelMatchesSequential(A: Matrix, b: Vector, initialGuess: Vector, tol: real,
                                  numTasks: nat, fuel: nat)
    requires ValidInputs(A, b, initialGuess) && 1 <= numTasks
    ensures SolveParallelJacobi(A, b, initialGuess, tol, numTasks, fuel)
            == SolveJacobi(A, b, initialGuess, tol, fuel)
  {
    var x0 := StartVector(A, initialGuess);
    var pits, perrs := ParallelIterates(A, b, x0, numTasks), ParallelErrors(A, b, x0, numTasks);
    var its, errs := Iterates(A, b, x0), Errors(A, b, x0);
    forall j: nat
      ensures pits(j) == its(j) && perrs(j) == errs(j)
    {
      ParallelIterateIsIterate(A, b, x0, numTasks, j);
    }
    RunLoopCongruent(pits, perrs, its, errs, tol, fuel, 0);
  }

  /** With no workers nothing is written: the error stays 0 and the untouched
      zero buffer is returned after one iteration. */
  lemma ParallelWithoutTasks(A: Matrix, b: Vector, initialGuess: Vector, tol: real, fuel: nat)
    requires ValidInputs(A, b, initialGuess) && 0.0 <= tol && 1 <= fuel
    ensures SolveParallelJacobi(A, b, initialGuess, tol, 0, fuel) == Converged(Zeros(|A|), 1)
  {
    var x0 := StartVector(A, initialGuess);
    assert ParallelErrors(A, b, x0, 0)(0) == 0.0;
    assert ParallelIterates(A, b, x0, 0)(1) == Zeros(|A|);
  }

  /** The sequential solver as a loop: a fresh copy of the initial guess is
      swept, the new iterate copied over it, and the loop repeats while the
      error exceeds tol. */
  method Solve(A: Matrix, b: Vector, initialGuess: Vector, tol: real, fuel: nat)
    returns (out: Outcome)
    requires ValidInputs(A, b, initialGuess)
    ensures out == SolveJacobi(A, b, initialGuess, tol, fuel)
  {
    var n := |A|;
    var x := initialGuess[..n];
    ghost var x0 := x;
    ghost var its, errs := Iterates(A, b, x0), Errors(A, b, x0);
    ghost var result := RunLoop(its, errs, tol, fuel, 0);
    var xNext := Zeros(n);
    var k := 0;
    while k < fuel
      invariant k <= fuel
      invariant |xNext| == n
      invariant x == Iterate(A, b, x0, k)
      invariant RunLoop(its, errs, tol, fuel - k, k) == result
    {
      var error;
      xNext, error := JacobiSweep(A, b, x, xNext);
      assert error == errs(k) && xNext == its(k + 1);
      RunLoopStep(its, errs, tol, fuel - k, k);
      x := xNext;
      k := k + 1;
      if error <= tol {
        return Converged(x, k);
      }
    }
    assert x == its(k);
    return FuelExhausted(x, k);
  }

  /** One iteration of the parallel solver: the workers run over the shared
      buffer, their local maxima are combined, and the buffer is copied over
      x. From the arrays after k iterations it yields those after k + 1, and
      the error of iteration k. */
  method ParallelIteration(A: Matrix, b: Vector, ghost x0: Vector, numTasks: nat, ghost k: nat,
                           x: Vector, xNext: Vector)
    returns (x': Vector, xNext': Vector, error: real)
    requires WellFormed(A, b, x0)
    requires State(x, xNext) == ParallelState(A, b, x0, numTasks, k)
    ensures State(x', xNext') == ParallelState(A, b, x0, numTasks, k + 1)
    ensures error == ParallelErrorAt(A, b, x0, numTasks, k)
  {
    xNext', error := ChunkedSweep(A, b, x, xNext, numTasks);
    x' := xNext';
  }

  /** One pass of the parallel solver's loop, in terms of its iterates and
      errors. */
  lemma ParallelLoopStep(A: Matrix, b: Vector, x0: Vector, numTasks: nat, tol: real, fuel: nat, k: nat)
    requires WellFormed(A, b, x0) && 1 <= fuel
    ensures var its, errs := ParallelIterates(A, b, x0, numTasks), ParallelErrors(A, b, x0, numTasks);
            ParallelErrorAt(A, b, x0, numTasks, k) > tol
            ==> RunLoop(its, errs, tol, fuel, k) == RunLoop(its, errs, tol, fuel - 1, k + 1)
    ensures var its, errs := ParallelIterates(A, b, x0, numTasks), ParallelErrors(A, b, x0, numTasks);
            ParallelErrorAt(A, b, x0, numTasks, k) <= tol
            ==> RunLoop(its, errs, tol, fuel, k) == Converged(ParallelIterate(A, b, x0, numTasks, k + 1), k + 1)
  {
    var its, errs := ParallelIterates(A, b, x0, numTasks), ParallelErrors(A, b, x0, numTasks);
    assert errs(k) == ParallelErrorAt(A, b, x0, numTasks, k);
    assert its(k + 1) == ParallelIterate(A, b, x0, numTasks, k + 1);
    RunLoopStep(its, errs, tol, fuel, k);
  }

  /** The parallel solver's do-while loop: a fresh copy of the initial
      guess and a zero buffer, then iterations while the error exceeds tol. */
  method ParallelLoop(A: Matrix, b: Vector, initialGuess: Vector, tol: real, numTasks: nat, fuel: nat)
    returns (out: Outcome)
    requires ValidInputs(A, b, initialGuess)
    ensures out == SolveParallelJacobi(A, b, initialGuess, tol, numTasks, fuel)
  {
    var n := |A|;
    var x := initialGuess[..n];
    ghost var x0 := x;
    ghost var its, errs := ParallelIterates(A, b, x0, numTasks), ParallelErrors(A, b, x0, numTasks);
    var xNext := Zeros(n);
    var k := 0;
    while k < fuel
      invariant k <= fuel
      invariant State(x, xNext) == ParallelState(A, b, x0, numTasks, k)
      invariant RunLoop(its, errs, tol, fuel - k, k) == SolveParallelJacobi(A, b, initialGuess, tol, numTasks, fuel)
    {
      var error;
      x, xNext, error := ParallelIteration(A, b, x0, numTasks, k, x, xNext);
      ParallelLoopStep(A, b, x0, numTasks, tol, fuel - k, k);
      k := k + 1;
      if error <= tol {
        return Converged(x, k);
      }
    }
    assert x == its(k);
    return FuelExhausted(x, k);
  }

  /** The parallel solver: the workers run inside the loop, and with at
      least one worker the outcome is the sequential solver's, iteration
      count included. */
  method SolveParallel(A: Matrix, b: Vector, initialGuess: Vector, tol: real, numTasks: nat, fuel: nat)
    returns (out: Outcome)
    requires ValidInputs(A, b, initialGuess)
    ensures out == SolveParallelJacobi(A, b, initialGuess, tol, numTasks, fuel)
    ensures 1 <= numTasks ==> out == SolveJacobi(A, b, initialGuess, tol, fuel)
  {
    out := ParallelLoop(A, b, initialGuess, tol, numTasks, fuel);
    if 1 <= numTasks {
      ParallelMatchesSequential(A, b, initialGuess, tol, numTasks, fuel);
    }
  }
}
