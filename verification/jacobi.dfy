/** One Jacobi sweep over a dense system A x = b, with values taken as reals.

    Row i of the next iterate is (b[i] - sigma) / A[i][i], where sigma sums
    A[i][j] * x[j] over every column j other than i. The sweep reads only the
    previous iterate x; its error is the largest change |xNext[i] - x[i]|
    over all rows, starting from 0.
 */
module Jacobi {

  type Vector = seq<real>
  type Matrix = seq<seq<real>>

  /** Every row has at least n = |A| entries (a rectangular array of n rows
      and at least n columns). */
  predicate Shaped(A: Matrix)
  {
    forall i :: 0 <= i < |A| ==> |A[i]| >= |A|
  }

  /** The diagonal entries the update divides by are non-zero. */
  predicate NonZeroDiagonal(A: Matrix)
    requires Shaped(A)
  {
    forall i :: 0 <= i < |A| ==> A[i][i] != 0.0
  }

  /** A sweep can run on A, b and the iterate x. */
  predicate WellFormed(A: Matrix, b: Vector, x: Vector)
  {
    && Shaped(A)
    && NonZeroDiagonal(A)
    && |b| >= |A|
    && |x| == |A|
  }

  function Abs(r: real): (a: real)
    ensures a >= 0.0 && (a == r || a == -r)
  {
    if r < 0.0 then -r else r
  }

  function Max(a: real, b: real): (m: real)
    ensures m >= a && m >= b && (m == a || m == b)
  {
    if a >= b then a else b
  }

  /** row[0] * x[0] + ... + row[m-1] * x[m-1]: the left-hand side of an
      equation of the system, restricted to its first m columns. */
  function Dot(row: Vector, x: Vector, m: nat): real
    requires m <= |row| && m <= |x|
  {
    if m == 0 then 0.0 else Dot(row, x, m - 1) + row[m - 1] * x[m - 1]
  }

  /** The sum of row[j] * x[j] over the columns j < m other than the
      diagonal column i, accumulated left to right. */
  function Sigma(row: Vector, x: Vector, i: nat, m: nat): real
    requires m <= |row| && m <= |x|
  {
    if m == 0 then 0.0
    else Sigma(row, x, i, m - 1) + (if m - 1 != i then row[m - 1] * x[m - 1] else 0.0)
  }

  /** sigma is the full row product with the diagonal term taken out. */
  lemma {:induction false} SigmaIsOffDiagonalDot(row: Vector, x: Vector, i: nat, m: nat)
    requires m <= |row| && m <= |x|
    ensures Sigma(row, x, i, m) == Dot(row, x, m) - (if i < m then row[i] * x[i] else 0.0)
  {
    if m > 0 {
      SigmaIsOffDiagonalDot(row, x, i, m - 1);
    }
  }

  /** The new value of row i: (b[i] - sigma) / A[i][i]. */
  function RowValue(A: Matrix, b: Vector, x: Vector, i: nat): real
    requires WellFormed(A, b, x) && i < |A|
  {
    (b[i] - Sigma(A[i], x, i, |A|)) / A[i][i]
  }

  /** The first m rows of the next iterate, each computed from the previous
      iterate x only. */
  function NextRows(A: Matrix, b: Vector, x: Vector, m: nat): (rows: Vector)
    requires WellFormed(A, b, x) && m <= |A|
    ensures |rows| == m
  {
    if m == 0 then [] else NextRows(A, b, x, m - 1) + [RowValue(A, b, x, m - 1)]
  }

  /** The next iterate: every row updated from the previous iterate x. */
  function Next(A: Matrix, b: Vector, x: Vector): (xNext: Vector)
    requires WellFormed(A, b, x)
    ensures WellFormed(A, b, xNext)
  {
    NextRows(A, b, x, |A|)
  }

  /** Row i of the first m rows holds the update of row i. */
  lemma {:induction false} NextRowsAt(A: Matrix, b: Vector, x: Vector, m: nat, i: nat)
    requires WellFormed(A, b, x) && i < m <= |A|
    ensures NextRows(A, b, x, m)[i] == RowValue(A, b, x, i)
  {
    if i < m - 1 {
      NextRowsAt(A, b, x, m - 1, i);
    }
  }

  /** Row i of the next iterate is (b[i] - sigma) / A[i][i]. */
  lemma NextAt(A: Matrix, b: Vector, x: Vector, i: nat)
    requires WellFormed(A, b, x) && i < |A|
    ensures Next(A, b, x)[i] == RowValue(A, b, x, i)
  {
    NextRowsAt(A, b, x, |A|, i);
  }

  /** Every row of the next iterate is its row update. */
  lemma NextEverywhere(A: Matrix, b: Vector, x: Vector)
    requires WellFormed(A, b, x)
    ensures forall i :: 0 <= i < |A| ==> Next(A, b, x)[i] == RowValue(A, b, x, i)
  {
    forall i | 0 <= i < |A| {
      NextAt(A, b, x, i);
    }
  }

  /** The change of row i between x and y. */
  function Change(y: Vector, x: Vector, i: nat): real
    requires i < |y| && i < |x|
  {
    Abs(y[i] - x[i])
  }

  /** The largest change |y[i] - x[i]| over the rows [lo, hi), folded left to
      right from 0. */
  function MaxChange(y: Vector, x: Vector, lo: nat, hi: nat): (e: real)
    requires lo <= hi <= |y| && hi <= |x|
    ensures e >= 0.0
    ensures forall i :: lo <= i < hi ==> Change(y, x, i) <= e
    ensures e == 0.0 || exists i :: lo <= i < hi && e == Change(y, x, i)
    decreases hi
  {
    if hi == lo then 0.0
    else Max(MaxChange(y, x, lo, hi - 1), Change(y, x, hi - 1))
  }

  /** The largest change over [lo, hi) is the larger of the largest changes
      over [lo, mid) and [mid, hi). */
  lemma {:induction false} MaxChangeSplit(y: Vector, x: Vector, lo: nat, mid: nat, hi: nat)
    requires lo <= mid <= hi <= |y| && hi <= |x|
    ensures MaxChange(y, x, lo, hi) == Max(MaxChange(y, x, lo, mid), MaxChange(y, x, mid, hi))
    decreases hi
  {
    if hi > mid {
      MaxChangeSplit(y, x, lo, mid, hi - 1);
    }
  }

  /** The largest change is the only value that is at least 0, bounds every
      change, and is either 0 or one of the changes. */
  lemma MaxChangeUnique(y: Vector, x: Vector, lo: nat, hi: nat, e: real)
    requires lo <= hi <= |y| && hi <= |x|
    requires e >= 0.0
    requires forall i :: lo <= i < hi ==> Change(y, x, i) <= e
    requires e == 0.0 || exists i :: lo <= i < hi && e == Change(y, x, i)
    ensures e == MaxChange(y, x, lo, hi)
  {
  }

  /** The largest change is 0 exactly when nothing changed. */
  lemma MaxChangeZeroIffEqual(y: Vector, x: Vector)
    requires |y| == |x|
    ensures MaxChange(y, x, 0, |y|) == 0.0 <==> y == x
  {
    if MaxChange(y, x, 0, |y|) == 0.0 {
      forall i | 0 <= i < |y|
        ensures y[i] == x[i]
      {
        assert Change(y, x, i) <= 0.0;
      }
    }
  }

  /** The error of one sweep from x. */
  function SweepError(A: Matrix, b: Vector, x: Vector): real
    requires WellFormed(A, b, x)
  {
    MaxChange(Next(A, b, x), x, 0, |A|)
  }

  /** x solves the system: each equation's left-hand side equals b[i]. */
  predicate IsSolution(A: Matrix, b: Vector, x: Vector)
    requires WellFormed(A, b, x)
  {
    forall i :: 0 <= i < |A| ==> Dot(A[i], x, |A|) == b[i]
  }

  /** Row i is left in place by the update exactly when x satisfies
      equation i. */
  lemma RowFixedIffEquation(A: Matrix, b: Vector, x: Vector, i: nat)
    requires WellFormed(A, b, x) && i < |A|
    ensures RowValue(A, b, x, i) == x[i] <==> Dot(A[i], x, |A|) == b[i]
  {
    var n := |A|;
    SigmaIsOffDiagonalDot(A[i], x, i, n);
    var s := Sigma(A[i], x, i, n);
    var d := A[i][i];
    assert s == Dot(A[i], x, n) - d * x[i];
    assert RowValue(A, b, x, i) * d == b[i] - s;
    if RowValue(A, b, x, i) == x[i] {
      assert x[i] * d == b[i] - s;
    } else {
      assert x[i] * d != b[i] - s;
    }
  }

  /** The fixed points of the sweep are exactly the solutions of A x = b. */
  lemma FixedPointIffSolution(A: Matrix, b: Vector, x: Vector)
    requires WellFormed(A, b, x)
    ensures Next(A, b, x) == x <==> IsSolution(A, b, x)
  {
    NextEverywhere(A, b, x);
    forall i | 0 <= i < |A| {
      RowFixedIffEquation(A, b, x, i);
    }
    if IsSolution(A, b, x) {
      assert Next(A, b, x) == x;
    }
  }

  /** A sweep's error is 0 exactly when x already solves the system. */
  lemma SweepErrorZeroIffSolution(A: Matrix, b: Vector, x: Vector)
    requires WellFormed(A, b, x)
    ensures SweepError(A, b, x) == 0.0 <==> IsSolution(A, b, x)
  {
    MaxChangeZeroIffEqual(Next(A, b, x), x);
    FixedPointIffSolution(A, b, x);
  }

  /** The inner loop of the update: sigma accumulated over the columns of
      row i other than i, left to right. */
  method RowSigma(A: Matrix, x: Vector, i: nat) returns (sigma: real)
    requires Shaped(A) && |x| == |A| && i < |A|
    ensures sigma == Dot(A[i], x, |A|) - A[i][i] * x[i]
  {
    var n := |A|;
    sigma := 0.0;
    var j := 0;
    while j < n
      invariant 0 <= j <= n
      invariant sigma == Sigma(A[i], x, i, j)
    {
      if j != i {
        sigma := sigma + A[i][j] * x[j];
      }
      assert sigma == Sigma(A[i], x, i, j + 1);
      j := j + 1;
    }
    SigmaIsOffDiagonalDot(A[i], x, i, n);
  }

  /** One sweep as the sequential solver runs it: for each row, compute
      sigma, store the new value into the buffer, and fold its change into
      the running maximum. `buffer` holds whatever the previous sweep left
      there; every row of it is overwritten. */
  method JacobiSweep(A: Matrix, b: Vector, x: Vector, buffer: Vector)
    returns (xNext: Vector, error: real)
    requires WellFormed(A, b, x) && |buffer| == |A|
    ensures xNext == Next(A, b, x)
    ensures error == SweepError(A, b, x)
    ensures error >= 0.0
    ensures forall i :: 0 <= i < |A| ==> Change(xNext, x, i) <= error
    ensures error == 0.0 || exists i :: 0 <= i < |A| && error == Change(xNext, x, i)
  {
    var n := |A|;
    ghost var target := Next(A, b, x);
    xNext := buffer;
    error := 0.0;
    var i := 0;
    while i < n
      invariant 0 <= i <= n
      invariant |xNext| == n
      invariant forall r :: 0 <= r < i ==> xNext[r] == target[r]
      invariant error == MaxChange(target, x, 0, i)
    {
      var sigma := RowSigma(A, x, i);
      SigmaIsOffDiagonalDot(A[i], x, i, n);
      assert sigma == Sigma(A[i], x, i, n);
      var v := (b[i] - sigma) / A[i][i];
      NextAt(A, b, x, i);
      assert v == target[i];
      xNext := xNext[i := v];
      error := Max(error, Abs(v - x[i]));
      i := i + 1;
    }
    assert xNext == target;
  }
}
