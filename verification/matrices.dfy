/** Dense real matrices with the numpy operations the variance estimate uses
    (`@`, `.T`, multiplication by a scalar, `np.trace`) and the identity
    trace(L @ (c * X @ X.T) @ L.T) == c * sum of the squared entries of L @ X. */
module Matrices {
  import opened Sums

  /** A rows x cols array, given by its entry function; only the entries with
      0 <= i < rows and 0 <= j < cols take part in any operation. */
  datatype Matrix = Matrix(rows: nat, cols: nat, entry: (int, int) -> real)

  function At(m: Matrix, i: int, j: int): real
  {
    m.entry(i, j)
  }

  /** a @ b (the inner dimension is a.cols). */
  function Mul(a: Matrix, b: Matrix): (m: Matrix)
    ensures m.rows == a.rows && m.cols == b.cols
  {
    Matrix(a.rows, b.cols, (i, j) => Sum(a.cols, k => At(a, i, k) * At(b, k, j)))
  }

  /** a.T */
  function Transpose(a: Matrix): (m: Matrix)
    ensures m.rows == a.cols && m.cols == a.rows
  {
    Matrix(a.cols, a.rows, (i, j) => At(a, j, i))
  }

  /** c * a */
  function ScaleBy(c: real, a: Matrix): (m: Matrix)
    ensures m.rows == a.rows && m.cols == a.cols
  {
    Matrix(a.rows, a.cols, (i, j) => c * At(a, i, j))
  }

  /** np.trace: the sum of the main diagonal. */
  function Trace(a: Matrix): real
  {
    Sum(if a.rows <= a.cols then a.rows else a.cols, i => At(a, i, i))
  }

  /** (c * X @ X.T)[v, w] == c * sum_t X[v, t] * X[w, t]. */
  lemma {:induction false} CovarianceAt(x: Matrix, c: real, v: int, w: int)
    ensures At(ScaleBy(c, Mul(x, Transpose(x))), v, w) == c * Sum(x.cols, t => At(x, v, t) * At(x, w, t))
  {
    SumExt(x.cols, t => At(x, v, t) * At(Transpose(x), t, w), t => At(x, v, t) * At(x, w, t));
  }

  lemma LeftCovarianceTerms(l: Matrix, x: Matrix, c: real, s: int, w: int)
    ensures forall v :: 0 <= v < l.cols ==>
      At(l, s, v) * At(ScaleBy(c, Mul(x, Transpose(x))), v, w)
        == c * (At(l, s, v) * Sum(x.cols, t => At(x, v, t) * At(x, w, t)))
  {
    forall v | 0 <= v < l.cols
      ensures At(l, s, v) * At(ScaleBy(c, Mul(x, Transpose(x))), v, w)
           == c * (At(l, s, v) * Sum(x.cols, t => At(x, v, t) * At(x, w, t)))
    {
      CovarianceAt(x, c, v, w);
    }
  }

  lemma {:induction false} LeftCovarianceScaled(l: Matrix, x: Matrix, c: real, s: int, w: int)
    ensures At(Mul(l, ScaleBy(c, Mul(x, Transpose(x)))), s, w)
         == c * Sum(l.cols, v => At(l, s, v) * Sum(x.cols, t => At(x, v, t) * At(x, w, t)))
  {
    var cov := ScaleBy(c, Mul(x, Transpose(x)));
    LeftCovarianceTerms(l, x, c, s, w);
    SumScale(l.cols, c, v => At(l, s, v) * Sum(x.cols, t => At(x, v, t) * At(x, w, t)), v => At(l, s, v) * At(cov, v, w));
  }

  /** One column term of `Exchange`, split at the last summand of its inner sum. */
  lemma {:induction false} ExchangeColumn(n: nat, a: Matrix, p: int, b: Matrix, c: Matrix, q: int, j: int)
    requires n > 0
    ensures At(c, q, j) * Sum(n, i => At(a, p, i) * At(b, i, j))
         == At(c, q, j) * Sum(n - 1, i => At(a, p, i) * At(b, i, j)) + At(a, p, n - 1) * (At(b, n - 1, j) * At(c, q, j))
  {
  }

  lemma {:induction false} ExchangeAdd(n: nat, m: nat, a: Matrix, p: int, b: Matrix, c: Matrix, q: int)
    requires n > 0
    ensures Sum(m, j => At(c, q, j) * Sum(n, i => At(a, p, i) * At(b, i, j)))
         == Sum(m, j => At(c, q, j) * Sum(n - 1, i => At(a, p, i) * At(b, i, j)))
          + Sum(m, j => At(a, p, n - 1) * (At(b, n - 1, j) * At(c, q, j)))
  {
    forall j | 0 <= j < m
      ensures At(c, q, j) * Sum(n, i => At(a, p, i) * At(b, i, j))
           == At(c, q, j) * Sum(n - 1, i => At(a, p, i) * At(b, i, j)) + At(a, p, n - 1) * (At(b, n - 1, j) * At(c, q, j))
    {
      ExchangeColumn(n, a, p, b, c, q, j);
    }
    SumAdd(m, j => At(c, q, j) * Sum(n - 1, i => At(a, p, i) * At(b, i, j)),
      j => At(a, p, n - 1) * (At(b, n - 1, j) * At(c, q, j)),
      j => At(c, q, j) * Sum(n, i => At(a, p, i) * At(b, i, j)));
  }

  /** The outer sum of `Exchange` split at its last summand. */
  lemma ExchangeUnfold(n: nat, m: nat, a: Matrix, p: int, b: Matrix, c: Matrix, q: int)
    requires n > 0
    ensures Sum(n, i => At(a, p, i) * Sum(m, j => At(b, i, j) * At(c, q, j)))
         == Sum(n - 1, i => At(a, p, i) * Sum(m, j => At(b, i, j) * At(c, q, j)))
          + At(a, p, n - 1) * Sum(m, j => At(b, n - 1, j) * At(c, q, j))
  {
  }

  /** The factor A[p, n - 1] moved out of the last summand's sum. */
  lemma ExchangeLast(n: nat, m: nat, a: Matrix, p: int, b: Matrix, c: Matrix, q: int)
    requires n > 0
    ensures Sum(m, j => At(a, p, n - 1) * (At(b, n - 1, j) * At(c, q, j)))
         == At(a, p, n - 1) * Sum(m, j => At(b, n - 1, j) * At(c, q, j))
  {
    SumScale(m, At(a, p, n - 1), j => At(b, n - 1, j) * At(c, q, j), j => At(a, p, n - 1) * (At(b, n - 1, j) * At(c, q, j)));
  }

  /** sum_i A[p, i] * sum_j B[i, j] * C[q, j] == sum_j C[q, j] * sum_i A[p, i] * B[i, j]:
      the exchange of summation order behind the associativity of `@`. */
  lemma {:induction false} Exchange(n: nat, m: nat, a: Matrix, p: int, b: Matrix, c: Matrix, q: int)
    ensures Sum(n, i => At(a, p, i) * Sum(m, j => At(b, i, j) * At(c, q, j)))
         == Sum(m, j => At(c, q, j) * Sum(n, i => At(a, p, i) * At(b, i, j)))
  {
    if n == 0 {
      SumZero(m, j => At(c, q, j) * Sum(n, i => At(a, p, i) * At(b, i, j)));
    } else {
      Exchange(n - 1, m, a, p, b, c, q);
      ExchangeAdd(n, m, a, p, b, c, q);
      ExchangeLast(n, m, a, p, b, c, q);
      ExchangeUnfold(n, m, a, p, b, c, q);
    }
  }

  /** The right-hand side of `Exchange` with the inner sum read as an entry of L @ X. */
  lemma {:induction false} ExchangeProjection(l: Matrix, x: Matrix, s: int, y: Matrix, r: int)
    ensures Sum(x.cols, t => At(y, r, t) * Sum(l.cols, i => At(l, s, i) * At(x, i, t)))
         == Sum(x.cols, t => At(y, r, t) * At(Mul(l, x), s, t))
  {
    SumExt(x.cols, t => At(y, r, t) * Sum(l.cols, i => At(l, s, i) * At(x, i, t)),
      t => At(y, r, t) * At(Mul(l, x), s, t));
  }

  /** (L @ (c * X @ X.T))[s, w] == c * sum_t X[w, t] * (L @ X)[s, t]. */
  lemma {:induction false} LeftCovarianceEntry(l: Matrix, x: Matrix, c: real, s: int, w: int)
    ensures At(Mul(l, ScaleBy(c, Mul(x, Transpose(x)))), s, w)
         == c * Sum(x.cols, t => At(x, w, t) * At(Mul(l, x), s, t))
  {
    LeftCovarianceScaled(l, x, c, s, w);
    Exchange(l.cols, x.cols, l, s, x, x, w);
    ExchangeProjection(l, x, s, x, w);
  }

  lemma {:induction false} DiagonalTerm(l: Matrix, x: Matrix, c: real, s: int, w: int)
    ensures At(Mul(l, ScaleBy(c, Mul(x, Transpose(x)))), s, w) * At(Transpose(l), w, s)
         == c * (At(l, s, w) * Sum(x.cols, t => At(x, w, t) * At(Mul(l, x), s, t)))
  {
    LeftCovarianceEntry(l, x, c, s, w);
  }

  lemma {:induction false} DiagonalTerms(l: Matrix, x: Matrix, c: real, s: int)
    ensures forall w :: 0 <= w < l.cols ==>
      At(Mul(l, ScaleBy(c, Mul(x, Transpose(x)))), s, w) * At(Transpose(l), w, s)
        == c * (At(l, s, w) * Sum(x.cols, t => At(x, w, t) * At(Mul(l, x), s, t)))
  {
    forall w | 0 <= w < l.cols
      ensures At(Mul(l, ScaleBy(c, Mul(x, Transpose(x)))), s, w) * At(Transpose(l), w, s)
           == c * (At(l, s, w) * Sum(x.cols, t => At(x, w, t) * At(Mul(l, x), s, t)))
    {
      DiagonalTerm(l, x, c, s, w);
    }
  }

  lemma {:induction false} DiagonalScaled(l: Matrix, x: Matrix, c: real, s: int)
    requires l.cols == x.rows
    ensures At(Mul(Mul(l, ScaleBy(c, Mul(x, Transpose(x)))), Transpose(l)), s, s)
         == c * Sum(l.cols, w => At(l, s, w) * Sum(x.cols, t => At(x, w, t) * At(Mul(l, x), s, t)))
  {
    DiagonalTerms(l, x, c, s);
    SumScale(l.cols, c, w => At(l, s, w) * Sum(x.cols, t => At(x, w, t) * At(Mul(l, x), s, t)),
      w => At(Mul(l, ScaleBy(c, Mul(x, Transpose(x)))), s, w) * At(Transpose(l), w, s));
  }

  /** The squared entries of row s of L @ X, one per column. */
  function SquaredProjections(l: Matrix, x: Matrix, s: int): int -> real
  {
    t => Square(At(Mul(l, x), s, t))
  }

  /** Row s of L @ X mapped to the sum of its squared entries. */
  function SensorEnergies(l: Matrix, x: Matrix): int -> real
  {
    s => Sum(x.cols, SquaredProjections(l, x, s))
  }

  lemma {:induction false} DiagonalSwap(l: Matrix, x: Matrix, s: int)
    ensures Sum(l.cols, w => At(l, s, w) * Sum(x.cols, t => At(x, w, t) * At(Mul(l, x), s, t)))
         == Sum(x.cols, SquaredProjections(l, x, s))
  {
    var p := Mul(l, x);
    Exchange(l.cols, x.cols, l, s, x, p, s);
    ExchangeProjection(l, x, s, p, s);
    SumExt(x.cols, t => At(p, s, t) * At(p, s, t), SquaredProjections(l, x, s));
  }

  /** (L @ C @ L.T)[s, s] with C == c * X @ X.T is c times the energy sensor s records. */
  lemma {:induction false} QuadraticDiagonal(l: Matrix, x: Matrix, c: real, s: int)
    requires l.cols == x.rows
    ensures At(Mul(Mul(l, ScaleBy(c, Mul(x, Transpose(x)))), Transpose(l)), s, s)
         == c * Sum(x.cols, SquaredProjections(l, x, s))
  {
    DiagonalScaled(l, x, c, s);
    ScaledSwap(l, x, c, s);
  }

  lemma ScaledSwap(l: Matrix, x: Matrix, c: real, s: int)
    ensures c * Sum(l.cols, w => At(l, s, w) * Sum(x.cols, t => At(x, w, t) * At(Mul(l, x), s, t)))
         == c * Sum(x.cols, SquaredProjections(l, x, s))
  {
    DiagonalSwap(l, x, s);
    ScaleBoth(c, Sum(l.cols, w => At(l, s, w) * Sum(x.cols, t => At(x, w, t) * At(Mul(l, x), s, t))),
              Sum(x.cols, SquaredProjections(l, x, s)));
  }

  lemma {:induction false} QuadraticDiagonals(l: Matrix, x: Matrix, c: real)
    requires l.cols == x.rows
    ensures forall s :: 0 <= s < l.rows ==>
      At(Mul(Mul(l, ScaleBy(c, Mul(x, Transpose(x)))), Transpose(l)), s, s)
        == c * Sum(x.cols, SquaredProjections(l, x, s))
  {
    forall s | 0 <= s < l.rows
      ensures At(Mul(Mul(l, ScaleBy(c, Mul(x, Transpose(x)))), Transpose(l)), s, s)
           == c * Sum(x.cols, SquaredProjections(l, x, s))
    {
      QuadraticDiagonal(l, x, c, s);
    }
  }

  /** A square matrix whose diagonal is c times the sensor energies has c times
      their sum as its trace. */
  lemma TraceFromDiagonal(l: Matrix, x: Matrix, c: real, m: Matrix)
    requires m.rows == l.rows && m.cols == l.rows
    requires forall s :: 0 <= s < l.rows ==> At(m, s, s) == c * Sum(x.cols, SquaredProjections(l, x, s))
    ensures Trace(m) == c * Sum(l.rows, SensorEnergies(l, x))
  {
    SumScale(l.rows, c, SensorEnergies(l, x), i => At(m, i, i));
  }

  /** trace(L @ (c * X @ X.T) @ L.T) == c * sum_s sum_t (L @ X)[s, t]^2. */
  lemma {:induction false} TraceOfQuadraticForm(l: Matrix, x: Matrix, c: real)
    requires l.cols == x.rows
    ensures Trace(Mul(Mul(l, ScaleBy(c, Mul(x, Transpose(x)))), Transpose(l)))
         == c * Sum(l.rows, SensorEnergies(l, x))
  {
    var m := Mul(Mul(l, ScaleBy(c, Mul(x, Transpose(x)))), Transpose(l));
    QuadraticDiagonals(l, x, c);
    TraceFromDiagonal(l, x, c, m);
  }
}
