/** Non-negative ridge regression by coordinate descent, with predictions kept up to date beside the weights. */
module AnalyticFit {
  import opened Wrappers
  import opened Ordering
  import opened Vectors

  type Matrix = seq<Vector>

  predicate Shaped(x: Matrix, m: nat) {
    forall i | 0 <= i < |x| :: |x[i]| == m
  }

  function Col(x: Matrix, m: nat, c: nat): (v: Vector)
    requires Shaped(x, m) && c < m
    ensures |v| == |x|
  {
    seq(|x|, i requires 0 <= i < |x| => x[i][c])
  }

  /** Intercept plus `X w`. */
  function Predict(b: real, x: Matrix, m: nat, w: Vector): (v: Vector)
    requires Shaped(x, m) && |w| == m
    ensures |v| == |x|
  {
    seq(|x|, i requires 0 <= i < |x| => b + Dot(x[i], w))
  }

  function Residual(t: Vector, p: Vector): (v: Vector)
    requires |t| == |p|
    ensures |v| == |t|
  {
    AddScaled(t, -1.0, p)
  }

  function Ridge(error: real, ridge: real, norm: real): real {
    error + ridge * norm
  }

  /** A squared norm after one entry changes. */
  function Replaced(norm: real, former: real, v: real): real {
    norm - former * former + v * v
  }

  /** Squared error of predictions `p`, plus the ridge. */
  function Penalised(t: Vector, p: Vector, ridge: real, w: Vector): real
    requires |t| == |p|
  {
    Ridge(Dot(Residual(t, p), Residual(t, p)), ridge, Dot(w, w))
  }

  function Objective(t: Vector, x: Matrix, m: nat, ridge: real, b: real, w: Vector): real
    requires Shaped(x, m) && |w| == m && |t| == |x|
  {
    Penalised(t, Predict(b, x, m, w), ridge, w)
  }

  predicate NonNegative(w: Vector) {
    forall k | 0 <= k < |w| :: w[k] >= 0.0
  }

  // ----- one column -----

  /** The residual without the column's own contribution. */
  function Partial(t: Vector, x: Matrix, m: nat, b: real, w: Vector, c: nat): (v: Vector)
    requires Shaped(x, m) && |w| == m && |t| == |x| && c < m
    ensures |v| == |t|
  {
    AddScaled(Residual(t, Predict(b, x, m, w)), w[c], Col(x, m, c))
  }

  lemma PredictUpdate(b: real, x: Matrix, m: nat, w: Vector, c: nat, v: real)
    requires Shaped(x, m) && |w| == m && c < m
    ensures Predict(b, x, m, w[c := v]) == AddScaled(Predict(b, x, m, w), v - w[c], Col(x, m, c))
  {
    var updated, moved := Predict(b, x, m, w[c := v]), AddScaled(Predict(b, x, m, w), v - w[c], Col(x, m, c));
    forall i | 0 <= i < |x| ensures updated[i] == moved[i] {
      DotUpdate(x[i], w, c, v);
    }
  }

  lemma ResidualUpdate(t: Vector, x: Matrix, m: nat, b: real, w: Vector, c: nat, v: real)
    requires Shaped(x, m) && |w| == m && |t| == |x| && c < m
    ensures Residual(t, Predict(b, x, m, w[c := v])) == AddScaled(Partial(t, x, m, b, w, c), -v, Col(x, m, c))
  {
    PredictUpdate(b, x, m, w, c, v);
    var residual, moved := Residual(t, Predict(b, x, m, w[c := v])), AddScaled(Partial(t, x, m, b, w, c), -v, Col(x, m, c));
    forall i | 0 <= i < |x| ensures residual[i] == moved[i] {
      OneEntry(t[i], Predict(b, x, m, w)[i], v, w[c], x[i][c]);
    }
  }

  lemma OneEntry(t: real, p: real, v: real, w: real, x: real)
    ensures t + -1.0 * (p + (v - w) * x) == t + -1.0 * p + w * x + -v * x
  {}

  lemma NormUpdate(w: Vector, c: nat, v: real)
    requires c < |w|
    ensures Dot(w[c := v], w[c := v]) == Replaced(Dot(w, w), w[c], v)
  {
    DotUpdate(w[c := v], w, c, v);
    DotCommutes(w[c := v], w);
    DotUpdate(w, w, c, v);
    Telescope(v, w[c]);
  }

  lemma Telescope(v: real, u: real)
    ensures u * (v - u) + v * (v - u) == v * v - u * u
  {}

  function Denominator(x: Matrix, m: nat, ridge: real, c: nat): real
    requires Shaped(x, m) && c < m
  {
    Dot(Col(x, m, c), Col(x, m, c)) + ridge
  }

  function Numerator(t: Vector, x: Matrix, m: nat, b: real, w: Vector, c: nat): real
    requires Shaped(x, m) && |w| == m && |t| == |x| && c < m
  {
    Dot(Col(x, m, c), Partial(t, x, m, b, w, c))
  }

  /** What the objective keeps when the column's weight varies. */
  ghost function Fixed(t: Vector, x: Matrix, m: nat, ridge: real, b: real, w: Vector, c: nat): real
    requires Shaped(x, m) && |w| == m && |t| == |x| && c < m
  {
    Ridge(Dot(Partial(t, x, m, b, w, c), Partial(t, x, m, b, w, c)), ridge, Replaced(Dot(w, w), w[c], 0.0))
  }

  /** As a function of one weight, the objective is a quadratic with the program's denominator and numerator. */
  lemma ColumnQuadratic(t: Vector, x: Matrix, m: nat, ridge: real, b: real, w: Vector, c: nat, v: real)
    requires Shaped(x, m) && |w| == m && |t| == |x| && c < m
    ensures Objective(t, x, m, ridge, b, w[c := v])
            == Fixed(t, x, m, ridge, b, w, c) + Quadratic(Denominator(x, m, ridge, c), Numerator(t, x, m, b, w, c), v)
  {
    ResidualUpdate(t, x, m, b, w, c, v);
    NormUpdate(w, c, v);
    var q, col := Partial(t, x, m, b, w, c), Col(x, m, c);
    hide Partial, Col, Residual, Predict, Dot, Expanded, Quadratic, Ridge, Replaced;
    SquareOf(q, v, col);
    Assemble(Dot(q, q), Dot(col, q), Dot(col, col), v, ridge, Dot(w, w), w[c]);
  }

  lemma Assemble(qq: real, xq: real, xx: real, v: real, ridge: real, norm: real, former: real)
    ensures Ridge(Expanded(qq, xq, xx, v), ridge, Replaced(norm, former, v))
            == Ridge(qq, ridge, Replaced(norm, former, 0.0)) + Quadratic(xx + ridge, xq, v)
  {
    var rest := norm - former * former;
    assert ridge * (rest + v * v) == ridge * rest + ridge * v * v;
    assert (xx + ridge) * v * v == v * v * xx + ridge * v * v;
  }

  /** The weight the program moves the column to. */
  function Updated(t: Vector, x: Matrix, m: nat, ridge: real, b: real, w: Vector, c: nat): real
    requires Shaped(x, m) && |w| == m && |t| == |x| && c < m
  {
    var den := Denominator(x, m, ridge, c);
    if den != 0.0 then Max(0.0, Numerator(t, x, m, b, w, c) / den) else 0.0
  }

  /** No other non-negative weight for this column gives a smaller objective, ridge or no ridge. */
  lemma ColumnMinimised(t: Vector, x: Matrix, m: nat, ridge: real, b: real, w: Vector, c: nat, v: real)
    requires Shaped(x, m) && |w| == m && |t| == |x| && c < m && ridge >= 0.0 && v >= 0.0
    ensures Updated(t, x, m, ridge, b, w, c) >= 0.0
    ensures Objective(t, x, m, ridge, b, w[c := Updated(t, x, m, ridge, b, w, c)])
            <= Objective(t, x, m, ridge, b, w[c := v])
  {
    var u, col := Updated(t, x, m, ridge, b, w, c), Col(x, m, c);
    DotSelf(col);
    ColumnQuadratic(t, x, m, ridge, b, w, c, u);
    ColumnQuadratic(t, x, m, ridge, b, w, c, v);
    if Denominator(x, m, ridge, c) == 0.0 { ZeroVector(col, Partial(t, x, m, b, w, c)); }
    var den, num := Denominator(x, m, ridge, c), Numerator(t, x, m, b, w, c);
    hide Objective, Fixed, Numerator, Denominator, Partial, Col;
    if den > 0.0 { LeastAt(den, num, v); }
  }

  /** Where the column has a positive denominator, every other non-negative weight gives a larger objective. */
  lemma ColumnMinimisedStrictly(t: Vector, x: Matrix, m: nat, ridge: real, b: real, w: Vector, c: nat, v: real)
    requires Shaped(x, m) && |w| == m && |t| == |x| && c < m && v >= 0.0
    requires Denominator(x, m, ridge, c) > 0.0 && v != Updated(t, x, m, ridge, b, w, c)
    ensures Objective(t, x, m, ridge, b, w[c := Updated(t, x, m, ridge, b, w, c)])
            < Objective(t, x, m, ridge, b, w[c := v])
  {
    ColumnQuadratic(t, x, m, ridge, b, w, c, Updated(t, x, m, ridge, b, w, c));
    ColumnQuadratic(t, x, m, ridge, b, w, c, v);
    var den, num := Denominator(x, m, ridge, c), Numerator(t, x, m, b, w, c);
    hide Objective, Fixed, Numerator, Denominator, Quadratic;
    LessElsewhere(den, num, v);
  }

  // ----- the intercept -----

  /** The targets without the weighted columns. */
  function Detrended(t: Vector, p: Vector, b: real): (v: Vector)
    requires |t| == |p|
    ensures |v| == |t|
  {
    seq(|t|, i requires 0 <= i < |t| => t[i] - (p[i] - b))
  }

  function Mean(s: Vector): real
    requires |s| > 0
  {
    Dot(Ones(|s|), s) / (|s| as real)
  }

  lemma {:induction false} OnesSquare(n: nat)
    ensures Dot(Ones(n), Ones(n)) == n as real
  {
    if n > 0 {
      assert Ones(n)[..n - 1] == Ones(n - 1);
      OnesSquare(n - 1);
    }
  }

  lemma InterceptQuadratic(t: Vector, x: Matrix, m: nat, ridge: real, b: real, w: Vector, v: real)
    requires Shaped(x, m) && |w| == m && |t| == |x|
    ensures var s := Detrended(t, Predict(b, x, m, w), b);
            Objective(t, x, m, ridge, v, w)
            == Ridge(Dot(s, s), ridge, Dot(w, w)) + Quadratic(|t| as real, Dot(Ones(|t|), s), v)
  {
    var s, ones := Detrended(t, Predict(b, x, m, w), b), Ones(|t|);
    var residual, moved := Residual(t, Predict(v, x, m, w)), AddScaled(s, -v, ones);
    assert forall i | 0 <= i < |t| :: residual[i] == moved[i];
    assert residual == moved;
    hide Dot, Ones, Predict, Detrended, AddScaled, Residual, Expanded, Quadratic, Ridge;
    SquareOf(s, v, ones);
    OnesSquare(|t|);
    Separate(Dot(s, s), Dot(ones, s), |t| as real, v, ridge, Dot(w, w));
  }

  lemma Separate(ss: real, os: real, n: real, v: real, ridge: real, norm: real)
    ensures Ridge(Expanded(ss, os, n, v), ridge, norm) == Ridge(ss, ridge, norm) + Quadratic(n, os, v)
  {
    assert n * v * v == v * v * n;
  }

  /** Every other non-negative intercept gives a larger objective. */
  lemma InterceptMinimisedStrictly(t: Vector, x: Matrix, m: nat, ridge: real, b: real, w: Vector, v: real)
    requires Shaped(x, m) && |w| == m && |t| == |x| && |t| > 0 && v >= 0.0
    requires v != Max(0.0, Mean(Detrended(t, Predict(b, x, m, w), b)))
    ensures Objective(t, x, m, ridge, Max(0.0, Mean(Detrended(t, Predict(b, x, m, w), b))), w)
            < Objective(t, x, m, ridge, v, w)
  {
    var s := Detrended(t, Predict(b, x, m, w), b);
    InterceptQuadratic(t, x, m, ridge, b, w, v);
    InterceptQuadratic(t, x, m, ridge, b, w, Max(0.0, Mean(s)));
    LessElsewhere(|t| as real, Dot(Ones(|t|), s), v);
  }

  /** No other non-negative intercept gives a smaller objective. */
  lemma InterceptMinimised(t: Vector, x: Matrix, m: nat, ridge: real, b: real, w: Vector, v: real)
    requires Shaped(x, m) && |w| == m && |t| == |x| && |t| > 0 && v >= 0.0
    ensures Objective(t, x, m, ridge, Max(0.0, Mean(Detrended(t, Predict(b, x, m, w), b))), w)
            <= Objective(t, x, m, ridge, v, w)
  {
    var s := Detrended(t, Predict(b, x, m, w), b);
    InterceptQuadratic(t, x, m, ridge, b, w, v);
    InterceptQuadratic(t, x, m, ridge, b, w, Max(0.0, Mean(s)));
    LeastAt(|t| as real, Dot(Ones(|t|), s), v);
  }
}
