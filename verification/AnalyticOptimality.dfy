/** Where coordinate descent stops moving, it has found the least objective of all. */
module AnalyticOptimality {
  import opened Vectors
  import opened AnalyticFit

  /** The intercept and every weight are where the program's own updates would put them. */
  ghost predicate Stationary(t: Vector, x: Matrix, m: nat, ridge: real, b: real, w: Vector)
    requires Shaped(x, m) && |w| == m && |t| == |x| && |t| > 0
  {
    && b == Max(0.0, Mean(Detrended(t, Predict(b, x, m, w), b)))
    && forall c | 0 <= c < m :: w[c] == Updated(t, x, m, ridge, b, w, c)
  }

  /** `X^T r`. */
  ghost function Gradient(x: Matrix, m: nat, r: Vector): (v: Vector)
    requires Shaped(x, m) && |r| == |x|
    ensures |v| == m
  {
    seq(m, c requires 0 <= c < m => Dot(Col(x, m, c), r))
  }

  /** `X d`. */
  ghost function Apply(x: Matrix, m: nat, d: Vector): (v: Vector)
    requires Shaped(x, m) && |d| == m
    ensures |v| == |x|
  {
    seq(|x|, i requires 0 <= i < |x| => Dot(x[i], d))
  }

  lemma Swapped(x: real, y: real)
    ensures Times(x, y) == Times(y, x)
  {}

  lemma GradientLast(x: Matrix, m: nat, r: Vector)
    requires Shaped(x, m) && |r| == |x| && x != []
    ensures var n := |x| - 1; Gradient(x, m, r) == AddScaled(Gradient(x[..n], m, r[..n]), r[n], x[n])
  {
    var n := |x| - 1;
    var g, h := Gradient(x, m, r), AddScaled(Gradient(x[..n], m, r[..n]), r[n], x[n]);
    forall c | 0 <= c < m ensures g[c] == h[c] {
      assert Col(x, m, c)[..n] == Col(x[..n], m, c);
      Swapped(x[n][c], r[n]);
    }
  }

  lemma ApplyLast(x: Matrix, m: nat, r: Vector, d: Vector)
    requires Shaped(x, m) && |r| == |x| && |d| == m && x != []
    ensures var n := |x| - 1;
            Dot(Apply(x, m, d), r) == Dot(Apply(x[..n], m, d), r[..n]) + Times(Dot(x[n], d), r[n])
  {
    var n := |x| - 1;
    assert Apply(x, m, d)[..n] == Apply(x[..n], m, d);
    hide Times;
  }

  /** Summing by rows or by columns. */
  lemma {:induction false} Transposed(x: Matrix, m: nat, r: Vector, d: Vector)
    requires Shaped(x, m) && |r| == |x| && |d| == m
    ensures Dot(Apply(x, m, d), r) == Dot(Gradient(x, m, r), d)
  {
    if x == [] {
      ZeroGradient(m, d);
      assert Gradient(x, m, r) == seq(m, c => 0.0);
    } else {
      var n := |x| - 1;
      var front := Gradient(x[..n], m, r[..n]);
      assert |front| == m && |x[n]| == m;
      GradientLast(x, m, r);
      ApplyLast(x, m, r, d);
      DotLinear(front, r[n], x[n], d);
      Swapped(Dot(x[n], d), r[n]);
      hide Dot, Apply, Gradient, AddScaled, Times;
      Transposed(x[..n], m, r[..n], d);
    }
  }

  lemma {:induction false} ZeroGradient(m: nat, d: Vector)
    requires |d| == m
    ensures Dot(seq(m, c => 0.0), d) == 0.0
  {
    if m > 0 {
      assert seq(m, c => 0.0)[..m - 1] == seq(m - 1, c => 0.0);
      ZeroGradient(m - 1, d[..m - 1]);
      Annihilates(0.0, d[m - 1]);
    }
  }

  lemma {:induction false} DotNonPositive(a: Vector, b: Vector)
    requires |a| == |b| && forall i | 0 <= i < |a| :: Times(a[i], b[i]) <= 0.0
    ensures Dot(a, b) <= 0.0
  {
    if a != [] {
      hide Times;
      var n := |a| - 1;
      assert forall i | 0 <= i < n :: a[..n][i] == a[i] && b[..n][i] == b[i];
      DotNonPositive(a[..n], b[..n]);
    }
  }

  lemma Opposite(x: real, y: real)
    requires (x >= 0.0 && y <= 0.0) || y == 0.0
    ensures Times(x, y) <= 0.0
  {}

  // ----- the slopes at a stationary point -----

  lemma InterceptSlope(t: Vector, x: Matrix, m: nat, ridge: real, b: real, w: Vector, b': real)
    requires Shaped(x, m) && |w| == m && |t| == |x| && |t| > 0 && Stationary(t, x, m, ridge, b, w) && b' >= 0.0
    ensures Times(b' - b, Dot(Ones(|t|), Residual(t, Predict(b, x, m, w)))) <= 0.0
  {
    var r, ones := Residual(t, Predict(b, x, m, w)), Ones(|t|);
    var s := Detrended(t, Predict(b, x, m, w), b);
    var shifted := AddScaled(r, b, ones);
    assert forall i | 0 <= i < |t| :: s[i] == shifted[i];
    assert s == shifted;
    var n, total, sum, step := |t| as real, Dot(ones, s), Dot(ones, r), b' - b;
    assert b == Max(0.0, total / n);
    hide Dot, Ones, Residual, Predict, Detrended, AddScaled, Stationary, Max, Times, Shaped;
    DotLinear(r, b, ones, ones);
    OnesSquare(|t|);
    DotCommutes(ones, s);
    DotCommutes(ones, r);
    assert total == sum + Times(b, n);
    InterceptSign(b, total, n, sum, step);
  }

  lemma InterceptSign(b: real, total: real, n: real, sum: real, step: real)
    requires n > 0.0 && b == Max(0.0, total / n) && total == sum + Times(b, n) && b + step >= 0.0
    ensures Times(step, sum) <= 0.0
  {
    SlopeSign(b, total, n, sum);
    Opposite(step, sum);
  }

  /** At the constrained minimum of a quadratic the slope is zero, or the value is zero and the slope points out. */
  lemma SlopeSign(u: real, num: real, den: real, slope: real)
    requires den > 0.0 && u == Max(0.0, num / den) && num == slope + u * den
    ensures slope == 0.0 || (u == 0.0 && slope <= 0.0)
  {
    var q := num / den;
    assert num == q * den;
    if q < 0.0 { assert num < 0.0 by { Negative(den, q); assert den * q == q * den; } }
  }

  lemma ColumnSlope(t: Vector, x: Matrix, m: nat, ridge: real, b: real, w: Vector, c: nat)
    requires Shaped(x, m) && |w| == m && |t| == |x| && |t| > 0 && c < m && ridge >= 0.0
    requires w[c] == Updated(t, x, m, ridge, b, w, c)
    ensures var slope := Dot(Col(x, m, c), Residual(t, Predict(b, x, m, w))) - ridge * w[c];
            slope == 0.0 || (w[c] == 0.0 && slope <= 0.0)
  {
    var r, col := Residual(t, Predict(b, x, m, w)), Col(x, m, c);
    DotSelf(col);
    DotCommutes(col, Partial(t, x, m, b, w, c));
    DotLinear(r, w[c], col, col);
    DotCommutes(r, col);
    var den, num, g, cc := Denominator(x, m, ridge, c), Numerator(t, x, m, b, w, c), Dot(col, r), Dot(col, col);
    var u := w[c];
    if den == 0.0 { ZeroVector(col, r); }
    hide Dot, Residual, Predict, Times, Col;
    assert num == g + Times(u, cc);
    hide Partial, Numerator;
    assert den == cc + ridge && (den != 0.0 ==> u == Max(0.0, num / den)) && (den == 0.0 ==> u == 0.0);
    hide Denominator, Updated, AddScaled, Max;
    ColumnSign(g, u, cc, ridge, num, den);
  }

  lemma ColumnSign(g: real, u: real, cc: real, ridge: real, num: real, den: real)
    requires num == g + Times(u, cc) && den == cc + ridge && cc >= 0.0 && ridge >= 0.0
    requires if den != 0.0 then u == Max(0.0, num / den) else u == 0.0 && g == 0.0
    ensures g - ridge * u == 0.0 || (u == 0.0 && g - ridge * u <= 0.0)
  {
    if den > 0.0 {
      Regroup(g, u, cc, ridge);
      SlopeSign(u, num, den, g - ridge * u);
    }
  }

  lemma Regroup(g: real, u: real, cc: real, ridge: real)
    ensures g + Times(u, cc) == g - ridge * u + u * (cc + ridge)
  {}

  // ----- the optimum -----

  ghost function Difference(a: Vector, b: Vector): (v: Vector)
    requires |a| == |b|
    ensures |v| == |a|
  {
    AddScaled(a, -1.0, b)
  }

  lemma WeightsDescendNot(t: Vector, x: Matrix, m: nat, ridge: real, b: real, w: Vector, w': Vector)
    requires Shaped(x, m) && |w| == m == |w'| && |t| == |x| && |t| > 0 && ridge >= 0.0
    requires Stationary(t, x, m, ridge, b, w) && NonNegative(w')
    ensures var r, d := Residual(t, Predict(b, x, m, w)), Difference(w', w);
            Dot(Gradient(x, m, r), d) - Times(ridge, Dot(w, d)) <= 0.0
  {
    var r, d := Residual(t, Predict(b, x, m, w)), Difference(w', w);
    var g := Gradient(x, m, r);
    hide Times, Predict, Residual, Gradient, Stationary, Dot, Difference, Col, Ones;
    forall c | 0 <= c < m ensures Times(AddScaled(g, -ridge, w)[c], d[c]) <= 0.0 {
      SlopeAgainst(t, x, m, ridge, b, w, w', c);
    }
    SlopesAgainst(g, ridge, w, d);
  }

  lemma SlopesAgainst(g: Vector, ridge: real, w: Vector, d: Vector)
    requires |g| == |w| == |d| && forall c | 0 <= c < |d| :: Times(AddScaled(g, -ridge, w)[c], d[c]) <= 0.0
    ensures Dot(g, d) - Times(ridge, Dot(w, d)) <= 0.0
  {
    hide Times, Dot, AddScaled;
    DotNonPositive(AddScaled(g, -ridge, w), d);
    DotLinear(g, -ridge, w, d);
    Negated(ridge, Dot(w, d));
  }

  lemma Negated(k: real, x: real)
    ensures Times(-k, x) == -Times(k, x)
  {}

  lemma SlopeAgainst(t: Vector, x: Matrix, m: nat, ridge: real, b: real, w: Vector, w': Vector, c: nat)
    requires Shaped(x, m) && |w| == m == |w'| && |t| == |x| && |t| > 0 && ridge >= 0.0 && c < m
    requires Stationary(t, x, m, ridge, b, w) && NonNegative(w')
    ensures var r, d := Residual(t, Predict(b, x, m, w)), Difference(w', w);
            Times(AddScaled(Gradient(x, m, r), -ridge, w)[c], d[c]) <= 0.0
  {
    ColumnSlope(t, x, m, ridge, b, w, c);
    var r, d := Residual(t, Predict(b, x, m, w)), Difference(w', w);
    var slope := AddScaled(Gradient(x, m, r), -ridge, w)[c];
    assert slope == Dot(Col(x, m, c), r) + Times(-ridge, w[c]) && d[c] == w'[c] + Times(-1.0, w[c]);
    hide Predict, Residual, Col, Dot, Stationary, Gradient, AddScaled, Difference;
    assert Times(-ridge, w[c]) == -(ridge * w[c]) && Times(-1.0, w[c]) == -w[c];
    hide Times;
    OppositeSlope(d[c], slope, w[c], w'[c]);
  }

  lemma OppositeSlope(d: real, slope: real, w: real, w': real)
    requires d == w' - w && w' >= 0.0 && (slope == 0.0 || (w == 0.0 && slope <= 0.0))
    ensures Times(slope, d) <= 0.0
  {
    Opposite(d, slope);
  }

  /** The direction times the slopes is never positive. */
  lemma DirectionDescendsNot(t: Vector, x: Matrix, m: nat, ridge: real, b: real, w: Vector, b': real, w': Vector)
    requires Shaped(x, m) && |w| == m == |w'| && |t| == |x| && |t| > 0 && ridge >= 0.0
    requires Stationary(t, x, m, ridge, b, w) && b' >= 0.0 && NonNegative(w')
    ensures var r, d := Residual(t, Predict(b, x, m, w)), Difference(w', w);
            Times(b' - b, Dot(Ones(|t|), r)) + Dot(Gradient(x, m, r), d) - Times(ridge, Dot(w, d)) <= 0.0
  {
    InterceptSlope(t, x, m, ridge, b, w, b');
    WeightsDescendNot(t, x, m, ridge, b, w, w');
    hide Times, Dot, Stationary;
  }

  lemma PredictionMoves(b: real, x: Matrix, m: nat, w: Vector, b': real, w': Vector)
    requires Shaped(x, m) && |w| == m == |w'|
    ensures Difference(Predict(b', x, m, w'), Predict(b, x, m, w))
            == AddScaled(Apply(x, m, Difference(w', w)), b' - b, Ones(|x|))
  {
    var d := Difference(w', w);
    var moved, split := Difference(Predict(b', x, m, w'), Predict(b, x, m, w)), AddScaled(Apply(x, m, d), b' - b, Ones(|x|));
    forall i | 0 <= i < |x| ensures moved[i] == split[i] {
      DotCommutes(x[i], d);
      DotLinear(w', -1.0, w, x[i]);
      DotCommutes(x[i], w);
      DotCommutes(x[i], w');
    }
  }

  /** The error after a move, from the error before. */
  lemma ErrorAfter(t: Vector, p: Vector, p': Vector)
    requires |t| == |p| == |p'|
    ensures var r, d := Residual(t, p), Difference(p', p);
            Dot(Residual(t, p'), Residual(t, p')) >= Dot(r, r) - 2.0 * Dot(d, r)
  {
    var r, d := Residual(t, p), Difference(p', p);
    var after, moved := Residual(t, p'), AddScaled(r, -1.0, d);
    assert forall i | 0 <= i < |t| :: after[i] == moved[i];
    assert after == moved;
    SquareOf(r, 1.0, d);
    DotSelf(d);
    hide Dot, Residual, Difference;
  }

  lemma NormAfter(w: Vector, w': Vector)
    requires |w| == |w'|
    ensures Dot(w', w') >= Dot(w, w) + 2.0 * Dot(w, Difference(w', w))
  {
    var d := Difference(w', w);
    var moved := AddScaled(w, 1.0, d);
    assert forall k | 0 <= k < |w| :: w'[k] == moved[k];
    assert w' == moved;
    SquareOf(w, -1.0, d);
    DotSelf(d);
    DotCommutes(d, w);
    hide Dot, Difference;
  }

  lemma MoveAlong(t: Vector, x: Matrix, m: nat, ridge: real, b: real, w: Vector, b': real, w': Vector)
    requires Shaped(x, m) && |w| == m == |w'| && |t| == |x| && |t| > 0 && ridge >= 0.0
    requires Stationary(t, x, m, ridge, b, w) && b' >= 0.0 && NonNegative(w')
    ensures var p, p' := Predict(b, x, m, w), Predict(b', x, m, w');
            Dot(Difference(p', p), Residual(t, p)) - Times(ridge, Dot(w, Difference(w', w))) <= 0.0
  {
    var p, p' := Predict(b, x, m, w), Predict(b', x, m, w');
    var r, d, ones := Residual(t, p), Difference(w', w), Ones(|x|);
    var applied, move, slopes, step := Apply(x, m, d), Difference(p', p), Gradient(x, m, r), b' - b;
    hide Predict, Residual, Difference, Gradient, Apply, Ones, AddScaled, Stationary, Dot, Times, Shaped, NonNegative;
    PredictionMoves(b, x, m, w, b', w');
    assert move == AddScaled(applied, step, ones);
    DotLinear(applied, step, ones, r);
    Transposed(x, m, r, d);
    assert Dot(move, r) == Dot(slopes, d) + Times(step, Dot(ones, r));
    DirectionDescendsNot(t, x, m, ridge, b, w, b', w');
  }

  lemma ObjectiveParts(t: Vector, x: Matrix, m: nat, ridge: real, b: real, w: Vector)
    requires Shaped(x, m) && |w| == m && |t| == |x|
    ensures |Predict(b, x, m, w)| == |t| && |Residual(t, Predict(b, x, m, w))| == |t|
    ensures var r := Residual(t, Predict(b, x, m, w)); Objective(t, x, m, ridge, b, w) == Ridge(Dot(r, r), ridge, Dot(w, w))
  {}

  /** A point no update would change has the least penalised error of all non-negative intercepts and weights: the
      rule that stops when a sweep changes nothing stops at the optimum. */
  lemma StationaryIsOptimal(t: Vector, x: Matrix, m: nat, ridge: real, b: real, w: Vector, b': real, w': Vector)
    requires Shaped(x, m) && |w| == m == |w'| && |t| == |x| && |t| > 0 && ridge >= 0.0
    requires Stationary(t, x, m, ridge, b, w) && b' >= 0.0 && NonNegative(w')
    ensures Objective(t, x, m, ridge, b, w) <= Objective(t, x, m, ridge, b', w')
  {
    ObjectiveParts(t, x, m, ridge, b, w);
    ObjectiveParts(t, x, m, ridge, b', w');
    MoveAlong(t, x, m, ridge, b, w, b', w');
    var p, p' := Predict(b, x, m, w), Predict(b', x, m, w');
    var r, r', d, move := Residual(t, p), Residual(t, p'), Difference(w', w), Difference(p', p);
    hide Dot, Predict, Residual, Difference, Objective, Stationary, Ridge;
    ErrorAfter(t, p, p');
    NormAfter(w, w');
    Compare(Dot(r, r), Dot(r', r'), Dot(w, w), Dot(w', w'), Dot(w, d), Dot(move, r), ridge);
  }

  lemma Compare(e: real, e': real, n: real, n': real, s: real, slope: real, ridge: real)
    requires ridge >= 0.0 && e' >= e - 2.0 * slope && n' >= n + 2.0 * s && slope - Times(ridge, s) <= 0.0
    ensures Ridge(e, ridge, n) <= Ridge(e', ridge, n')
  {
    var gain := n' - n - 2.0 * s;
    assert ridge * gain >= 0.0;
    assert ridge * n' == ridge * n + 2.0 * (ridge * s) + ridge * gain;
  }
}
