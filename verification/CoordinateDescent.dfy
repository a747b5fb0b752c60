/** The fitting loop, from observations to coefficients in their own units. */
module CoordinateDescent {
  import opened Wrappers
  import opened Ordering
  import opened Vectors
  import opened AnalyticFit
  import opened AnalyticOptimality

  datatype Observation = Observation(features: map<string, real>, latency: real)

  datatype FitError = NoObservations | InvalidControls | NoPositiveFeature

  datatype Fit = Fit(intercept: real, coefficients: seq<(string, real)>, iterations: nat, converged: bool)

  function FeatureOf(features: map<string, real>, name: string): real {
    if name in features then features[name] else 0.0
  }

  function FeatureRow(features: map<string, real>, names: seq<string>): (row: Vector)
    ensures |row| == |names|
  {
    seq(|names|, k requires 0 <= k < |names| => FeatureOf(features, names[k]))
  }

  function Targets(observations: seq<Observation>): (t: Vector)
    ensures |t| == |observations|
  {
    seq(|observations|, i requires 0 <= i < |observations| => observations[i].latency)
  }

  function RawMatrix(observations: seq<Observation>, names: seq<string>): (x: Matrix)
    ensures |x| == |observations| && Shaped(x, |names|)
  {
    seq(|observations|, i requires 0 <= i < |observations| => FeatureRow(observations[i].features, names))
  }

  /** `predict_ms`. */
  function PredictMs(fit: Fit, features: map<string, real>): real {
    fit.intercept + WeightedSum(fit.coefficients, features)
  }

  function WeightedSum(coefficients: seq<(string, real)>, features: map<string, real>): real {
    if coefficients == [] then 0.0
    else
      var (name, coefficient) := coefficients[|coefficients| - 1];
      WeightedSum(coefficients[..|coefficients| - 1], features) + Times(FeatureOf(features, name), coefficient)
  }

  // ----- scaling -----

  function ScaleRow(row: Vector, scales: Vector): (scaled: Vector)
    requires |row| == |scales| && forall k | 0 <= k < |scales| :: scales[k] > 0.0
    ensures |scaled| == |row|
  {
    seq(|row|, k requires 0 <= k < |row| => row[k] / scales[k])
  }

  function ScaleMatrix(x: Matrix, m: nat, scales: Vector): (scaled: Matrix)
    requires Shaped(x, m) && |scales| == m && forall k | 0 <= k < m :: scales[k] > 0.0
    ensures |scaled| == |x| && Shaped(scaled, m)
  {
    seq(|x|, i requires 0 <= i < |x| => ScaleRow(x[i], scales))
  }

  function Coefficients(names: seq<string>, w: Vector, scales: Vector): (coefficients: seq<(string, real)>)
    requires |names| == |w| == |scales| && forall k | 0 <= k < |scales| :: scales[k] > 0.0
    ensures |coefficients| == |names|
  {
    seq(|names|, k requires 0 <= k < |names| => (names[k], w[k] / scales[k]))
  }

  lemma Quotients(x: real, w: real, s: real)
    requires s > 0.0
    ensures Times(x, w / s) == Times(x / s, w)
  {}

  /** Undoing the scaling changes no prediction: the coefficients on raw features weigh as the weights on scaled ones. */
  lemma {:induction false} UnscaledPredicts(names: seq<string>, w: Vector, scales: Vector, features: map<string, real>)
    requires |names| == |w| == |scales| && forall k | 0 <= k < |scales| :: scales[k] > 0.0
    ensures WeightedSum(Coefficients(names, w, scales), features) == Dot(ScaleRow(FeatureRow(features, names), scales), w)
  {
    if names != [] {
      var n := |names| - 1;
      UnscaledPredicts(names[..n], w[..n], scales[..n], features);
      assert Coefficients(names, w, scales)[..n] == Coefficients(names[..n], w[..n], scales[..n]);
      assert ScaleRow(FeatureRow(features, names), scales)[..n] == ScaleRow(FeatureRow(features, names[..n]), scales[..n]);
      Quotients(FeatureOf(features, names[n]), w[n], scales[n]);
      hide Times;
    }
  }

  // ----- the updates -----

  method UpdateIntercept(t: Vector, x: Matrix, m: nat, ridge: real, b: real, w: Vector, p: Vector) returns (b': real, p': Vector)
    requires Shaped(x, m) && |w| == m && |t| == |x| && |t| > 0 && p == Predict(b, x, m, w)
    ensures b' == Max(0.0, Mean(Detrended(t, Predict(b, x, m, w), b))) && p' == Predict(b', x, m, w)
    ensures forall v | v >= 0.0 :: Objective(t, x, m, ridge, b', w) <= Objective(t, x, m, ridge, v, w)
  {
    b' := Max(0.0, Mean(Detrended(t, p, b)));
    p' := p;
    if b' != b {
      p' := seq(|p|, i requires 0 <= i < |p| => p[i] + (b' - b));
    }
    assert p' == Predict(b', x, m, w);
    forall v | v >= 0.0 ensures Objective(t, x, m, ridge, b', w) <= Objective(t, x, m, ridge, v, w) {
      InterceptMinimised(t, x, m, ridge, b, w, v);
    }
  }

  ghost function ObjectiveWith(t: Vector, x: Matrix, m: nat, ridge: real, b: real, w: Vector, c: nat, v: real): real
    requires Shaped(x, m) && |w| == m && |t| == |x| && c < m
  {
    Objective(t, x, m, ridge, b, w[c := v])
  }

  method UpdateColumn(t: Vector, x: Matrix, m: nat, ridge: real, b: real, w: Vector, p: Vector, c: nat) returns (w': Vector, p': Vector)
    requires Shaped(x, m) && |w| == m && |t| == |x| && c < m && ridge >= 0.0 && p == Predict(b, x, m, w)
    ensures w' == w[c := Updated(t, x, m, ridge, b, w, c)] && w'[c] >= 0.0 && p' == Predict(b, x, m, w')
    ensures forall v | v >= 0.0 :: Objective(t, x, m, ridge, b, w') <= ObjectiveWith(t, x, m, ridge, b, w, c, v)
  {
    var column := Col(x, m, c);
    var denominator := Dot(column, column) + ridge;
    var numerator := Dot(column, AddScaled(Residual(t, p), w[c], column));
    var updated := if denominator != 0.0 then Max(0.0, numerator / denominator) else 0.0;
    assert updated == Updated(t, x, m, ridge, b, w, c);
    PredictUpdate(b, x, m, w, c, updated);
    forall v | v >= 0.0 ensures Objective(t, x, m, ridge, b, w[c := updated]) <= ObjectiveWith(t, x, m, ridge, b, w, c, v) {
      ColumnMinimised(t, x, m, ridge, b, w, c, v);
    }
    hide Objective, Updated, Dot, Residual, Col, ObjectiveWith;
    ColumnMinimisedAt(t, x, m, ridge, b, w, c, updated);
    w', p' := w, p;
    if updated - w[c] != 0.0 {
      p' := AddScaled(p, updated - w[c], column);
      w' := w[c := updated];
    } else {
      assert w[c := updated] == w;
    }
  }

  lemma ColumnMinimisedAt(t: Vector, x: Matrix, m: nat, ridge: real, b: real, w: Vector, c: nat, updated: real)
    requires Shaped(x, m) && |w| == m && |t| == |x| && c < m && ridge >= 0.0
    requires updated == Updated(t, x, m, ridge, b, w, c)
    ensures updated >= 0.0
  {
    ColumnMinimised(t, x, m, ridge, b, w, c, 0.0);
  }

  // ----- sweeps -----

  /** The intercept a sweep moves to. */
  ghost function SweptIntercept(t: Vector, x: Matrix, m: nat, b: real, w: Vector): (b': real)
    requires Shaped(x, m) && |w| == m && |t| == |x| && |t| > 0
    ensures b' >= 0.0
  {
    Max(0.0, Mean(Detrended(t, Predict(b, x, m, w), b)))
  }

  /** The weights once the first `c` columns are moved, each from where the ones before it left off. */
  ghost function SweptWeights(t: Vector, x: Matrix, m: nat, ridge: real, b: real, w: Vector, c: nat): (w': Vector)
    requires Shaped(x, m) && |w| == m && |t| == |x| && c <= m
    ensures |w'| == m && w'[c..] == w[c..]
  {
    if c == 0 then w
    else
      var before := SweptWeights(t, x, m, ridge, b, w, c - 1);
      before[c - 1 := Updated(t, x, m, ridge, b, before, c - 1)]
  }

  datatype Point = Point(b: real, w: Vector)

  ghost function Swept(t: Vector, x: Matrix, m: nat, ridge: real, p: Point): (q: Point)
    requires Shaped(x, m) && |p.w| == m && |t| == |x| && |t| > 0
    ensures |q.w| == m
  {
    var b := SweptIntercept(t, x, m, p.b, p.w);
    Point(b, SweptWeights(t, x, m, ridge, b, p.w, m))
  }

  /** Where the loop starts: the non-negative mean, and no weights. */
  ghost function Start(t: Vector, m: nat): (p: Point)
    requires |t| > 0
    ensures |p.w| == m
  {
    Point(Max(0.0, Mean(t)), seq(m, k => 0.0))
  }

  ghost function After(t: Vector, x: Matrix, m: nat, ridge: real, n: nat): (p: Point)
    requires Shaped(x, m) && |t| == |x| && |t| > 0
    ensures |p.w| == m
  {
    if n == 0 then Start(t, m) else Swept(t, x, m, ridge, After(t, x, m, ridge, n - 1))
  }

  ghost function ObjectiveAt(t: Vector, x: Matrix, m: nat, ridge: real, p: Point): real
    requires Shaped(x, m) && |p.w| == m && |t| == |x|
  {
    Objective(t, x, m, ridge, p.b, p.w)
  }

  lemma {:induction false} SweptNonNegative(t: Vector, x: Matrix, m: nat, ridge: real, b: real, w: Vector, c: nat)
    requires Shaped(x, m) && |w| == m && |t| == |x| && c <= m && ridge >= 0.0 && NonNegative(w)
    ensures NonNegative(SweptWeights(t, x, m, ridge, b, w, c))
  {
    if c > 0 {
      SweptNonNegative(t, x, m, ridge, b, w, c - 1);
      var before := SweptWeights(t, x, m, ridge, b, w, c - 1);
      ColumnMinimised(t, x, m, ridge, b, before, c - 1, 0.0);
      hide Updated, Objective;
    }
  }

  /** Every column has something to fit, or the ridge holds it. */
  predicate Weighty(x: Matrix, m: nat, ridge: real)
    requires Shaped(x, m)
  {
    forall c | 0 <= c < m :: Denominator(x, m, ridge, c) > 0.0
  }

  /** Moving columns never raises the objective, and lowers it as soon as one of them moves. */
  lemma {:induction false} ColumnsDescend(t: Vector, x: Matrix, m: nat, ridge: real, b: real, w: Vector, c: nat)
    requires Shaped(x, m) && |w| == m && |t| == |x| && c <= m && ridge >= 0.0 && NonNegative(w)
    ensures Objective(t, x, m, ridge, b, SweptWeights(t, x, m, ridge, b, w, c)) <= Objective(t, x, m, ridge, b, w)
    ensures Weighty(x, m, ridge) && SweptWeights(t, x, m, ridge, b, w, c) != w ==>
              Objective(t, x, m, ridge, b, SweptWeights(t, x, m, ridge, b, w, c)) < Objective(t, x, m, ridge, b, w)
  {
    if c > 0 {
      var before, k := SweptWeights(t, x, m, ridge, b, w, c - 1), c - 1;
      ColumnsDescend(t, x, m, ridge, b, w, k);
      SweptNonNegative(t, x, m, ridge, b, w, k);
      assert before[k := before[k]] == before;
      ColumnMinimised(t, x, m, ridge, b, before, k, before[k]);
      if Denominator(x, m, ridge, k) > 0.0 && before[k] != Updated(t, x, m, ridge, b, before, k) {
        ColumnMinimisedStrictly(t, x, m, ridge, b, before, k, before[k]);
      }
      hide Updated, Objective, Denominator;
    }
  }

  /** Columns that did not move are where their updates would put them. */
  lemma {:induction false} UnmovedColumns(t: Vector, x: Matrix, m: nat, ridge: real, b: real, w: Vector, c: nat)
    requires Shaped(x, m) && |w| == m && |t| == |x| && c <= m && SweptWeights(t, x, m, ridge, b, w, c) == w
    ensures forall k | 0 <= k < c :: SweptWeights(t, x, m, ridge, b, w, k) == w && w[k] == Updated(t, x, m, ridge, b, w, k)
  {
    if c > 0 {
      var before := SweptWeights(t, x, m, ridge, b, w, c - 1);
      hide Updated;
      EarlierColumns(t, x, m, ridge, b, w, c - 1, c);
      assert before == w by {
        forall k | 0 <= k < m ensures before[k] == w[k] {
          if k >= c - 1 { assert before[k] == before[c - 1..][k - (c - 1)] == w[c - 1..][k - (c - 1)]; }
        }
      }
      UnmovedColumns(t, x, m, ridge, b, w, c - 1);
    }
  }

  /** A column keeps its weight while later ones move. */
  lemma EarlierColumns(t: Vector, x: Matrix, m: nat, ridge: real, b: real, w: Vector, k: nat, c: nat)
    requires Shaped(x, m) && |w| == m && |t| == |x| && c == k + 1 && c <= m
    ensures forall j | 0 <= j < k :: SweptWeights(t, x, m, ridge, b, w, c)[j] == SweptWeights(t, x, m, ridge, b, w, k)[j]
  {
    hide Updated;
  }

  /** A sweep never raises the objective, and lowers it unless it changes nothing; then the point is stationary. */
  lemma SweepDescends(t: Vector, x: Matrix, m: nat, ridge: real, p: Point)
    requires Shaped(x, m) && |p.w| == m && |t| == |x| && |t| > 0 && ridge >= 0.0 && p.b >= 0.0 && NonNegative(p.w)
    ensures var q := Swept(t, x, m, ridge, p);
            && q.b >= 0.0 && NonNegative(q.w)
            && ObjectiveAt(t, x, m, ridge, q) <= ObjectiveAt(t, x, m, ridge, p)
            && (Weighty(x, m, ridge) && q != p ==> ObjectiveAt(t, x, m, ridge, q) < ObjectiveAt(t, x, m, ridge, p))
            && (q == p ==> Stationary(t, x, m, ridge, p.b, p.w))
  {
    var q := Swept(t, x, m, ridge, p);
    InterceptMinimised(t, x, m, ridge, p.b, p.w, p.b);
    if q.b != p.b { InterceptMinimisedStrictly(t, x, m, ridge, p.b, p.w, p.b); }
    SweptNonNegative(t, x, m, ridge, q.b, p.w, m);
    ColumnsDescend(t, x, m, ridge, q.b, p.w, m);
    if q == p { UnmovedColumns(t, x, m, ridge, q.b, p.w, m); }
    hide Updated, Objective, Predict, Mean, Detrended, Weighty;
  }

  /** After any number of sweeps the objective is no higher than after fewer. */
  lemma {:induction false} DescentGoesDown(t: Vector, x: Matrix, m: nat, ridge: real, n: nat, k: nat)
    requires Shaped(x, m) && |t| == |x| && |t| > 0 && ridge >= 0.0 && k <= n
    ensures var p, q := After(t, x, m, ridge, k), After(t, x, m, ridge, n);
            && q.b >= 0.0 && NonNegative(q.w)
            && ObjectiveAt(t, x, m, ridge, q) <= ObjectiveAt(t, x, m, ridge, p)
  {
    if n > 0 {
      DescentGoesDown(t, x, m, ridge, n - 1, if k < n then k else 0);
      SweepDescends(t, x, m, ridge, After(t, x, m, ridge, n - 1));
    }
    hide Swept, ObjectiveAt, Stationary;
  }

  /** Once there has been a sweep, the objective is strictly below that of the start, or the start was the best of all. */
  lemma BelowTheStart(t: Vector, x: Matrix, m: nat, ridge: real, n: nat)
    requires Shaped(x, m) && |t| == |x| && |t| > 0 && ridge >= 0.0 && Weighty(x, m, ridge) && n >= 1
    ensures ObjectiveAt(t, x, m, ridge, After(t, x, m, ridge, n)) < ObjectiveAt(t, x, m, ridge, Start(t, m))
            || Stationary(t, x, m, ridge, Start(t, m).b, Start(t, m).w)
  {
    assert After(t, x, m, ridge, 1) == Swept(t, x, m, ridge, After(t, x, m, ridge, 0));
    SweepDescends(t, x, m, ridge, Start(t, m));
    DescentGoesDown(t, x, m, ridge, n, 1);
    hide Swept, ObjectiveAt, Stationary;
  }

  /** After a sweep no other non-negative weight of the last column does better. */
  lemma LastColumnLeast(t: Vector, x: Matrix, m: nat, ridge: real, n: nat, v: real)
    requires Shaped(x, m) && |t| == |x| && |t| > 0 && ridge >= 0.0 && n >= 1 && m >= 1 && v >= 0.0
    ensures var p := After(t, x, m, ridge, n);
            ObjectiveAt(t, x, m, ridge, p) <= Objective(t, x, m, ridge, p.b, p.w[m - 1 := v])
  {
    var q, p := After(t, x, m, ridge, n - 1), After(t, x, m, ridge, n);
    var before := SweptWeights(t, x, m, ridge, p.b, q.w, m - 1);
    assert p.w == before[m - 1 := Updated(t, x, m, ridge, p.b, before, m - 1)];
    ColumnMinimised(t, x, m, ridge, p.b, before, m - 1, v);
    assert p.w[m - 1 := v] == before[m - 1 := v];
  }

  /** One sweep: the intercept, then every column in turn. */
  method Sweep(t: Vector, x: Matrix, m: nat, ridge: real, b: real, w: Vector, p: Vector) returns (b': real, w': Vector, p': Vector)
    requires Shaped(x, m) && |w| == m && |t| == |x| && |t| > 0 && ridge >= 0.0
    requires p == Predict(b, x, m, w) && b >= 0.0 && NonNegative(w)
    ensures |w'| == m && p' == Predict(b', x, m, w') && Point(b', w') == Swept(t, x, m, ridge, Point(b, w))
    ensures b' >= 0.0 && NonNegative(w')
    ensures Objective(t, x, m, ridge, b', w') <= Objective(t, x, m, ridge, b, w)
    ensures Weighty(x, m, ridge) && (b' != b || w' != w) ==> Objective(t, x, m, ridge, b', w') < Objective(t, x, m, ridge, b, w)
    ensures b' == b && w' == w ==> Stationary(t, x, m, ridge, b, w)
  {
    SweepDescends(t, x, m, ridge, Point(b, w));
    b', p' := UpdateIntercept(t, x, m, ridge, b, w, p);
    w' := w;
    hide Objective, Updated, Predict, Mean, Detrended, Stationary, Weighty;
    for c := 0 to m
      invariant |w'| == m && p' == Predict(b', x, m, w') && w' == SweptWeights(t, x, m, ridge, b', w, c)
    {
      w', p' := UpdateColumn(t, x, m, ridge, b', w', p', c);
    }
  }

  // ----- the loop -----

  function Abs(v: real): real {
    if v < 0.0 then -v else v
  }

  /** The objective changed by no more than the tolerance, relative to its former value. */
  predicate Settled(tolerance: real, former: real, latter: real) {
    Abs(former - latter) <= tolerance * Max(1.0, former)
  }

  /** The stopping rule after the `n`-th sweep; there is nothing to compare the first with. */
  ghost predicate StopsAt(t: Vector, x: Matrix, m: nat, ridge: real, tolerance: real, n: nat)
    requires Shaped(x, m) && |t| == |x| && |t| > 0
  {
    n >= 2
    && Settled(tolerance, ObjectiveAt(t, x, m, ridge, After(t, x, m, ridge, n - 1)), ObjectiveAt(t, x, m, ridge, After(t, x, m, ridge, n)))
  }

  ghost predicate NeverStops(t: Vector, x: Matrix, m: nat, ridge: real, tolerance: real, n: nat)
    requires Shaped(x, m) && |t| == |x| && |t| > 0
  {
    forall k | 1 <= k < n :: !StopsAt(t, x, m, ridge, tolerance, k)
  }

  /** The loop over sweeps: the point after as many as it counts, the first at which the rule holds or the last allowed. */
  method Descend(t: Vector, x: Matrix, m: nat, ridge: real, maximum: nat, tolerance: real)
    returns (b: real, w: Vector, ghost p: Vector, iterations: nat, converged: bool)
    requires Shaped(x, m) && |t| == |x| && |t| > 0 && ridge >= 0.0 && maximum >= 1
    ensures |w| == m && p == Predict(b, x, m, w) && b >= 0.0 && NonNegative(w)
    ensures 1 <= iterations <= maximum && Point(b, w) == After(t, x, m, ridge, iterations)
    ensures converged <==> StopsAt(t, x, m, ridge, tolerance, iterations)
    ensures NeverStops(t, x, m, ridge, tolerance, iterations)
    ensures !converged ==> iterations == maximum
  {
    hide Predict, Swept, Stationary, Updated, Penalised, Start, Objective, ObjectiveAt, StopsAt, Settled, Weighty, Max, Mean, After,
      Remembers, NeverStops;
    var predictions;
    b, w, predictions := Begin(t, x, m, ridge, tolerance);
    converged, iterations := false, 0;
    var previous: Option<real> := None;
    while iterations < maximum && !converged
      invariant |w| == m && predictions == Predict(b, x, m, w) && b >= 0.0 && NonNegative(w)
      invariant iterations <= maximum && Point(b, w) == After(t, x, m, ridge, iterations)
      invariant !converged ==> Remembers(t, x, m, ridge, iterations, previous)
      invariant if iterations == 0 then !converged else converged <==> StopsAt(t, x, m, ridge, tolerance, iterations)
      invariant NeverStops(t, x, m, ridge, tolerance, iterations)
      decreases maximum - iterations, if converged then 0 else 1
    {
      iterations := iterations + 1;
      NotStopped(t, x, m, ridge, tolerance, iterations);
      b, w, predictions, previous, converged := SweepAndTest(t, x, m, ridge, tolerance, iterations, b, w, predictions, previous);
    }
    p := predictions;
  }

  /** The non-negative mean and no weights. */
  method Begin(t: Vector, x: Matrix, m: nat, ghost ridge: real, ghost tolerance: real) returns (b: real, w: Vector, p: Vector)
    requires Shaped(x, m) && |t| == |x| && |t| > 0
    ensures |w| == m && p == Predict(b, x, m, w) && b >= 0.0 && NonNegative(w)
    ensures Point(b, w) == After(t, x, m, ridge, 0) && Remembers(t, x, m, ridge, 0, None)
    ensures NeverStops(t, x, m, ridge, tolerance, 0)
  {
    b, w := Max(0.0, Mean(t)), seq(m, k => 0.0);
    p := seq(|t|, i => b);
    StartPredicts(b, x, m);
  }

  /** What is kept for the stopping rule: the objective after the last sweep, if there was one. */
  ghost predicate Remembers(t: Vector, x: Matrix, m: nat, ridge: real, n: nat, previous: Option<real>)
    requires Shaped(x, m) && |t| == |x| && |t| > 0
  {
    previous == if n == 0 then None else Some(ObjectiveAt(t, x, m, ridge, After(t, x, m, ridge, n)))
  }

  /** The `n`-th sweep, and the rule after it. */
  method SweepAndTest(t: Vector, x: Matrix, m: nat, ridge: real, tolerance: real, ghost n: nat, b: real, w: Vector, p: Vector,
                      previous: Option<real>)
    returns (b': real, w': Vector, p': Vector, previous': Option<real>, converged: bool)
    requires Shaped(x, m) && |w| == m && |t| == |x| && |t| > 0 && ridge >= 0.0 && n >= 1
    requires p == Predict(b, x, m, w) && b >= 0.0 && NonNegative(w)
    requires Point(b, w) == After(t, x, m, ridge, n - 1) && Remembers(t, x, m, ridge, n - 1, previous)
    ensures |w'| == m && p' == Predict(b', x, m, w') && b' >= 0.0 && NonNegative(w')
    ensures Point(b', w') == After(t, x, m, ridge, n)
    ensures converged <==> StopsAt(t, x, m, ridge, tolerance, n)
    ensures !converged ==> Remembers(t, x, m, ridge, n, previous')
  {
    b', w', p' := Sweep(t, x, m, ridge, b, w, p);
    OneMoreSweep(t, x, m, ridge, n);
    var objective := Penalised(t, p', ridge, w');
    ObjectiveOf(t, x, m, ridge, Point(b', w'));
    hide Predict, Swept, Stationary, Updated, Penalised, After, Objective, ObjectiveAt, Settled, Weighty;
    converged := previous.Some? && Settled(tolerance, previous.value, objective);
    previous' := if converged then previous else Some(objective);
  }

  lemma NotStopped(t: Vector, x: Matrix, m: nat, ridge: real, tolerance: real, n: nat)
    requires Shaped(x, m) && |t| == |x| && |t| > 0 && n >= 1
    ensures NeverStops(t, x, m, ridge, tolerance, n)
            <==> n == 1 || (NeverStops(t, x, m, ridge, tolerance, n - 1) && !StopsAt(t, x, m, ridge, tolerance, n - 1))
  {
    hide StopsAt;
  }

  lemma OneMoreSweep(t: Vector, x: Matrix, m: nat, ridge: real, n: nat)
    requires Shaped(x, m) && |t| == |x| && |t| > 0 && n >= 1
    ensures After(t, x, m, ridge, n) == Swept(t, x, m, ridge, After(t, x, m, ridge, n - 1))
  {}

  lemma ObjectiveOf(t: Vector, x: Matrix, m: nat, ridge: real, p: Point)
    requires Shaped(x, m) && |p.w| == m && |t| == |x|
    ensures Penalised(t, Predict(p.b, x, m, p.w), ridge, p.w) == ObjectiveAt(t, x, m, ridge, p)
  {}

  lemma StartPredicts(b: real, x: Matrix, m: nat)
    requires Shaped(x, m)
    ensures seq(|x|, i => b) == Predict(b, x, m, seq(m, k => 0.0))
  {
    forall i | 0 <= i < |x| ensures Dot(x[i], seq(m, k => 0.0)) == 0.0 { ZeroWeights(x[i]); }
  }

  lemma {:induction false} ZeroWeights(row: Vector)
    ensures Dot(row, seq(|row|, k => 0.0)) == 0.0
  {
    if row != [] {
      var n := |row| - 1;
      ZeroWeights(row[..n]);
      assert seq(|row|, k => 0.0)[..n] == seq(n, k => 0.0);
      assert Times(row[n], 0.0) == 0.0;
    }
  }
}
