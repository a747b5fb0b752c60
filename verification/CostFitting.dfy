/** The fitted cost model: what its coefficients mean for the observations they were fitted to. */
module CostFitting {
  import opened Wrappers
  import opened Ordering
  import opened Vectors
  import opened AnalyticFit
  import opened AnalyticOptimality
  import opened CoordinateDescent

  // ----- the whole fit -----

  /** The feature carries work somewhere. */
  ghost predicate Positive(observations: seq<Observation>, name: string) {
    exists o | o in observations :: name in o.features && o.features[name] > 0.0
  }

  predicate ValidControls(ridge: real, maximum: int, tolerance: real) {
    ridge >= 0.0 && maximum >= 1 && tolerance > 0.0
  }

  ghost predicate NonNegativeFit(fit: Fit) {
    fit.intercept >= 0.0 && forall k | 0 <= k < |fit.coefficients| :: fit.coefficients[k].1 >= 0.0
  }

  ghost function Predictions(fit: Fit, observations: seq<Observation>): (p: Vector)
    ensures |p| == |observations|
  {
    seq(|observations|, i requires 0 <= i < |observations| => PredictMs(fit, observations[i].features))
  }

  ghost function TrainingError(fit: Fit, observations: seq<Observation>): real {
    var r := Residual(Targets(observations), Predictions(fit, observations));
    Dot(r, r)
  }

  function ConstantFit(b: real): Fit {
    Fit(b, [], 0, false)
  }

  // ----- scales -----

  /** `math.sqrt`, as far as it matters. */
  ghost predicate Root(sqrt: real -> real) {
    forall v | v >= 0.0 :: sqrt(v) >= 0.0
  }

  function FeatureColumn(observations: seq<Observation>, name: string): (v: Vector)
    ensures |v| == |observations|
  {
    seq(|observations|, i requires 0 <= i < |observations| => FeatureOf(observations[i].features, name))
  }

  /** The root mean square of a feature, or one where that is zero. */
  function ScaleFor(observations: seq<Observation>, name: string, sqrt: real -> real): (s: real)
    requires observations != [] && Root(sqrt)
    ensures s > 0.0
  {
    var column := FeatureColumn(observations, name);
    DotSelf(column);
    var root := sqrt(Dot(column, column) / (|observations| as real));
    if root == 0.0 then 1.0 else root
  }

  function ScalesFor(observations: seq<Observation>, names: seq<string>, sqrt: real -> real): (scales: Vector)
    requires observations != [] && Root(sqrt)
    ensures |scales| == |names| && forall k | 0 <= k < |scales| :: scales[k] > 0.0
  {
    seq(|names|, k requires 0 <= k < |names| && observations != [] && Root(sqrt) => ScaleFor(observations, names[k], sqrt))
  }

  /** The scaled feature matrix. */
  function Design(observations: seq<Observation>, names: seq<string>, sqrt: real -> real): (x: Matrix)
    requires observations != [] && Root(sqrt)
    ensures |x| == |observations| && Shaped(x, |names|)
  {
    ScaleMatrix(RawMatrix(observations, names), |names|, ScalesFor(observations, names, sqrt))
  }

  /** An exact square root. */
  ghost predicate ExactRoot(sqrt: real -> real) {
    forall v | v >= 0.0 :: sqrt(v) >= 0.0 && sqrt(v) * sqrt(v) == v
  }

  function Shrunk(v: Vector, s: real): (w: Vector)
    requires s > 0.0
    ensures |w| == |v|
  {
    seq(|v|, i requires 0 <= i < |v| && s > 0.0 => v[i] / s)
  }

  lemma ShrunkSquare(x: real, s: real)
    requires s > 0.0
    ensures Times(Times(x / s, x / s), Times(s, s)) == Times(x, x)
  {
    var q := x / s;
    assert q * s == x;
    assert q * q * (s * s) == (q * s) * (q * s);
  }

  lemma TimesSum(a: real, b: real, c: real)
    ensures Times(a + b, c) == Times(a, c) + Times(b, c)
  {}

  lemma {:induction false} ShrunkLength(v: Vector, s: real)
    requires s > 0.0
    ensures Times(Dot(Shrunk(v, s), Shrunk(v, s)), Times(s, s)) == Dot(v, v)
  {
    if v != [] {
      var n := |v| - 1;
      ShrunkLength(v[..n], s);
      assert Shrunk(v, s)[..n] == Shrunk(v[..n], s);
      ShrunkSquare(v[n], s);
      TimesSum(Dot(Shrunk(v[..n], s), Shrunk(v[..n], s)), Times(v[n] / s, v[n] / s), Times(s, s));
      hide Times;
    }
  }

  lemma MeanOf(d: real, n: real)
    requires d >= 0.0 && n > 0.0
    ensures d / n >= 0.0 && Times(d / n, n) == d
  {}

  lemma TimesSwap(a: real, b: real)
    ensures Times(a, b) == Times(b, a)
  {}

  lemma RootOfMean(d: real, n: real, mean: real, root: real)
    requires n > 0.0 && Times(mean, n) == d && Times(root, root) == mean
    ensures root == 0.0 <==> d == 0.0
    ensures Times(n, Times(root, root)) == d
  {
    SquareSign(root);
    Annihilates(root, root);
    Annihilates(mean, n);
    if root != 0.0 { SameSign(mean, n); }
    TimesSwap(mean, n);
    hide Times;
  }

  lemma Cancelled(a: real, b: real, s: real)
    requires s > 0.0 && Times(a, Times(s, s)) == Times(b, Times(s, s))
    ensures a == b
  {
    var k := s * s;
    SquareSign(s);
    assert (a - b) * k == 0.0;
  }

  /** A scaled feature has root mean square one, unless no observation has any work in it; then its scale is one. */
  lemma ScaledToOne(observations: seq<Observation>, name: string, sqrt: real -> real)
    requires observations != [] && Root(sqrt) && ExactRoot(sqrt)
    ensures var column, s := FeatureColumn(observations, name), ScaleFor(observations, name, sqrt);
            if Dot(column, column) == 0.0 then s == 1.0 else Dot(Shrunk(column, s), Shrunk(column, s)) == |observations| as real
  {
    var column, s, n := FeatureColumn(observations, name), ScaleFor(observations, name, sqrt), |observations| as real;
    DotSelf(column);
    var mean := Dot(column, column) / n;
    var root := sqrt(mean);
    MeanOf(Dot(column, column), n);
    assert Times(root, root) == mean;
    RootOfMean(Dot(column, column), n, mean, root);
    assert s == if root == 0.0 then 1.0 else root;
    hide *;
    if root != 0.0 {
      ShrunkLength(column, s);
      Cancelled(Dot(Shrunk(column, s), Shrunk(column, s)), n, s);
    }
  }

  /** One scale per feature, computed from its column. */
  method Scales(observations: seq<Observation>, names: seq<string>, sqrt: real -> real) returns (scales: Vector)
    requires observations != [] && Root(sqrt)
    ensures scales == ScalesFor(observations, names, sqrt)
  {
    var raw, m := RawMatrix(observations, names), |names|;
    scales := [];
    for k := 0 to m
      invariant scales == ScalesFor(observations, names, sqrt)[..k]
    {
      var column := Col(raw, m, k);
      assert column == FeatureColumn(observations, names[k]);
      DotSelf(column);
      var root := sqrt(Dot(column, column) / (|raw| as real));
      scales := scales + [if root == 0.0 then 1.0 else root];
    }
  }

  // ----- the objective of a fit -----

  /** Returned coefficients predict, on every training row, what the loop maintained. */
  lemma FitPredicts(observations: seq<Observation>, names: seq<string>, scales: Vector, b: real, w: Vector, fit: Fit)
    requires |names| == |w| == |scales| && forall k | 0 <= k < |scales| :: scales[k] > 0.0
    requires fit.intercept == b && fit.coefficients == Coefficients(names, w, scales)
    ensures Predictions(fit, observations) == Predict(b, ScaleMatrix(RawMatrix(observations, names), |names|, scales), |names|, w)
  {
    var x := ScaleMatrix(RawMatrix(observations, names), |names|, scales);
    var p, q := Predictions(fit, observations), Predict(b, x, |names|, w);
    forall i | 0 <= i < |observations| ensures p[i] == q[i] {
      UnscaledPredicts(names, w, scales, observations[i].features);
    }
  }

  /** What the ridge adds is never negative, and the starting point is the constant fit. */
  lemma ErrorBounded(observations: seq<Observation>, x: Matrix, m: nat, ridge: real, b: real, w: Vector, b0: real, fit: Fit)
    requires Shaped(x, m) && |x| == |observations| && |w| == m && ridge >= 0.0
    requires Predictions(fit, observations) == Predict(b, x, m, w)
    requires Objective(Targets(observations), x, m, ridge, b, w) <= Objective(Targets(observations), x, m, ridge, b0, seq(m, k => 0.0))
    ensures TrainingError(fit, observations) <= TrainingError(ConstantFit(b0), observations)
  {
    var t, zero := Targets(observations), seq(m, k => 0.0);
    StartPredicts(b0, x, m);
    assert Predictions(ConstantFit(b0), observations) == Predict(b0, x, m, zero);
    ObjectiveParts(t, x, m, ridge, b, w);
    ObjectiveParts(t, x, m, ridge, b0, zero);
    ZeroWeights(zero);
    assert seq(|zero|, k => 0.0) == zero;
    DotSelf(w);
    hide Dot, Residual, Predict, Predictions, Objective;
    assert ridge * Dot(w, w) >= 0.0;
  }

  /** The weights the loop worked with, from the coefficients it returned. */
  function Weights(coefficients: seq<(string, real)>, observations: seq<Observation>, sqrt: real -> real): (w: Vector)
    requires observations != [] && Root(sqrt)
    ensures |w| == |coefficients|
  {
    seq(|coefficients|, k requires 0 <= k < |coefficients| && observations != [] && Root(sqrt) =>
      Times(coefficients[k].1, ScaleFor(observations, coefficients[k].0, sqrt)))
  }

  /** Squared error on the observations, plus the ridge on the scaled weights. */
  ghost function FitObjective(fit: Fit, observations: seq<Observation>, ridge: real, sqrt: real -> real): real
    requires observations != [] && Root(sqrt)
  {
    var w := Weights(fit.coefficients, observations, sqrt);
    Ridge(TrainingError(fit, observations), ridge, Dot(w, w))
  }

  lemma Unscaled(w: real, s: real)
    requires s > 0.0
    ensures Times(w / s, s) == w
  {}

  lemma Rescaled(c: real, s: real)
    requires s > 0.0
    ensures Times(c, s) / s == c && (c >= 0.0 ==> Times(c, s) >= 0.0)
  {}

  lemma WeightsOf(observations: seq<Observation>, names: seq<string>, sqrt: real -> real, w: Vector)
    requires observations != [] && Root(sqrt) && |w| == |names|
    ensures Weights(Coefficients(names, w, ScalesFor(observations, names, sqrt)), observations, sqrt) == w
  {
    var scales := ScalesFor(observations, names, sqrt);
    forall k | 0 <= k < |w| ensures Weights(Coefficients(names, w, scales), observations, sqrt)[k] == w[k] {
      Unscaled(w[k], scales[k]);
      hide Times, ScaleFor;
    }
  }

  /** The fit with these scaled weights. */
  function FitAt(observations: seq<Observation>, names: seq<string>, sqrt: real -> real, p: Point): Fit
    requires observations != [] && Root(sqrt) && |p.w| == |names|
  {
    Fit(p.b, Coefficients(names, p.w, ScalesFor(observations, names, sqrt)), 0, false)
  }

  /** The objective of a fit is the objective of its point. */
  lemma FitObjectiveIs(observations: seq<Observation>, names: seq<string>, ridge: real, sqrt: real -> real, p: Point, fit: Fit)
    requires observations != [] && Root(sqrt) && |p.w| == |names| && SameCurve(fit, FitAt(observations, names, sqrt, p))
    ensures FitObjective(fit, observations, ridge, sqrt)
            == ObjectiveAt(Targets(observations), Design(observations, names, sqrt), |names|, ridge, p)
  {
    var t, x, m, scales := Targets(observations), Design(observations, names, sqrt), |names|, ScalesFor(observations, names, sqrt);
    WeightsOf(observations, names, sqrt, p.w);
    FitPredicts(observations, names, scales, p.b, p.w, fit);
    ObjectiveParts(t, x, m, ridge, p.b, p.w);
    hide Dot, Residual, Predict, Predictions, Weights, ScalesFor, Design, Coefficients, Targets;
  }

  /** Same intercept and coefficients. */
  predicate SameCurve(a: Fit, b: Fit) {
    a.intercept == b.intercept && a.coefficients == b.coefficients
  }

  // ----- what a fit promises -----

  /** The features some observation has work in, by name. */
  ghost predicate WorkNames(observations: seq<Observation>, names: seq<string>) {
    Increasing(names) && forall name :: name in names <==> Positive(observations, name)
  }

  ghost function FitAfter(observations: seq<Observation>, names: seq<string>, ridge: real, sqrt: real -> real, n: nat): Fit
    requires observations != [] && Root(sqrt)
  {
    FitAt(observations, names, sqrt, After(Targets(observations), Design(observations, names, sqrt), |names|, ridge, n))
  }

  /** The non-negative mean of the targets and no coefficient. */
  function StartFit(observations: seq<Observation>, names: seq<string>): Fit
    requires observations != []
  {
    Fit(Max(0.0, Mean(Targets(observations))), seq(|names|, k requires 0 <= k < |names| => (names[k], 0.0)), 0, false)
  }

  function WithLast(fit: Fit, v: real): Fit
    requires fit.coefficients != []
  {
    var n := |fit.coefficients| - 1;
    fit.(coefficients := fit.coefficients[n := (fit.coefficients[n].0, v)])
  }

  /** No other non-negative value of the last coefficient lowers the objective. */
  ghost predicate LastLeast(fit: Fit, observations: seq<Observation>, ridge: real, sqrt: real -> real)
    requires observations != [] && Root(sqrt)
  {
    fit.coefficients != []
    && forall v | v >= 0.0 :: FitObjective(fit, observations, ridge, sqrt) <= FitObjective(WithLast(fit, v), observations, ridge, sqrt)
  }

  predicate SameFeatures(a: Fit, b: Fit) {
    |a.coefficients| == |b.coefficients| && forall k | 0 <= k < |a.coefficients| :: a.coefficients[k].0 == b.coefficients[k].0
  }

  /** No non-negative fit to these features has a lower objective. */
  ghost predicate LeastOfAll(fit: Fit, observations: seq<Observation>, ridge: real, sqrt: real -> real)
    requires observations != [] && Root(sqrt)
  {
    forall other: Fit | NonNegativeFit(other) && SameFeatures(other, fit) ::
      FitObjective(fit, observations, ridge, sqrt) <= FitObjective(other, observations, ridge, sqrt)
  }

  /** The stopping rule after `n` sweeps, on the fits there would be. */
  ghost predicate Converged(observations: seq<Observation>, names: seq<string>, ridge: real, tolerance: real, sqrt: real -> real, n: nat)
    requires observations != [] && Root(sqrt)
  {
    n >= 2
    && Settled(tolerance, FitObjective(FitAfter(observations, names, ridge, sqrt, n - 1), observations, ridge, sqrt),
               FitObjective(FitAfter(observations, names, ridge, sqrt, n), observations, ridge, sqrt))
  }

  /** The fit after as many sweeps as it counts: the first after which the objective changed by no more than the tolerance,
      or the last allowed. */
  ghost predicate Descended(fit: Fit, observations: seq<Observation>, names: seq<string>, ridge: real, maximum: int, tolerance: real,
                            sqrt: real -> real)
    requires observations != [] && Root(sqrt)
  {
    && 1 <= fit.iterations <= maximum && SameCurve(fit, FitAfter(observations, names, ridge, sqrt, fit.iterations))
    && (fit.converged <==> Converged(observations, names, ridge, tolerance, sqrt, fit.iterations))
    && (forall n | 1 <= n < fit.iterations :: !Converged(observations, names, ridge, tolerance, sqrt, n))
    && (!fit.converged ==> fit.iterations == maximum)
  }

  lemma ConvergedIs(observations: seq<Observation>, names: seq<string>, ridge: real, tolerance: real, sqrt: real -> real, n: nat)
    requires observations != [] && Root(sqrt)
    ensures Converged(observations, names, ridge, tolerance, sqrt, n)
            <==> StopsAt(Targets(observations), Design(observations, names, sqrt), |names|, ridge, tolerance, n)
  {
    hide FitObjective, Settled, ObjectiveAt, After, FitAt, Design, Targets;
    if n >= 2 {
      AfterObjective(observations, names, ridge, sqrt, n - 1);
      AfterObjective(observations, names, ridge, sqrt, n);
    }
  }

  lemma AfterObjective(observations: seq<Observation>, names: seq<string>, ridge: real, sqrt: real -> real, n: nat)
    requires observations != [] && Root(sqrt)
    ensures var t, x := Targets(observations), Design(observations, names, sqrt);
            FitObjective(FitAfter(observations, names, ridge, sqrt, n), observations, ridge, sqrt)
            == ObjectiveAt(t, x, |names|, ridge, After(t, x, |names|, ridge, n))
  {
    hide FitObjective, ObjectiveAt, After, FitAt, Design, Targets;
    FitObjectiveIs(observations, names, ridge, sqrt, After(Targets(observations), Design(observations, names, sqrt), |names|, ridge, n),
                   FitAfter(observations, names, ridge, sqrt, n));
  }

  lemma StartIsFirst(observations: seq<Observation>, names: seq<string>, ridge: real, sqrt: real -> real)
    requires observations != [] && Root(sqrt)
    ensures SameCurve(StartFit(observations, names), FitAfter(observations, names, ridge, sqrt, 0))
  {
    hide Mean, Design, ScaleFor, Targets;
  }

  /** Changing the last coefficient is changing the last weight. */
  lemma LastWeight(names: seq<string>, scales: Vector, w: Vector, fit: Fit, v: real)
    requires |names| == |w| == |scales| && names != [] && forall k | 0 <= k < |scales| :: scales[k] > 0.0
    requires fit.coefficients == Coefficients(names, w, scales)
    ensures var n := |names| - 1;
            WithLast(fit, v).coefficients == Coefficients(names, w[n := Times(v, scales[n])], scales)
  {
    Rescaled(v, scales[|names| - 1]);
    hide Times;
  }

  lemma NoOtherLast(observations: seq<Observation>, names: seq<string>, ridge: real, sqrt: real -> real, n: nat, fit: Fit, v: real)
    requires observations != [] && Root(sqrt) && names != [] && ridge >= 0.0 && n >= 1 && v >= 0.0
    requires SameCurve(fit, FitAfter(observations, names, ridge, sqrt, n))
    ensures FitObjective(fit, observations, ridge, sqrt) <= FitObjective(WithLast(fit, v), observations, ridge, sqrt)
  {
    var t, x, m, scales := Targets(observations), Design(observations, names, sqrt), |names|, ScalesFor(observations, names, sqrt);
    var p := After(t, x, m, ridge, n);
    hide Design, Targets, After, FitObjective, ObjectiveAt, ScalesFor, Times, Coefficients;
    var u := Times(v, scales[m - 1]);
    LastWeight(names, scales, p.w, fit, v);
    Rescaled(v, scales[m - 1]);
    LastColumnLeast(t, x, m, ridge, n, u);
    var q := Point(p.b, p.w[m - 1 := u]);
    FitObjectiveIs(observations, names, ridge, sqrt, p, fit);
    FitObjectiveIs(observations, names, ridge, sqrt, q, WithLast(fit, v));
    PointObjective(t, x, m, ridge, q);
  }

  lemma LastIsLeast(observations: seq<Observation>, names: seq<string>, ridge: real, sqrt: real -> real, n: nat, fit: Fit)
    requires observations != [] && Root(sqrt) && names != [] && ridge >= 0.0 && n >= 1
    requires SameCurve(fit, FitAfter(observations, names, ridge, sqrt, n))
    ensures LastLeast(fit, observations, ridge, sqrt)
  {
    hide FitObjective, After, WithLast, ScalesFor, Design, Targets;
    forall v | v >= 0.0 ensures FitObjective(fit, observations, ridge, sqrt) <= FitObjective(WithLast(fit, v), observations, ridge, sqrt) {
      NoOtherLast(observations, names, ridge, sqrt, n, fit, v);
    }
  }

  lemma PointObjective(t: Vector, x: Matrix, m: nat, ridge: real, p: Point)
    requires Shaped(x, m) && |p.w| == m && |t| == |x|
    ensures ObjectiveAt(t, x, m, ridge, p) == Objective(t, x, m, ridge, p.b, p.w)
  {}

  /** Every non-negative fit to these features is the fit of a non-negative point. */
  lemma PointOf(observations: seq<Observation>, names: seq<string>, sqrt: real -> real, other: Fit) returns (p: Point)
    requires observations != [] && Root(sqrt) && NonNegativeFit(other)
    requires |other.coefficients| == |names| && forall k | 0 <= k < |names| :: other.coefficients[k].0 == names[k]
    ensures |p.w| == |names| && p.b >= 0.0 && NonNegative(p.w) && SameCurve(other, FitAt(observations, names, sqrt, p))
  {
    p := Point(other.intercept, Weights(other.coefficients, observations, sqrt));
    var scales := ScalesFor(observations, names, sqrt);
    forall k | 0 <= k < |names|
      ensures p.w[k] >= 0.0 && Coefficients(names, p.w, scales)[k] == other.coefficients[k]
    {
      Rescaled(other.coefficients[k].1, scales[k]);
      hide Times, ScaleFor;
    }
  }

  lemma StationaryStartIsLeast(observations: seq<Observation>, names: seq<string>, ridge: real, sqrt: real -> real)
    requires observations != [] && Root(sqrt) && ridge >= 0.0
    requires var t, x, m := Targets(observations), Design(observations, names, sqrt), |names|;
             Stationary(t, x, m, ridge, Start(t, m).b, Start(t, m).w)
    ensures LeastOfAll(StartFit(observations, names), observations, ridge, sqrt)
  {
    var t, x, m := Targets(observations), Design(observations, names, sqrt), |names|;
    var start := StartFit(observations, names);
    StartIsFirst(observations, names, ridge, sqrt);
    hide Design, Targets, FitObjective, ObjectiveAt, Stationary, Start, FitAt;
    assert After(t, x, m, ridge, 0) == Start(t, m);
    FitObjectiveIs(observations, names, ridge, sqrt, Start(t, m), start);
    PointObjective(t, x, m, ridge, Start(t, m));
    forall other: Fit | NonNegativeFit(other) && SameFeatures(other, start)
      ensures FitObjective(start, observations, ridge, sqrt) <= FitObjective(other, observations, ridge, sqrt)
    {
      var p := PointOf(observations, names, sqrt, other);
      FitObjectiveIs(observations, names, ridge, sqrt, p, other);
      PointObjective(t, x, m, ridge, p);
      StationaryIsOptimal(t, x, m, ridge, Start(t, m).b, Start(t, m).w, p.b, p.w);
    }
  }

  lemma {:induction false} SomeLength(v: Vector, k: nat)
    requires k < |v| && v[k] != 0.0
    ensures Dot(v, v) > 0.0
  {
    var n := |v| - 1;
    SquareSign(v[n]);
    DotSelf(v[..n]);
    if k < n { SomeLength(v[..n], k); }
    hide Times;
  }

  /** Every fitted feature has a column to fit. */
  lemma WorkIsWeighty(observations: seq<Observation>, names: seq<string>, ridge: real, sqrt: real -> real)
    requires observations != [] && Root(sqrt) && WorkNames(observations, names) && ridge >= 0.0
    ensures Weighty(Design(observations, names, sqrt), |names|, ridge)
  {
    var x, m, scales := Design(observations, names, sqrt), |names|, ScalesFor(observations, names, sqrt);
    forall c | 0 <= c < m ensures Denominator(x, m, ridge, c) > 0.0 {
      assert names[c] in names && Positive(observations, names[c]);
      var o :| o in observations && names[c] in o.features && o.features[names[c]] > 0.0;
      var i :| 0 <= i < |observations| && observations[i] == o;
      PositiveQuotient(o.features[names[c]], scales[c]);
      hide ScaleFor, Dot;
      assert Col(x, m, c)[i] == o.features[names[c]] / scales[c];
      SomeLength(Col(x, m, c), i);
    }
  }

  lemma PositiveQuotient(a: real, s: real)
    requires a > 0.0 && s > 0.0
    ensures a / s > 0.0
  {}

  /** Below the start, unless the start is the best fit there is. */
  lemma Improves(observations: seq<Observation>, names: seq<string>, ridge: real, sqrt: real -> real, n: nat, fit: Fit)
    requires observations != [] && Root(sqrt) && WorkNames(observations, names) && ridge >= 0.0 && n >= 1
    requires SameCurve(fit, FitAfter(observations, names, ridge, sqrt, n))
    ensures FitObjective(fit, observations, ridge, sqrt) < FitObjective(StartFit(observations, names), observations, ridge, sqrt)
            || LeastOfAll(StartFit(observations, names), observations, ridge, sqrt)
  {
    var t, x, m := Targets(observations), Design(observations, names, sqrt), |names|;
    StartIsFirst(observations, names, ridge, sqrt);
    WorkIsWeighty(observations, names, ridge, sqrt);
    hide Design, Targets, FitObjective, ObjectiveAt, Stationary, Start, FitAt, Weighty, WorkNames, LeastOfAll;
    assert After(t, x, m, ridge, 0) == Start(t, m);
    BelowTheStart(t, x, m, ridge, n);
    FitObjectiveIs(observations, names, ridge, sqrt, After(t, x, m, ridge, n), fit);
    FitObjectiveIs(observations, names, ridge, sqrt, Start(t, m), StartFit(observations, names));
    if Stationary(t, x, m, ridge, Start(t, m).b, Start(t, m).w) { StationaryStartIsLeast(observations, names, ridge, sqrt); }
  }

  lemma IsDescended(observations: seq<Observation>, names: seq<string>, ridge: real, maximum: int, tolerance: real, sqrt: real -> real,
                    fit: Fit)
    requires observations != [] && Root(sqrt) && 1 <= fit.iterations <= maximum
    requires SameCurve(fit, FitAfter(observations, names, ridge, sqrt, fit.iterations))
    requires var t, x, m := Targets(observations), Design(observations, names, sqrt), |names|;
             (fit.converged <==> StopsAt(t, x, m, ridge, tolerance, fit.iterations))
             && NeverStops(t, x, m, ridge, tolerance, fit.iterations) && (!fit.converged ==> fit.iterations == maximum)
    ensures Descended(fit, observations, names, ridge, maximum, tolerance, sqrt)
  {
    hide Converged, StopsAt, Design, Targets, FitAfter, SameCurve;
    forall n: nat ensures Converged(observations, names, ridge, tolerance, sqrt, n)
                     <==> StopsAt(Targets(observations), Design(observations, names, sqrt), |names|, ridge, tolerance, n) {
      ConvergedIs(observations, names, ridge, tolerance, sqrt, n);
    }
  }

  /** `fit_nonnegative_analytic_cost`: raises on exactly the inputs it names. Otherwise all coefficients are non-negative,
      `maintained` is what `predict_ms` returns on the training rows, and the fit is that of the sweeps it counts: no other
      non-negative last coefficient does better, the objective is below that of the constant the loop starts from unless
      nothing is, and `converged` says whether the last sweep settled. */
  method FitCost(observations: seq<Observation>, ridge: real, maximum: int, tolerance: real, sqrt: real -> real)
    returns (r: Result<Fit, FitError>, ghost maintained: Vector, ghost names: seq<string>)
    requires Root(sqrt)
    ensures r == Error(NoObservations) <==> observations == []
    ensures r == Error(InvalidControls) <==> observations != [] && !ValidControls(ridge, maximum, tolerance)
    ensures r == Error(NoPositiveFeature)
            <==> observations != [] && ValidControls(ridge, maximum, tolerance) && forall name :: !Positive(observations, name)
    ensures r.Ok? ==> NonNegativeFit(r.value) && Predictions(r.value, observations) == maintained
    ensures r.Ok? ==> WorkNames(observations, names) && Descended(r.value, observations, names, ridge, maximum, tolerance, sqrt)
    ensures r.Ok? ==> LastLeast(r.value, observations, ridge, sqrt)
    ensures r.Ok? ==> FitObjective(r.value, observations, ridge, sqrt) < FitObjective(StartFit(observations, names), observations, ridge, sqrt)
                      || LeastOfAll(StartFit(observations, names), observations, ridge, sqrt)
    ensures r.Ok? ==> TrainingError(r.value, observations) <= TrainingError(ConstantFit(Max(0.0, Mean(Targets(observations)))), observations)
  {
    maintained, names := [], [];
    if observations == [] { return Error(NoObservations), [], []; }
    if !ValidControls(ridge, maximum, tolerance) { return Error(InvalidControls), [], []; }
    var work := Work(observations);
    if work == {} { return Error(NoPositiveFeature), [], []; }
    assert exists name :: Positive(observations, name) by { var name :| name in work; assert Positive(observations, name); }
    var sorted := SortKeys(work);
    assert sorted != [] && WorkNames(observations, sorted) by { var name :| name in work; assert name in sorted; }
    hide Positive, WorkNames;
    var fit;
    fit, maintained := FitNames(observations, sorted, ridge, maximum, tolerance, sqrt);
    names := sorted;
    r := Ok(fit);
  }

  method Work(observations: seq<Observation>) returns (work: set<string>)
    ensures forall name :: name in work <==> Positive(observations, name)
  {
    work := set o, name | o in observations && name in o.features && o.features[name] > 0.0 :: name;
  }

  /** Scaling, the loop, and the coefficients in their own units. */
  method FitNames(observations: seq<Observation>, names: seq<string>, ridge: real, maximum: nat, tolerance: real, sqrt: real -> real)
    returns (fit: Fit, ghost maintained: Vector)
    requires observations != [] && Root(sqrt) && ValidControls(ridge, maximum, tolerance) && names != [] && WorkNames(observations, names)
    ensures NonNegativeFit(fit) && Predictions(fit, observations) == maintained
    ensures Descended(fit, observations, names, ridge, maximum, tolerance, sqrt)
    ensures LastLeast(fit, observations, ridge, sqrt)
    ensures FitObjective(fit, observations, ridge, sqrt) < FitObjective(StartFit(observations, names), observations, ridge, sqrt)
            || LeastOfAll(StartFit(observations, names), observations, ridge, sqrt)
    ensures TrainingError(fit, observations) <= TrainingError(ConstantFit(Max(0.0, Mean(Targets(observations)))), observations)
  {
    var t, m := Targets(observations), |names|;
    var scales := Scales(observations, names, sqrt);
    var x := ScaleMatrix(RawMatrix(observations, names), m, scales);
    assert x == Design(observations, names, sqrt);
    hide RawMatrix, Targets, ScaleMatrix, Predict, Objective, Predictions, TrainingError, Mean, WorkNames, Design, ScalesFor, After,
      StopsAt, NeverStops, Descended, LastLeast, LeastOfAll, FitObjective, StartFit;
    var b, w, p, iterations, converged := Descend(t, x, m, ridge, maximum, tolerance);
    fit := Fit(b, Coefficients(names, w, scales), iterations, converged);
    maintained := p;
    FitPredicts(observations, names, scales, b, w, fit);
    assert SameCurve(fit, FitAfter(observations, names, ridge, sqrt, iterations));
    IsDescended(observations, names, ridge, maximum, tolerance, sqrt, fit);
    LastIsLeast(observations, names, ridge, sqrt, iterations, fit);
    Improves(observations, names, ridge, sqrt, iterations, fit);
    BelowTheConstant(observations, x, m, ridge, iterations, Point(b, w), fit);
    forall k | 0 <= k < m ensures fit.coefficients[k].1 >= 0.0 { NonNegativeQuotient(w[k], scales[k]); }
  }

  lemma BelowTheConstant(observations: seq<Observation>, x: Matrix, m: nat, ridge: real, n: nat, p: Point, fit: Fit)
    requires observations != [] && Shaped(x, m) && |x| == |observations| && |p.w| == m && ridge >= 0.0
    requires p == After(Targets(observations), x, m, ridge, n) && Predictions(fit, observations) == Predict(p.b, x, m, p.w)
    ensures TrainingError(fit, observations) <= TrainingError(ConstantFit(Max(0.0, Mean(Targets(observations)))), observations)
  {
    DescentGoesDown(Targets(observations), x, m, ridge, n, 0);
    hide Swept, Objective, TrainingError, Predict, Predictions, Mean, Targets;
    ErrorBounded(observations, x, m, ridge, p.b, p.w, Max(0.0, Mean(Targets(observations))), fit);
  }

  lemma NonNegativeQuotient(a: real, s: real)
    requires a >= 0.0 && s > 0.0
    ensures a / s >= 0.0
  {}
}
