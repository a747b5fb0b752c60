/** Choosing one of several result-equivalent candidates by predicted latency. */
module CostSelection {
  import opened Wrappers
  import opened Ordering
  import opened Vectors
  import opened CoordinateDescent
  import opened CostFitting

  datatype Candidate = Candidate(scenario: string, seed: nat, group: string, id: string, features: map<string, real>, latency: real)

  datatype SelectionError = TooFewCandidates | EmptyPracticalSet

  datatype Evaluation = Evaluation(selected: string, oracle: set<string>, hit: bool, regretPercent: real)

  // ----- least values over candidates -----

  ghost predicate IsLeast(values: map<string, real>, best: real) {
    (exists id | id in values :: values[id] == best) && forall id | id in values :: best <= values[id]
  }

  method Least(values: map<string, real>) returns (best: real)
    requires values != map[]
    ensures IsLeast(values, best)
  {
    var left := values.Keys;
    assert left == {} ==> values == map[];
    var first :| first in left;
    best, left := values[first], left - {first};
    ghost var at := first;
    while left != {}
      invariant left <= values.Keys && at in values && values[at] == best
      invariant forall id | id in values && id !in left :: best <= values[id]
      decreases left
    {
      var id :| id in left;
      if values[id] < best { best, at := values[id], id; }
      left := left - {id};
    }
  }

  function Limit(best: real, tie: real): real {
    Times(best, 1.0 + tie)
  }

  /** Within the tie fraction of the best. */
  function Practical(values: map<string, real>, best: real, tie: real): set<string> {
    set id | id in values && values[id] <= Limit(best, tie)
  }

  /** The practical set is non-empty exactly when the tie fraction does not push the limit below the best itself. */
  lemma PracticalNonEmpty(values: map<string, real>, best: real, tie: real)
    requires IsLeast(values, best)
    ensures Practical(values, best, tie) != {} <==> best * tie >= 0.0
  {
    assert Limit(best, tie) == best + best * tie;
    hide Limit;
    if best * tie >= 0.0 {
      var id :| id in values && values[id] == best;
      assert id in Practical(values, best, tie);
    }
    assert forall id | id in Practical(values, best, tie) :: best <= values[id] <= Limit(best, tie);
  }

  // ----- one group -----

  function Prefers(values: map<string, real>, a: string, b: string): bool
    requires a in values && b in values
  {
    values[a] < values[b] || (values[a] == values[b] && (a == b || Less(a, b)))
  }

  /** The member with the least `(value, id)`. */
  method LeastMember(values: map<string, real>, ids: set<string>) returns (chosen: string)
    requires ids != {} && ids <= values.Keys
    ensures chosen in ids && forall id | id in ids :: Prefers(values, chosen, id)
  {
    var left := ids;
    chosen :| chosen in left;
    left := left - {chosen};
    while left != {}
      invariant left <= ids && chosen in ids
      invariant forall id | id in ids && id !in left :: Prefers(values, chosen, id)
      decreases left
    {
      var id :| id in left;
      if !Prefers(values, chosen, id) {
        LessTotal(chosen, id);
        forall other | other in ids && other !in left ensures Prefers(values, id, other) {
          PrefersThrough(values, id, chosen, other);
        }
        chosen := id;
      }
      left := left - {id};
    }
  }

  lemma PrefersThrough(values: map<string, real>, a: string, b: string, c: string)
    requires a in values && b in values && c in values && Prefers(values, a, b) && Prefers(values, b, c)
    ensures Prefers(values, a, c)
  {
    if values[a] == values[b] == values[c] && a != b && b != c { LessTransitive(a, b, c); }
  }

  function Predicted(fit: Fit, candidates: seq<Candidate>): map<string, real> {
    if candidates == [] then map[]
    else
      var last := candidates[|candidates| - 1];
      Predicted(fit, candidates[..|candidates| - 1])[last.id := PredictMs(fit, last.features)]
  }

  function Actual(candidates: seq<Candidate>): map<string, real> {
    if candidates == [] then map[]
    else Actual(candidates[..|candidates| - 1])[candidates[|candidates| - 1].id := candidates[|candidates| - 1].latency]
  }

  lemma {:induction false} SameIds(fit: Fit, candidates: seq<Candidate>)
    ensures Predicted(fit, candidates).Keys == Actual(candidates).Keys == set c | c in candidates :: c.id
  {
    if candidates != [] {
      SameIds(fit, candidates[..|candidates| - 1]);
      assert forall c :: c in candidates <==> c in candidates[..|candidates| - 1] || c == candidates[|candidates| - 1];
    }
  }

  /** The last candidate of its id, which is the one both dictionaries keep. */
  predicate LastOfId(candidates: seq<Candidate>, k: nat) {
    k < |candidates| && forall j | k < j < |candidates| :: candidates[j].id != candidates[k].id
  }

  /** Under each id stands what the intercept and the coefficients make of its last candidate's features, and that
      candidate's latency. */
  lemma {:induction false} LastCounts(fit: Fit, candidates: seq<Candidate>, k: nat)
    requires LastOfId(candidates, k)
    ensures var c := candidates[k];
            && c.id in Predicted(fit, candidates) && c.id in Actual(candidates)
            && Predicted(fit, candidates)[c.id] == fit.intercept + WeightedSum(fit.coefficients, c.features)
            && Actual(candidates)[c.id] == c.latency
  {
    var n := |candidates| - 1;
    hide WeightedSum;
    if k < n {
      assert candidates[..n][k] == candidates[k] && candidates[n].id != candidates[k].id;
      LastCounts(fit, candidates[..n], k);
    }
  }

  lemma {:induction false} HasLast(candidates: seq<Candidate>, id: string) returns (k: nat)
    requires exists c | c in candidates :: c.id == id
    ensures LastOfId(candidates, k) && candidates[k].id == id
  {
    var n := |candidates| - 1;
    if candidates[n].id == id {
      k := n;
    } else {
      var c :| c in candidates && c.id == id;
      assert c in candidates[..n];
      k := HasLast(candidates[..n], id);
    }
  }

  /** What the rule selects from these predictions: the preference if it is practical, else the least of the practical set. */
  ghost predicate Selects(predicted: map<string, real>, preferred: Option<string>, tie: real, selected: string) {
    exists best | IsLeast(predicted, best) ::
      && selected in Practical(predicted, best, tie)
      && (preferred.Some? && preferred.value in Practical(predicted, best, tie) ==> selected == preferred.value)
      && (preferred.None? || preferred.value !in Practical(predicted, best, tie) ==>
            forall id | id in Practical(predicted, best, tie) :: Prefers(predicted, selected, id))
  }

  function RegretPercent(latency: real, best: real): real
    requires best > 0.0
  {
    (latency / best - 1.0) * 100.0
  }

  ghost predicate LimitBelowBest(predicted: map<string, real>, tie: real) {
    exists best | IsLeast(predicted, best) :: best * tie < 0.0
  }

  /** The selected candidate judged by the true latencies. */
  ghost predicate Judged(actual: map<string, real>, tie: real, r: Evaluation) {
    exists best | IsLeast(actual, best) ::
      && r.selected in actual && best > 0.0
      && r.oracle == Practical(actual, best, tie) && r.hit == (r.selected in r.oracle)
      && r.regretPercent == RegretPercent(actual[r.selected], best)
  }

  /** One iteration of the loop in `evaluate_fit_selections`. */
  method EvaluateGroup(fit: Fit, candidates: seq<Candidate>, preferred: Option<string>, tie: real) returns (r: Result<Evaluation, SelectionError>)
    requires forall c | c in candidates :: c.latency > 0.0
    ensures r == Error(TooFewCandidates) <==> |candidates| < 2
    ensures r == Error(EmptyPracticalSet) <==> |candidates| >= 2 && LimitBelowBest(Predicted(fit, candidates), tie)
    ensures r.Ok? ==> Selects(Predicted(fit, candidates), preferred, tie, r.value.selected)
    ensures r.Ok? ==> Judged(Actual(candidates), tie, r.value)
    ensures r.Ok? && tie >= 0.0 ==>
              forall e | 0.0 <= e < 1.0 && WellPredicted(fit, candidates, e) :: r.value.regretPercent <= (WorstRegret(tie, e) - 1.0) * 100.0
  {
    if |candidates| < 2 { return Error(TooFewCandidates); }
    var predicted, actual := Predicted(fit, candidates), Actual(candidates);
    SameIds(fit, candidates);
    assert candidates[0] in candidates && candidates[0].id in predicted.Keys && candidates[0].id in actual.Keys;
    ActualPositive(candidates);
    assert forall best | IsLeast(actual, best) :: best > 0.0;
    var best := Least(predicted);
    var fastest := Least(actual);
    hide Predicted, Actual, Practical, RegretPercent;
    LimitDecides(predicted, best, tie);
    var practical := Practical(predicted, best, tie);
    if practical == {} { return Error(EmptyPracticalSet); }
    PracticalKnown(predicted, best, tie);
    hide IsLeast, LimitBelowBest;
    var selected;
    if preferred.Some? && preferred.value in practical { selected := preferred.value; }
    else { selected := LeastMember(predicted, practical); }
    var oracle := Practical(actual, fastest, tie);
    r := Ok(Evaluation(selected, oracle, selected in oracle, RegretPercent(actual[selected], fastest)));
    assert Selects(predicted, preferred, tie, selected) && Judged(actual, tie, r.value);
    hide Selects, Judged, WellPredicted, WorstRegret;
    forall e | tie >= 0.0 && 0.0 <= e < 1.0 && WellPredicted(fit, candidates, e)
      ensures r.value.regretPercent <= (WorstRegret(tie, e) - 1.0) * 100.0
    {
      GroupRegret(fit, candidates, preferred, tie, e, r.value);
    }
  }

  lemma LimitDecides(predicted: map<string, real>, best: real, tie: real)
    requires IsLeast(predicted, best)
    ensures Practical(predicted, best, tie) == {} <==> LimitBelowBest(predicted, tie)
  {
    PracticalNonEmpty(predicted, best, tie);
    LeastUnique(predicted);
    hide Practical;
  }

  lemma PracticalKnown(values: map<string, real>, best: real, tie: real)
    ensures Practical(values, best, tie) <= values.Keys
  {}

  lemma LeastUnique(values: map<string, real>)
    ensures forall a, b | IsLeast(values, a) && IsLeast(values, b) :: a == b
  {}

  lemma {:induction false} ActualPositive(candidates: seq<Candidate>)
    requires forall c | c in candidates :: c.latency > 0.0
    ensures forall id | id in Actual(candidates) :: Actual(candidates)[id] > 0.0
  {
    if candidates != [] {
      ActualPositive(candidates[..|candidates| - 1]);
      assert candidates[|candidates| - 1] in candidates;
    }
  }

  // ----- regret -----

  function Under(e: real, latency: real): real { Times(1.0 - e, latency) }

  function Over(e: real, latency: real): real { Times(1.0 + e, latency) }

  function WorstRegret(tie: real, e: real): real
    requires e < 1.0
  {
    (1.0 + tie) * (1.0 + e) / (1.0 - e)
  }

  /** Every prediction is within a factor 1 +- e of the truth. */
  ghost predicate Accurate(predicted: map<string, real>, actual: map<string, real>, e: real) {
    && predicted.Keys == actual.Keys
    && forall id | id in actual :: Under(e, actual[id]) <= predicted[id] <= Over(e, actual[id])
  }

  /** The selection is at most (1 + tie)(1 + e)/(1 - e) times slower than any candidate, the fastest included, even when
      the stable preference overrides the least prediction. */
  lemma SelectionRegret(predicted: map<string, real>, actual: map<string, real>, preferred: Option<string>, tie: real, e: real,
                        selected: string, other: string)
    requires Accurate(predicted, actual, e) && 0.0 <= e < 1.0 && tie >= 0.0
    requires Selects(predicted, preferred, tie, selected) && other in actual
    ensures selected in actual && actual[selected] <= WorstRegret(tie, e) * actual[other]
  {
    hide Under, Over, WorstRegret, Limit;
    var best :| IsLeast(predicted, best) && selected in Practical(predicted, best, tie);
    assert selected in actual && other in predicted;
    RegretBound(actual[selected], actual[other], best, tie, e);
  }

  /** The fit errs on no candidate by more than this share of its latency. */
  ghost predicate WellPredicted(fit: Fit, candidates: seq<Candidate>, e: real) {
    forall c | c in candidates ::
      Under(e, c.latency) <= fit.intercept + WeightedSum(fit.coefficients, c.features) <= Over(e, c.latency)
  }

  lemma WellPredictedAccurate(fit: Fit, candidates: seq<Candidate>, e: real)
    requires WellPredicted(fit, candidates, e)
    ensures Accurate(Predicted(fit, candidates), Actual(candidates), e)
  {
    SameIds(fit, candidates);
    hide Predicted, Actual, WeightedSum, Under, Over;
    forall id | id in Actual(candidates)
      ensures Under(e, Actual(candidates)[id]) <= Predicted(fit, candidates)[id] <= Over(e, Actual(candidates)[id])
    {
      assert id in Actual(candidates).Keys;
      var k := HasLast(candidates, id);
      LastCounts(fit, candidates, k);
      assert candidates[k] in candidates;
    }
  }

  /** So the regret of the selection among them is bounded by that share and the tie fraction. */
  lemma GroupRegret(fit: Fit, candidates: seq<Candidate>, preferred: Option<string>, tie: real, e: real, r: Evaluation)
    requires WellPredicted(fit, candidates, e) && 0.0 <= e < 1.0 && tie >= 0.0
    requires Selects(Predicted(fit, candidates), preferred, tie, r.selected) && Judged(Actual(candidates), tie, r)
    ensures r.regretPercent <= (WorstRegret(tie, e) - 1.0) * 100.0
  {
    var predicted, actual := Predicted(fit, candidates), Actual(candidates);
    WellPredictedAccurate(fit, candidates, e);
    hide *;
    NoSlower(predicted, actual, preferred, tie, e, r.selected);
    FactorBounds(actual, tie, r, WorstRegret(tie, e));
  }

  /** At most this many times slower than any candidate. */
  ghost predicate SlowerAtMost(actual: map<string, real>, selected: string, factor: real) {
    selected in actual && forall other | other in actual :: actual[selected] <= factor * actual[other]
  }

  lemma NoSlower(predicted: map<string, real>, actual: map<string, real>, preferred: Option<string>, tie: real, e: real, selected: string)
    requires Accurate(predicted, actual, e) && 0.0 <= e < 1.0 && tie >= 0.0 && Selects(predicted, preferred, tie, selected)
    ensures SlowerAtMost(actual, selected, WorstRegret(tie, e))
  {
    SelectedIsMember(predicted, actual, preferred, tie, e, selected);
    hide Accurate, Selects, WorstRegret;
    forall other | other in actual ensures actual[selected] <= WorstRegret(tie, e) * actual[other] {
      SelectionRegret(predicted, actual, preferred, tie, e, selected, other);
    }
  }

  lemma SelectedIsMember(predicted: map<string, real>, actual: map<string, real>, preferred: Option<string>, tie: real, e: real, selected: string)
    requires Accurate(predicted, actual, e) && Selects(predicted, preferred, tie, selected)
    ensures selected in actual
  {}

  lemma FactorBounds(actual: map<string, real>, tie: real, r: Evaluation, factor: real)
    requires Judged(actual, tie, r) && SlowerAtMost(actual, r.selected, factor)
    ensures r.regretPercent <= (factor - 1.0) * 100.0
  {
    hide Practical, RegretPercent;
    var best :| IsLeast(actual, best) && best > 0.0 && r.regretPercent == RegretPercent(actual[r.selected], best);
    var fastest :| fastest in actual && actual[fastest] == best;
    RegretOf(actual[r.selected], factor, best);
  }

  lemma RegretOf(latency: real, factor: real, best: real)
    requires best > 0.0 && latency <= factor * best
    ensures RegretPercent(latency, best) <= (factor - 1.0) * 100.0
  {
    ShareBelow(latency, factor, best);
  }

  lemma ShareBelow(x: real, k: real, d: real)
    requires d > 0.0 && x <= k * d
    ensures x / d <= k
  {
    var q := x / d;
    assert q * d == x;
    if q > k { Increase(d, k, q); }
  }

  lemma RegretBound(chosen: real, rival: real, best: real, tie: real, e: real)
    requires 0.0 <= e < 1.0 && tie >= 0.0 && Under(e, chosen) <= Limit(best, tie) && best <= Over(e, rival)
    ensures chosen <= WorstRegret(tie, e) * rival
  {
    var d, k := 1.0 - e, (1.0 + tie) * (1.0 + e);
    hide Times;
    Scales(best, Over(e, rival), 1.0 + tie);
    Reordered(1.0 + e, rival, 1.0 + tie, k);
    Divide(d, chosen, Times(k, rival));
    Quotient(k, rival, d);
  }

  lemma Reordered(x: real, y: real, z: real, k: real)
    requires k == z * x
    ensures Times(Times(x, y), z) == Times(k, y)
  {}

  lemma Quotient(k: real, x: real, d: real)
    requires d > 0.0
    ensures Times(k, x) / d == k / d * x
  {}

  lemma Scales(a: real, b: real, c: real)
    requires a <= b && c > 0.0
    ensures Times(a, c) <= Times(b, c)
  {}

  lemma Divide(d: real, x: real, y: real)
    requires d > 0.0 && Times(d, x) <= y
    ensures x <= y / d
  {
    var q := y / d;
    assert q * d == y;
    if x > q { Increase(d, q, x); }
  }

  lemma Increase(d: real, q: real, x: real)
    requires d > 0.0 && x > q
    ensures d * x > q * d
  {}

  /** No smaller factor would do: two candidates, predicted as badly as allowed, reach the bound. */
  lemma RegretTight(a: string, b: string, tie: real, e: real, rival: real)
    requires a != b && 0.0 <= e < 1.0 && tie >= 0.0 && rival > 0.0
    ensures var chosen := WorstRegret(tie, e) * rival;
            var actual, predicted := map[a := chosen, b := rival], map[a := Under(e, chosen), b := Over(e, rival)];
            Accurate(predicted, actual, e) && Selects(predicted, Some(a), tie, a)
  {
    var chosen := WorstRegret(tie, e) * rival;
    var actual, predicted := map[a := chosen, b := rival], map[a := Under(e, chosen), b := Over(e, rival)];
    TightPoint(tie, e, rival, chosen);
    hide Under, Over, WorstRegret, Limit;
    assert IsLeast(predicted, predicted[b]);
    assert a in Practical(predicted, predicted[b], tie);
  }

  lemma TightPoint(tie: real, e: real, rival: real, chosen: real)
    requires 0.0 <= e < 1.0 && tie >= 0.0 && rival > 0.0 && chosen == WorstRegret(tie, e) * rival
    ensures Under(e, chosen) == Limit(Over(e, rival), tie)
    ensures Limit(Over(e, rival), tie) >= Over(e, rival)
    ensures Under(e, chosen) <= Over(e, chosen) && Under(e, rival) <= Over(e, rival)
  {
    var d, k := 1.0 - e, (1.0 + tie) * (1.0 + e);
    assert k / d * d == k;
    assert d * chosen == k * rival;
    assert (1.0 + e) * rival > 0.0;
    assert k > 0.0 && k / d > 0.0;
    assert e * chosen >= 0.0 && e * rival >= 0.0;
  }

  /** A non-negative fit predicts nothing below zero from non-negative features, so its practical set is never empty. */
  lemma {:induction false} NonNegativeSum(coefficients: seq<(string, real)>, features: map<string, real>)
    requires (forall k | 0 <= k < |coefficients| :: coefficients[k].1 >= 0.0) && forall name | name in features :: features[name] >= 0.0
    ensures WeightedSum(coefficients, features) >= 0.0
  {
    if coefficients != [] {
      NonNegativeSum(coefficients[..|coefficients| - 1], features);
      var (name, coefficient) := coefficients[|coefficients| - 1];
      NonNegativeProduct(FeatureOf(features, name), coefficient);
      hide Times;
    }
  }

  lemma NonNegativeProduct(x: real, y: real)
    requires x >= 0.0 && y >= 0.0
    ensures Times(x, y) >= 0.0
  {}

  lemma {:induction false} NonNegativePredictions(fit: Fit, candidates: seq<Candidate>)
    requires NonNegativeFit(fit)
    requires forall c | c in candidates :: forall name | name in c.features :: c.features[name] >= 0.0
    ensures forall id | id in Predicted(fit, candidates) :: Predicted(fit, candidates)[id] >= 0.0
  {
    if candidates != [] {
      var last := candidates[|candidates| - 1];
      assert last in candidates;
      NonNegativePredictions(fit, candidates[..|candidates| - 1]);
      NonNegativeSum(fit.coefficients, last.features);
    }
  }

  /** With a non-negative fit and a non-negative tie fraction the selection never raises for want of a candidate. */
  lemma PracticalAlways(fit: Fit, candidates: seq<Candidate>, best: real, tie: real)
    requires NonNegativeFit(fit) && tie >= 0.0 && IsLeast(Predicted(fit, candidates), best)
    requires forall c | c in candidates :: forall name | name in c.features :: c.features[name] >= 0.0
    ensures Practical(Predicted(fit, candidates), best, tie) != {}
  {
    NonNegativePredictions(fit, candidates);
    assert best >= 0.0;
    assert best * tie >= 0.0;
    PracticalNonEmpty(Predicted(fit, candidates), best, tie);
  }
}
