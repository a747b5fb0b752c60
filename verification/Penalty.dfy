/** Legality by hard pruning against legality by a soft penalty. */
module Penalty {
  import opened Wrappers
  import opened Ordering
  import opened CostSelection

  datatype PenaltyError = NegativePenalty | NothingToChoose

  function Penalised(predicted: map<string, real>, legal: set<string>, penalty: real): map<string, real> {
    map id | id in predicted :: predicted[id] + if id in legal then 0.0 else penalty
  }

  /** `id` has the least `(value, id)` among `ids`. */
  ghost predicate IsChoice(values: map<string, real>, ids: set<string>, id: string)
    requires ids <= values.Keys
  {
    id in ids && forall other | other in ids :: Prefers(values, id, other)
  }

  /** `select_soft_penalty`. */
  method SelectSoft(predicted: map<string, real>, legal: set<string>, penalty: real) returns (r: Result<string, PenaltyError>)
    ensures r == Error(NegativePenalty) <==> penalty < 0.0
    ensures r == Error(NothingToChoose) <==> penalty >= 0.0 && (predicted == map[] || legal == {})
    ensures r.Ok? ==> IsChoice(Penalised(predicted, legal, penalty), predicted.Keys, r.value)
  {
    if penalty < 0.0 { return Error(NegativePenalty); }
    if predicted == map[] || legal == {} { return Error(NothingToChoose); }
    var values := Penalised(predicted, legal, penalty);
    assert values.Keys == predicted.Keys;
    assert predicted.Keys == {} ==> predicted == map[];
    var chosen := LeastMember(values, predicted.Keys);
    r := Ok(chosen);
  }

  /** The values of these candidates. */
  function Restrict(values: map<string, real>, ids: set<string>): map<string, real> {
    map id | id in values && id in ids :: values[id]
  }

  function Max(a: real, b: real): real {
    if a >= b then a else b
  }

  /** How far the best illegal candidate undercuts the best legal one. */
  ghost predicate IsThreshold(predicted: map<string, real>, legal: set<string>, threshold: real) {
    if predicted.Keys <= legal then threshold == 0.0
    else
      exists bestLegal, bestIllegal ::
        && IsLeast(Restrict(predicted, legal), bestLegal) && IsLeast(Restrict(predicted, predicted.Keys - legal), bestIllegal)
        && threshold == Max(0.0, bestLegal - bestIllegal)
  }

  /** `minimum_strict_penalty_ms`; every legal candidate has a prediction. */
  method MinimumStrictPenalty(predicted: map<string, real>, legal: set<string>) returns (threshold: real)
    requires legal <= predicted.Keys && legal != {}
    ensures IsThreshold(predicted, legal, threshold)
  {
    var illegal := predicted.Keys - legal;
    if illegal == {} {
      assert forall id | id in predicted.Keys :: id !in illegal;
      return 0.0;
    }
    var some :| some in legal;
    assert some in Restrict(predicted, legal);
    var other :| other in illegal;
    assert other in Restrict(predicted, illegal);
    var bestLegal := Least(Restrict(predicted, legal));
    var bestIllegal := Least(Restrict(predicted, illegal));
    threshold := Max(0.0, bestLegal - bestIllegal);
  }

  // ----- the threshold is tight on both sides -----

  /** The candidates the threshold compares. */
  lemma BestPair(predicted: map<string, real>, legal: set<string>, threshold: real) returns (l: string, i: string)
    requires legal <= predicted.Keys && legal != {} && !(predicted.Keys <= legal) && IsThreshold(predicted, legal, threshold)
    ensures l in legal && i in predicted && i !in legal && threshold == Max(0.0, predicted[l] - predicted[i])
    ensures forall id | id in legal :: predicted[l] <= predicted[id]
    ensures forall id | id in predicted && id !in legal :: predicted[i] <= predicted[id]
  {
    var restricted, others := Restrict(predicted, legal), Restrict(predicted, predicted.Keys - legal);
    var bestLegal, bestIllegal :|
      IsLeast(restricted, bestLegal) && IsLeast(others, bestIllegal) && threshold == Max(0.0, bestLegal - bestIllegal);
    l :| l in restricted && restricted[l] == bestLegal;
    i :| i in others && others[i] == bestIllegal;
    assert forall id | id in legal :: id in restricted;
    assert forall id | id in predicted && id !in legal :: id in others;
  }

  /** The program's penalty is exact: off the threshold itself, the soft choice is legal exactly above it, and there it
      is the hard, legality-first choice. */
  lemma ThresholdExact(predicted: map<string, real>, legal: set<string>, penalty: real, threshold: real, soft: string, hard: string)
    requires legal <= predicted.Keys && legal != {} && IsThreshold(predicted, legal, threshold)
    requires penalty >= 0.0 && penalty != threshold
    requires IsChoice(Penalised(predicted, legal, penalty), predicted.Keys, soft) && IsChoice(predicted, legal, hard)
    ensures soft in legal <==> penalty > threshold
    ensures penalty > threshold ==> soft == hard
  {
    var values := Penalised(predicted, legal, penalty);
    if !(predicted.Keys <= legal) {
      var l, i := BestPair(predicted, legal, threshold);
      assert Prefers(values, soft, l) && Prefers(values, soft, i);
    }
    if soft in legal {
      assert Prefers(values, soft, hard) && Prefers(predicted, hard, soft);
      LessNotBoth(soft, hard);
    }
  }

  lemma LessNotBoth(a: string, b: string)
    ensures !(Less(a, b) && Less(b, a))
  {
    if Less(a, b) && Less(b, a) {
      LessTransitive(a, b, a);
      LessIrreflexive(a);
    }
  }

  /** No finite penalty is safe for every query: here the soft choice is illegal although a legal candidate exists. */
  lemma NoPenaltySuffices(penalty: real, a: string, b: string)
    requires penalty >= 0.0 && a != b
    ensures var predicted := map[a := penalty + 1.0, b := 0.0];
            IsChoice(Penalised(predicted, {a}, penalty), predicted.Keys, b)
  {}
}
