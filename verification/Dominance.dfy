/** Pairwise verdicts from confidence intervals, and the candidates no verdict rules out. */
module Dominance {
  import opened Wrappers
  import opened Ordering
  import Cardinality

  datatype Conclusion = LeftMateriallyFaster | LeftMateriallySlower | NoPracticalDominance

  datatype Comparison = Comparison(left: string, right: string, conclusion: Conclusion)

  /** `classify_ratio_interval`. */
  function Classify(lower: real, upper: real, tie: real): Conclusion
    requires tie > -1.0
  {
    if upper < 1.0 / (1.0 + tie) then LeftMateriallyFaster
    else if lower > 1.0 + tie then LeftMateriallySlower
    else NoPracticalDominance
  }

  /** Some comparison says `loser` is materially slower than `winner`. */
  ghost predicate Beats(results: seq<Comparison>, winner: string, loser: string) {
    exists r | r in results ::
      || (r.conclusion == LeftMateriallyFaster && r.left == winner && r.right == loser)
      || (r.conclusion == LeftMateriallySlower && r.left == loser && r.right == winner)
  }

  ghost predicate Dominated(results: seq<Comparison>, id: string) {
    exists winner :: Beats(results, winner, id)
  }

  function Loser(r: Comparison): set<string> {
    match r.conclusion
    case LeftMateriallyFaster => {r.right}
    case LeftMateriallySlower => {r.left}
    case NoPracticalDominance => {}
  }

  function Losers(results: seq<Comparison>): set<string> {
    if results == [] then {} else Losers(results[..|results| - 1]) + Loser(results[|results| - 1])
  }

  lemma {:induction false} LosersDominated(results: seq<Comparison>, id: string)
    ensures id in Losers(results) <==> Dominated(results, id)
  {
    if results != [] {
      var front, last := results[..|results| - 1], results[|results| - 1];
      LosersDominated(front, id);
      assert results == front + [last];
      if id in Losers(front) {
        var winner :| Beats(front, winner, id);
        assert Beats(results, winner, id);
      }
      if id in Loser(last) { assert Beats(results, if last.left == id && last.conclusion == LeftMateriallySlower then last.right else last.left, id); }
      if winner :| Beats(results, winner, id) {
        var r :| r in results && ((r.conclusion == LeftMateriallyFaster && r.left == winner && r.right == id)
                                  || (r.conclusion == LeftMateriallySlower && r.left == id && r.right == winner));
        if r in front { assert Beats(front, winner, id); }
      }
    }
  }

  function Candidates(ids: seq<string>): set<string> {
    set id | id in ids
  }

  /** `confidence_undominated_set`: raises (`None`) exactly when every candidate is dominated. */
  method UndominatedSet(ids: seq<string>, results: seq<Comparison>) returns (r: Option<seq<string>>)
    ensures r.None? <==> forall id | id in ids :: Dominated(results, id)
    ensures r.Some? ==> Increasing(r.value) && forall id :: id in r.value <==> id in ids && !Dominated(results, id)
  {
    var dominated: set<string> := {};
    for k := 0 to |results|
      invariant dominated == Losers(results[..k])
    {
      assert results[..k + 1][..k] == results[..k];
      match results[k].conclusion
      case LeftMateriallyFaster => dominated := dominated + {results[k].right};
      case LeftMateriallySlower => dominated := dominated + {results[k].left};
      case NoPracticalDominance =>
    }
    assert results[..|results|] == results;
    forall id ensures id in dominated <==> Dominated(results, id) { LosersDominated(results, id); }
    hide Dominated;
    var remaining := Candidates(ids) - dominated;
    if remaining == {} {
      forall id | id in ids ensures Dominated(results, id) { assert id in Candidates(ids) && id !in remaining; }
      return None;
    }
    var some :| some in remaining;
    assert some in ids && !Dominated(results, some);
    var sorted := SortKeys(remaining);
    r := Some(sorted);
  }

  // ----- with intervals that cover the truth -----

  /** More than the tie fraction slower. */
  predicate Slower(tie: real, fast: real, slow: real) {
    fast * (1.0 + tie) < slow
  }

  /** The verdict follows from an interval around the ratio of these latencies. */
  ghost predicate Follows(conclusion: Conclusion, left: real, right: real, tie: real)
    requires tie > -1.0 && right > 0.0
  {
    exists lower, upper :: conclusion == Classify(lower, upper, tie) && lower <= left / right <= upper
  }

  ghost predicate Among(ids: seq<string>, results: seq<Comparison>) {
    forall r | r in results :: r.left in ids && r.right in ids
  }

  /** Every comparison among the candidates follows from an interval around the true latency ratio. */
  ghost predicate Covering(ids: seq<string>, results: seq<Comparison>, latency: map<string, real>, tie: real)
    requires tie > -1.0
  {
    && (forall id | id in ids :: id in latency && latency[id] > 0.0)
    && Among(ids, results)
    && (forall r | r in results :: r.left in latency && r.right in latency && latency[r.right] > 0.0
                                   && Follows(r.conclusion, latency[r.left], latency[r.right], tie))
  }

  /** A verdict read off a covering interval is true of the latencies. */
  lemma VerdictTrue(conclusion: Conclusion, left: real, right: real, tie: real)
    requires tie > -1.0 && left > 0.0 && right > 0.0 && Follows(conclusion, left, right, tie)
    ensures conclusion == LeftMateriallyFaster ==> Slower(tie, left, right)
    ensures conclusion == LeftMateriallySlower ==> Slower(tie, right, left)
  {
    var lower, upper :| conclusion == Classify(lower, upper, tie) && lower <= left / right <= upper;
    if conclusion == LeftMateriallyFaster { RatioBelow(left, right, tie); }
    if conclusion == LeftMateriallySlower { RatioAbove(left, right, tie); }
  }

  lemma RatioBelow(a: real, b: real, tie: real)
    requires a > 0.0 && b > 0.0 && tie > -1.0 && a / b < 1.0 / (1.0 + tie)
    ensures a * (1.0 + tie) < b
  {
    var q, k := a / b, 1.0 / (1.0 + tie);
    assert q * b == a && k * (1.0 + tie) == 1.0;
    Scaled(q, k, b);
    assert a < k * b;
    Scaled(a, k * b, 1.0 + tie);
    assert k * b * (1.0 + tie) == k * (1.0 + tie) * b;
  }

  lemma RatioAbove(a: real, b: real, tie: real)
    requires a > 0.0 && b > 0.0 && tie > -1.0 && a / b > 1.0 + tie
    ensures b * (1.0 + tie) < a
  {
    var q := a / b;
    assert q * b == a;
    Scaled(1.0 + tie, q, b);
    assert (1.0 + tie) * b == b * (1.0 + tie);
  }

  lemma Scaled(x: real, y: real, c: real)
    requires x < y && c > 0.0
    ensures x * c < y * c
  {}

  /** A dominated candidate really is more than 1 + tie times slower than the one that dominates it. */
  lemma BeatenIsSlower(ids: seq<string>, results: seq<Comparison>, latency: map<string, real>, tie: real, winner: string, loser: string)
    requires tie > -1.0 && Covering(ids, results, latency, tie) && Beats(results, winner, loser)
    ensures winner in ids && loser in ids && winner in latency && loser in latency && Slower(tie, latency[winner], latency[loser])
  {
    hide Slower, Follows;
    var r :| r in results && ((r.conclusion == LeftMateriallyFaster && r.left == winner && r.right == loser)
                              || (r.conclusion == LeftMateriallySlower && r.left == loser && r.right == winner));
    VerdictTrue(r.conclusion, latency[r.left], latency[r.right], tie);
  }

  ghost predicate Fastest(ids: seq<string>, latency: map<string, real>, id: string)
    requires forall c | c in ids :: c in latency
  {
    id in ids && forall c | c in ids :: latency[id] <= latency[c]
  }

  lemma {:induction false} SomeFastest(ids: seq<string>, latency: map<string, real>) returns (id: string)
    requires ids != [] && forall c | c in ids :: c in latency
    ensures Fastest(ids, latency, id)
  {
    id := ids[0];
    if |ids| > 1 {
      forall c | c in ids[1..] ensures c in ids {}
      var other := SomeFastest(ids[1..], latency);
      assert ids == [ids[0]] + ids[1..];
      if latency[other] < latency[id] { id := other; }
    }
  }

  /** A survivor that is more than 1 + tie times faster. */
  ghost predicate OutrunBySurvivor(ids: seq<string>, results: seq<Comparison>, latency: map<string, real>, tie: real, id: string)
    requires id in latency
  {
    exists survivor :: survivor in ids && survivor in latency && !Dominated(results, survivor) && Slower(tie, latency[survivor], latency[id])
  }

  /** With covering intervals and a non-negative tie fraction: every truly fastest candidate survives, so the set is
      never empty, and whatever is removed is more than 1 + tie times slower than a survivor. */
  lemma DominanceSound(ids: seq<string>, results: seq<Comparison>, latency: map<string, real>, tie: real)
    requires ids != [] && tie >= 0.0 && Covering(ids, results, latency, tie)
    ensures exists id :: id in ids && !Dominated(results, id)
    ensures forall id | Fastest(ids, latency, id) :: !Dominated(results, id)
    ensures forall id | id in ids && Dominated(results, id) :: OutrunBySurvivor(ids, results, latency, tie, id)
  {
    hide Dominated, Slower, Beats;
    forall id | Fastest(ids, latency, id) ensures !Dominated(results, id) {
      FastestSurvives(ids, results, latency, tie, id);
    }
    var first := SomeFastest(ids, latency);
    hide Covering;
    assert first in ids && !Dominated(results, first);
    forall id | id in ids && Dominated(results, id) ensures OutrunBySurvivor(ids, results, latency, tie, id) {
      FirstOutruns(ids, results, latency, tie, first, id);
    }
  }

  lemma FirstOutruns(ids: seq<string>, results: seq<Comparison>, latency: map<string, real>, tie: real, first: string, id: string)
    requires tie >= 0.0 && Covering(ids, results, latency, tie) && Fastest(ids, latency, first) && !Dominated(results, first)
    requires id in ids && Dominated(results, id)
    ensures OutrunBySurvivor(ids, results, latency, tie, id)
  {
    var winner :| Beats(results, winner, id);
    BeatenIsSlower(ids, results, latency, tie, winner, id);
    NoSlower(latency[first], latency[winner], latency[id], tie);
    hide Dominated, Beats, Slower, Covering;
  }

  lemma NoSlower(a: real, b: real, c: real, tie: real)
    requires a <= b && tie >= 0.0 && Slower(tie, b, c)
    ensures Slower(tie, a, c)
  {
    if a < b { Scaled(a, b, 1.0 + tie); }
  }

  lemma FastestSurvives(ids: seq<string>, results: seq<Comparison>, latency: map<string, real>, tie: real, id: string)
    requires tie >= 0.0 && Covering(ids, results, latency, tie) && Fastest(ids, latency, id)
    ensures !Dominated(results, id)
  {
    if winner :| Beats(results, winner, id) {
      BeatenIsSlower(ids, results, latency, tie, winner, id);
      NotFaster(latency[winner], latency[id], tie);
    }
  }

  lemma NotFaster(a: real, b: real, tie: real)
    requires a > 0.0 && tie >= 0.0 && Slower(tie, a, b)
    ensures a < b
  {
    assert tie * a >= 0.0;
    assert a * (1.0 + tie) == a + tie * a;
  }

  // ----- without that assumption -----

  ghost predicate Step(results: seq<Comparison>, path: seq<string>, i: nat) {
    i + 1 < |path| && Beats(results, path[i + 1], path[i])
  }

  /** Each is beaten by the next. */
  ghost predicate Chain(results: seq<Comparison>, path: seq<string>) {
    forall i | 0 <= i < |path| - 1 :: Step(results, path, i)
  }

  lemma WinnerOver(ids: seq<string>, results: seq<Comparison>, loser: string) returns (winner: string)
    requires Among(ids, results) && Dominated(results, loser)
    ensures Beats(results, winner, loser) && winner in ids
  {
    winner :| Beats(results, winner, loser);
  }

  lemma {:induction false} LongChain(ids: seq<string>, results: seq<Comparison>, n: nat) returns (path: seq<string>)
    requires ids != [] && Among(ids, results) && forall id | id in ids :: Dominated(results, id)
    ensures |path| == n + 1 && Chain(results, path) && forall i | 0 <= i < |path| :: path[i] in ids
  {
    hide Dominated, Beats, Among;
    if n == 0 {
      path := [ids[0]];
    } else {
      var shorter := LongChain(ids, results, n - 1);
      var winner := WinnerOver(ids, results, shorter[n - 1]);
      path := shorter + [winner];
      forall i | 0 <= i < |path| - 1 ensures Step(results, path, i) {
        if i + 1 < n { assert Step(results, shorter, i); }
      }
    }
  }

  function Elements(path: seq<string>): set<string> {
    set id | id in path
  }

  lemma {:induction false} AllDifferent(path: seq<string>)
    requires forall i, j | 0 <= i < j < |path| :: path[i] != path[j]
    ensures |Elements(path)| == |path|
  {
    if path != [] {
      var n := |path| - 1;
      AllDifferent(path[..n]);
      assert path == path[..n] + [path[n]];
      assert Elements(path) == Elements(path[..n]) + {path[n]};
    }
  }

  lemma Repeats(path: seq<string>, ids: seq<string>) returns (i: nat, j: nat)
    requires |path| > |Elements(ids)| && forall k | 0 <= k < |path| :: path[k] in ids
    ensures i < j < |path| && path[i] == path[j]
  {
    if forall i, j | 0 <= i < j < |path| :: path[i] != path[j] {
      AllDifferent(path);
      Cardinality.Subset(Elements(path), Elements(ids));
    }
    i, j :| 0 <= i < j < |path| && path[i] == path[j];
  }

  /** If every candidate is dominated, the verdicts go round in a circle: the error's message is right. */
  lemma EmptySetHasCycle(ids: seq<string>, results: seq<Comparison>) returns (cycle: seq<string>)
    requires ids != [] && Among(ids, results) && forall id | id in ids :: Dominated(results, id)
    ensures |cycle| >= 2 && cycle[0] == cycle[|cycle| - 1] && Chain(results, cycle)
  {
    hide Beats, Among, Dominated, Elements;
    var path := LongChain(ids, results, |Elements(ids)|);
    var i, j := Repeats(path, ids);
    cycle := path[i..j + 1];
    forall k | 0 <= k < |cycle| - 1 ensures Step(results, cycle, k) {
      assert Step(results, path, i + k);
    }
  }
}
