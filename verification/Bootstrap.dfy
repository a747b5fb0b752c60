/** Interpolated percentiles and the seed-then-round bootstrap of a median latency ratio, for every random draw. */
module Bootstrap {
  import opened Wrappers
  import opened Bags
  import opened Shuffling
  import Dominance

  // ----- percentiles -----

  predicate NonDecreasing(s: seq<real>) {
    forall i, j | 0 <= i < j < |s| :: s[i] <= s[j]
  }

  function Ceil(x: real): int {
    if x.Floor as real == x then x.Floor else x.Floor + 1
  }

  function Blend(a: real, b: real, w: real): real {
    a * (1.0 - w) + b * w
  }

  /** The value at a fractional position of a sorted list, between its two neighbours. */
  function ValueAt(s: seq<real>, position: real): real
    requires s != [] && 0.0 <= position <= (|s| - 1) as real
  {
    var lower, upper := position.Floor, Ceil(position);
    if lower == upper then s[lower]
    else Blend(s[lower], s[upper], position - lower as real)
  }

  function Position(probability: real, n: nat): real {
    probability * (n - 1) as real
  }

  lemma PositionInside(probability: real, n: nat)
    requires 0.0 <= probability <= 1.0 && n > 0
    ensures 0.0 <= Position(probability, n) <= (n - 1) as real
  {
    AtMost(probability, 1.0, (n - 1) as real);
  }

  lemma AtMost(p: real, q: real, k: real)
    requires 0.0 <= p <= q && k >= 0.0
    ensures 0.0 <= p * k <= q * k
  {}

  /** The value at a fractional position, by straight lines between neighbours. */
  ghost predicate AtPosition(s: seq<real>, position: real, v: real) {
    && (forall k | 0 <= k < |s| && k as real == position :: v == s[k])
    && (forall k | 0 <= k < |s| - 1 && k as real <= position <= (k + 1) as real :: v == s[k] + (position - k as real) * (s[k + 1] - s[k]))
  }

  /** The value a fraction of the way through the values in order. */
  ghost predicate Interpolated(values: seq<real>, probability: real, v: real) {
    exists s | NonDecreasing(s) && multiset(s) == multiset(values) :: AtPosition(s, probability * (|s| - 1) as real, v)
  }

  lemma ValueIsAt(s: seq<real>, position: real)
    requires s != [] && 0.0 <= position <= (|s| - 1) as real
    ensures AtPosition(s, position, ValueAt(s, position))
  {
    var v := ValueAt(s, position);
    forall k | 0 <= k < |s| - 1 && k as real <= position <= (k + 1) as real
      ensures v == s[k] + (position - k as real) * (s[k + 1] - s[k])
    {
      BlendIs(s[k], s[k + 1], position - k as real);
      if position.Floor != k { assert position == (k + 1) as real; }
      hide Blend;
    }
  }

  lemma BlendIs(a: real, b: real, w: real)
    ensures Blend(a, b, w) == a + w * (b - a)
    ensures w == 0.0 ==> a + w * (b - a) == a
    ensures w == 1.0 ==> a + w * (b - a) == b
  {}

  lemma ValueInterpolates(s: seq<real>, values: seq<real>, probability: real)
    requires s != [] && NonDecreasing(s) && multiset(s) == multiset(values) && 0.0 <= Position(probability, |s|) <= (|s| - 1) as real
    ensures Interpolated(values, probability, ValueAt(s, Position(probability, |s|)))
  {
    ValueIsAt(s, Position(probability, |s|));
    hide AtPosition, NonDecreasing, ValueAt;
  }

  /** `_percentile`. */
  method Percentile(values: seq<real>, probability: real) returns (r: real)
    requires values != [] && 0.0 <= probability <= 1.0
    ensures 0.0 <= Position(probability, |values|) <= (|values| - 1) as real
    ensures exists s | NonDecreasing(s) && multiset(s) == multiset(values) :: |s| == |values| && r == ValueAt(s, Position(probability, |values|))
    ensures Interpolated(values, probability, r)
  {
    var ordered := Sort((x: real) => (x, 0.0), values);
    SameLength(ordered, values);
    assert NonDecreasing(ordered);
    PositionInside(probability, |values|);
    hide AtPosition, NonDecreasing, Interpolated;
    var position := Position(probability, |values|);
    var lower, upper := position.Floor, Ceil(position);
    if lower == upper {
      r := ordered[lower];
    } else {
      var weight := position - lower as real;
      r := ordered[lower] * (1.0 - weight) + ordered[upper] * weight;
    }
    assert r == ValueAt(ordered, position);
    ValueInterpolates(ordered, values, probability);
  }

  lemma BlendFromEnds(a: real, b: real, w: real, above: real, below: real)
    requires above == (b - a) * w && below == (b - a) * (1.0 - w)
    ensures Blend(a, b, w) == a + above == b - below
  {}

  lemma Between(a: real, b: real, w: real)
    requires a <= b && 0.0 <= w <= 1.0
    ensures a <= Blend(a, b, w) <= b
  {
    hide Blend;
    var d := b - a;
    AtMost(0.0, d, w);
    AtMost(0.0, d, 1.0 - w);
    BlendFromEnds(a, b, w, d * w, d * (1.0 - w));
  }

  lemma Neighbours(s: seq<real>, position: real)
    requires s != [] && 0.0 <= position <= (|s| - 1) as real
    ensures 0 <= position.Floor <= Ceil(position) < |s|
    ensures position.Floor < Ceil(position) ==> Ceil(position) == position.Floor + 1 && 0.0 < position - position.Floor as real < 1.0
  {}

  /** A value lies between the entries at the whole positions around it. */
  lemma BetweenNeighbours(s: seq<real>, position: real)
    requires s != [] && NonDecreasing(s) && 0.0 <= position <= (|s| - 1) as real
    ensures 0 <= position.Floor <= Ceil(position) < |s|
    ensures s[position.Floor] <= ValueAt(s, position) <= s[Ceil(position)]
    ensures s[0] <= ValueAt(s, position) <= s[|s| - 1]
  {
    hide Blend;
    var lower, upper := position.Floor, Ceil(position);
    Neighbours(s, position);
    assert s[0] <= s[lower] <= s[upper] <= s[|s| - 1];
    if lower < upper { Between(s[lower], s[upper], position - lower as real); }
  }

  /** A higher level never gives a lower value. */
  lemma PercentileMonotone(s: seq<real>, p: real, q: real)
    requires s != [] && NonDecreasing(s) && 0.0 <= p <= q <= (|s| - 1) as real
    ensures ValueAt(s, p) <= ValueAt(s, q)
  {
    BetweenNeighbours(s, p);
    BetweenNeighbours(s, q);
    hide Blend;
    if p.Floor == q.Floor {
      if p.Floor as real == q { assert p == q; }
      else if p.Floor as real != p { SameSegment(s[p.Floor], s[p.Floor + 1], p - p.Floor as real, q - p.Floor as real); }
    } else {
      assert Ceil(p) <= q.Floor;
      hide ValueAt;
      assert s[Ceil(p)] <= s[q.Floor];
    }
  }

  lemma SameSegment(a: real, b: real, v: real, w: real)
    requires a <= b && v <= w
    ensures Blend(a, b, v) <= Blend(a, b, w)
  {
    AtMost(0.0, b - a, w - v);
    assert Blend(a, b, w) - Blend(a, b, v) == (b - a) * (w - v);
  }

  // ----- counting -----

  function CountAtMost(values: seq<real>, v: real): nat {
    if values == [] then 0 else CountAtMost(values[..|values| - 1], v) + if values[|values| - 1] <= v then 1 else 0
  }

  function CountAtLeast(values: seq<real>, v: real): nat {
    if values == [] then 0 else CountAtLeast(values[..|values| - 1], v) + if values[|values| - 1] >= v then 1 else 0
  }

  lemma {:induction false} CountsPrefix(s: seq<real>, k: nat, v: real)
    requires k <= |s| && forall i | 0 <= i < k :: s[i] <= v
    ensures CountAtMost(s, v) >= k
  {
    if s != [] {
      var n := |s| - 1;
      CountsPrefix(s[..n], if k <= n then k else n, v);
    }
  }

  lemma {:induction false} CountsSuffix(s: seq<real>, k: nat, v: real)
    requires k <= |s| && forall i | k <= i < |s| :: s[i] >= v
    ensures CountAtLeast(s, v) >= |s| - k
  {
    if k < |s| {
      CountsSuffix(s[..|s| - 1], k, v);
    }
  }

  /** Counting does not depend on the order. */
  lemma {:induction false} CountsOfBag(s: seq<real>, t: seq<real>, v: real)
    requires multiset(s) == multiset(t)
    ensures CountAtMost(s, v) == CountAtMost(t, v) && CountAtLeast(s, v) == CountAtLeast(t, v)
  {
    SameLength(s, t);
    if s != [] {
      var n := |s| - 1;
      var k := WithoutLast(s, t);
      CountsOfBag(s[..n], t[..k] + t[k + 1..], v);
      CountsWithout(t, k, v);
    }
  }

  /** Where the last of one list stands in another with the same elements. */
  lemma WithoutLast(s: seq<real>, t: seq<real>) returns (k: nat)
    requires s != [] && multiset(s) == multiset(t)
    ensures k < |t| && t[k] == s[|s| - 1] && multiset(s[..|s| - 1]) == multiset(t[..k] + t[k + 1..])
  {
    var n, x := |s| - 1, s[|s| - 1];
    assert x in multiset(t);
    k :| 0 <= k < |t| && t[k] == x;
    assert s == s[..n] + [x];
    assert t == t[..k] + [x] + t[k + 1..];
    assert multiset(s) == multiset(s[..n]) + multiset{x};
    assert multiset(t) == multiset(t[..k] + t[k + 1..]) + multiset{x};
    assert multiset(s[..n]) == multiset(s) - multiset{x};
  }

  lemma {:induction false} CountsWithout(t: seq<real>, k: nat, v: real)
    requires k < |t|
    ensures CountAtMost(t, v) == CountAtMost(t[..k] + t[k + 1..], v) + if t[k] <= v then 1 else 0
    ensures CountAtLeast(t, v) == CountAtLeast(t[..k] + t[k + 1..], v) + if t[k] >= v then 1 else 0
  {
    var n := |t| - 1;
    if k == n {
      assert t[..k] + t[k + 1..] == t[..n];
    } else {
      CountsWithout(t[..n], k, v);
      assert (t[..k] + t[k + 1..])[..n - 1] == t[..n][..k] + t[..n][k + 1..];
    }
  }

  /** How many of the values lie on either side of the value at a position. */
  lemma CountsAround(s: seq<real>, values: seq<real>, position: real)
    requires s != [] && NonDecreasing(s) && multiset(s) == multiset(values) && 0.0 <= position <= (|s| - 1) as real
    ensures CountAtMost(values, ValueAt(s, position)) >= position.Floor + 1
    ensures CountAtLeast(values, ValueAt(s, position)) >= |s| - Ceil(position)
  {
    var v := ValueAt(s, position);
    BetweenNeighbours(s, position);
    hide ValueAt;
    forall i | 0 <= i < position.Floor + 1 ensures s[i] <= v { if i < position.Floor { assert s[i] <= s[position.Floor]; } }
    forall i | Ceil(position) <= i < |s| ensures s[i] >= v { if i > Ceil(position) { assert s[Ceil(position)] <= s[i]; } }
    CountsPrefix(s, position.Floor + 1, v);
    CountsSuffix(s, Ceil(position), v);
    CountsOfBag(s, values, v);
  }

  // ----- medians -----

  /** The mean of the two middle values in order, which are one when their number is odd. */
  ghost predicate IsMedian(values: seq<real>, m: real) {
    exists s | NonDecreasing(s) && multiset(s) == multiset(values) :: s != [] && m == (s[(|s| - 1) / 2] + s[|s| / 2]) / 2.0
  }

  /** Not below every value, nor above every value. */
  ghost predicate Within(values: seq<real>, r: real) {
    (exists v | v in values :: v <= r) && (exists v | v in values :: r <= v)
  }

  /** `statistics.median`. */
  method Median(sample: seq<real>) returns (m: real)
    requires sample != []
    ensures IsMedian(sample, m)
    ensures Within(sample, m)
  {
    var ordered := Sort((x: real) => (x, 0.0), sample);
    SameLength(ordered, sample);
    SameElements(ordered, sample);
    assert NonDecreasing(ordered);
    var k := |ordered| / 2;
    m := if |ordered| % 2 == 1 then ordered[k] else (ordered[k - 1] + ordered[k]) / 2.0;
    assert ordered[k] in ordered && (|ordered| % 2 == 0 ==> ordered[k - 1] in ordered && ordered[k - 1] <= ordered[k]);
    assert |ordered| % 2 == 0 ==> ordered[k - 1] <= m <= ordered[k];
    assert (|ordered| - 1) / 2 == if |ordered| % 2 == 1 then k else k - 1;
  }

  // ----- the bootstrap -----

  datatype BootstrapError = NoSeeds | BadLevel | TooFewDraws

  datatype Estimate = Estimate(observed: real, lower: real, upper: real)

  /** Paired log ratios by seed; seeds without any are dropped. */
  type Groups = map<int, seq<real>>

  function Usable(groups: Groups): Groups {
    map seed | seed in groups && groups[seed] != [] :: groups[seed]
  }

  ghost predicate Observed(groups: Groups, v: real) {
    exists seed | seed in groups :: v in groups[seed]
  }

  ghost predicate Monotone(exp: real -> real) {
    forall a, b | a <= b :: exp(a) <= exp(b)
  }

  /** Between the least and the greatest of the ratios. */
  ghost predicate InRange(groups: Groups, exp: real -> real, r: real) {
    (exists v :: Observed(groups, v) && exp(v) <= r) && (exists v :: Observed(groups, v) && r <= exp(v))
  }

  /** The exponential of a median is in range when the sample was drawn from the observations. */
  lemma MedianInRange(groups: Groups, exp: real -> real, sample: seq<real>, m: real)
    requires Monotone(exp) && Within(sample, m) && forall v | v in sample :: Observed(groups, v)
    ensures InRange(groups, exp, exp(m))
  {
    hide Observed;
    var lo :| lo in sample && lo <= m;
    var hi :| hi in sample && m <= hi;
    assert exp(lo) <= exp(m) <= exp(hi);
  }

  lemma HasMember(seeds: set<int>)
    requires seeds != {}
    ensures exists seed: int :: seed in seeds
  {
    assert (forall seed: int :: seed !in seeds) ==> seeds == {};
  }

  /** The seeds in increasing order. */
  ghost predicate SeedsInOrder(ids: seq<int>, seeds: set<int>) {
    (forall i, j | 0 <= i < j < |ids| :: ids[i] < ids[j]) && forall seed :: seed in ids <==> seed in seeds
  }

  function Concat(blocks: seq<seq<real>>): seq<real> {
    if blocks == [] then [] else Concat(blocks[..|blocks| - 1]) + blocks[|blocks| - 1]
  }

  /** The groups of these seeds, one after the other. */
  function GroupsOf(groups: Groups, ids: seq<int>): (blocks: seq<seq<real>>)
    requires forall seed | seed in ids :: seed in groups
  {
    assert forall i | 0 <= i < |ids| :: ids[i] in groups by {
      forall i | 0 <= i < |ids| ensures ids[i] in groups {
        var seed := ids[i];
        assert seed in ids;
      }
    }
    seq(|ids|, i requires 0 <= i < |ids| && ids[i] in groups => groups[ids[i]])
  }

  /** The median of all observations, each counted as often as it was made. */
  ghost predicate IsPooledMedian(groups: Groups, ids: seq<int>, m: real)
    requires forall seed | seed in ids :: seed in groups
  {
    IsMedian(Concat(GroupsOf(groups, ids)), m)
  }

  lemma {:induction false} HasLeast(seeds: set<int>)
    requires seeds != {}
    ensures exists seed: int :: seed in seeds && forall other | other in seeds :: seed <= other
    decreases seeds
  {
    HasMember(seeds);
    var one: int :| one in seeds;
    var rest := seeds - {one};
    if rest == {} {
      assert forall other | other in seeds :: other in rest || other == one;
    } else {
      HasLeast(rest);
      var least: int :| least in rest && forall other | other in rest :: least <= other;
      var seed := if one <= least then one else least;
      assert seed in seeds;
      forall other | other in seeds ensures seed <= other { assert other in rest || other == one; }
    }
  }

  method SortSeeds(seeds: set<int>) returns (ids: seq<int>)
    ensures SeedsInOrder(ids, seeds) && |ids| == |seeds|
  {
    ids := [];
    var left := seeds;
    while left != {}
      invariant left <= seeds && |ids| + |left| == |seeds| && SeedsInOrder(ids, seeds - left)
      invariant forall done, seed | done in ids && seed in left :: done < seed
      decreases left
    {
      HasLeast(left);
      var seed: int :| seed in left && forall other | other in left :: seed <= other;
      forall i | 0 <= i < |ids| ensures ids[i] < seed { assert ids[i] in ids; }
      ids, left := ids + [seed], left - {seed};
    }
    assert seeds - left == seeds;
  }

  lemma {:induction false} InConcat(blocks: seq<seq<real>>, v: real)
    ensures v in Concat(blocks) <==> exists i | 0 <= i < |blocks| :: v in blocks[i]
  {
    if blocks != [] {
      var n := |blocks| - 1;
      InConcat(blocks[..n], v);
      if v in Concat(blocks[..n]) {
        var i :| 0 <= i < n && v in blocks[..n][i];
        assert v in blocks[i];
      }
      if i :| 0 <= i < |blocks| && v in blocks[i] {
        if i < n { assert v in blocks[..n][i]; }
      }
    }
  }

  /** All observations in one list. */
  method Flatten(groups: Groups, ids: seq<int>) returns (all: seq<real>)
    requires SeedsInOrder(ids, groups.Keys)
    ensures all == Concat(GroupsOf(groups, ids))
    ensures forall v :: v in all <==> Observed(groups, v)
  {
    all := [];
    ghost var blocks := GroupsOf(groups, ids);
    for i := 0 to |ids|
      invariant all == Concat(blocks[..i])
    {
      all := all + groups[ids[i]];
      assert blocks[..i + 1][..i] == blocks[..i];
    }
    assert blocks[..|ids|] == blocks;
    forall v ensures v in all <==> Observed(groups, v) {
      InConcat(blocks, v);
      if Observed(groups, v) {
        var seed :| seed in groups && v in groups[seed];
        assert seed in ids;
        var i :| 0 <= i < |ids| && ids[i] == seed;
        assert v in blocks[i];
      }
    }
  }

  // ----- one draw -----

  /** `randrange`: the answer to a call, by its number and the bound it was given. */
  type Random = (nat, nat) -> nat

  ghost predicate Generator(random: Random) {
    forall call, bound | bound > 0 :: random(call, bound) < bound
  }

  /** There are seeds to draw from, and rounds of each. */
  ghost predicate Drawable(groups: Groups, ids: seq<int>, random: Random) {
    Generator(random) && ids != [] && SeedsInOrder(ids, groups.Keys) && forall seed | seed in groups :: groups[seed] != []
  }

  /** One seed, drawn by this call, and as many of its rounds as it has, drawn by the calls after it. */
  ghost predicate IsBlock(groups: Groups, ids: seq<int>, random: Random, call: nat, block: seq<real>)
    requires Drawable(groups, ids, random)
  {
    var seed := ids[random(call, |ids|)];
    assert seed in ids;
    var rounds := groups[seed];
    |block| == |rounds| && forall i | 0 <= i < |block| :: block[i] == rounds[random(call + 1 + i, |rounds|)]
  }

  /** Blocks drawn one after the other, the first by the first of these calls. */
  ghost predicate Blocks(groups: Groups, ids: seq<int>, random: Random, calls: seq<nat>, blocks: seq<seq<real>>)
    requires Drawable(groups, ids, random)
  {
    |calls| == |blocks| + 1
    && forall i | 0 <= i < |blocks| ::
      IsBlock(groups, ids, random, calls[i], blocks[i]) && calls[i + 1] == calls[i] + 1 + |blocks[i]|
  }

  /** One draw: as many blocks as there are seeds. */
  ghost predicate IsDraw(groups: Groups, ids: seq<int>, random: Random, start: nat, sample: seq<real>, stop: nat)
    requires Drawable(groups, ids, random)
  {
    exists calls, blocks | Blocks(groups, ids, random, calls, blocks) ::
      |blocks| == |ids| && calls[0] == start && calls[|blocks|] == stop && sample == Concat(blocks)
  }

  /** The estimate of one draw. */
  ghost predicate IsEstimate(groups: Groups, ids: seq<int>, random: Random, exp: real -> real, start: nat, estimate: real, stop: nat)
    requires Drawable(groups, ids, random)
  {
    exists sample, m | IsDraw(groups, ids, random, start, sample, stop) :: IsMedian(sample, m) && estimate == exp(m)
  }

  /** One estimate per draw, and the draws follow each other. */
  ghost predicate Bootstrapped(groups: Groups, ids: seq<int>, random: Random, exp: real -> real, calls: seq<nat>, estimates: seq<real>)
    requires Drawable(groups, ids, random)
  {
    |calls| == |estimates| + 1 && calls[0] == 0
    && forall n | 0 <= n < |estimates| :: IsEstimate(groups, ids, random, exp, calls[n], estimates[n], calls[n + 1])
  }

  method DrawBlock(groups: Groups, ids: seq<int>, random: Random, call: nat, sample: seq<real>) returns (longer: seq<real>, ghost block: seq<real>)
    requires Drawable(groups, ids, random)
    ensures IsBlock(groups, ids, random, call, block) && longer == sample + block && block != []
    ensures forall v | v in block :: Observed(groups, v)
    ensures |longer| == |sample| + |block|
  {
    var seed := ids[random(call, |ids|)];
    var rounds := groups[seed];
    longer, block := sample, [];
    for i := 0 to |rounds|
      invariant |block| == i && longer == sample + block
      invariant forall j | 0 <= j < i :: block[j] == rounds[random(call + 1 + j, |rounds|)]
    {
      var round := rounds[random(call + 1 + i, |rounds|)];
      longer, block := longer + [round], block + [round];
    }
    forall v | v in block ensures Observed(groups, v) { assert v in groups[seed]; }
  }

  /** One draw, and the number of the next call. */
  method Draw(groups: Groups, ids: seq<int>, random: Random, start: nat) returns (sample: seq<real>, stop: nat)
    requires Drawable(groups, ids, random)
    ensures IsDraw(groups, ids, random, start, sample, stop)
    ensures sample != [] && forall v | v in sample :: Observed(groups, v)
  {
    sample, stop := [], start;
    ghost var calls: seq<nat>, blocks: seq<seq<real>> := [start], [];
    assert ids != [];
    hide Drawable, IsBlock, Observed;
    for slot := 0 to |ids|
      invariant |blocks| == slot && Blocks(groups, ids, random, calls, blocks) && calls[0] == start && calls[slot] == stop
      invariant sample == Concat(blocks) && (slot > 0 ==> sample != [])
      invariant forall v | v in sample :: Observed(groups, v)
    {
      var before := |sample|;
      ghost var block;
      sample, block := DrawBlock(groups, ids, random, stop, sample);
      stop := stop + 1 + (|sample| - before);
      assert (blocks + [block])[..slot] == blocks;
      calls, blocks := calls + [stop], blocks + [block];
    }
  }

  /** One more estimate. */
  method DrawEstimate(groups: Groups, ids: seq<int>, random: Random, exp: real -> real, start: nat) returns (estimate: real, stop: nat)
    requires Drawable(groups, ids, random) && Monotone(exp)
    ensures IsEstimate(groups, ids, random, exp, start, estimate, stop) && InRange(groups, exp, estimate)
  {
    var sample;
    sample, stop := Draw(groups, ids, random, start);
    var m := Median(sample);
    hide IsDraw, IsMedian, Drawable, Observed, Monotone;
    MedianInRange(groups, exp, sample, m);
    estimate := exp(m);
  }

  method DrawEstimates(groups: Groups, ids: seq<int>, random: Random, exp: real -> real, repetitions: nat)
    returns (estimates: seq<real>, ghost calls: seq<nat>)
    requires Drawable(groups, ids, random) && Monotone(exp)
    ensures |estimates| == repetitions && Bootstrapped(groups, ids, random, exp, calls, estimates)
    ensures forall x | x in estimates :: InRange(groups, exp, x)
  {
    hide IsEstimate, Drawable, InRange, Monotone;
    var call := 0;
    estimates, calls := [], [0];
    for n := 0 to repetitions
      invariant |estimates| == n && Bootstrapped(groups, ids, random, exp, calls, estimates) && calls[n] == call
      invariant forall x | x in estimates :: InRange(groups, exp, x)
    {
      var estimate;
      estimate, call := DrawEstimate(groups, ids, random, exp, call);
      estimates, calls := estimates + [estimate], calls + [call];
    }
  }

  /** As many of the estimates as a percentile promises lie on either side of it. */
  ghost predicate Cuts(estimates: seq<real>, probability: real, v: real) {
    var position := probability * (|estimates| - 1) as real;
    CountAtMost(estimates, v) >= position.Floor + 1 && CountAtLeast(estimates, v) >= |estimates| - Ceil(position)
  }

  /** `hierarchical_paired_log_ratio_ci`, whatever the generator answers: one estimate per repetition, each the exponential
      of the median of one draw, and the interval cuts off the same share of them at either end, together what the level
      leaves. It lies between the least and the greatest ratio. */
  method HierarchicalInterval(given: Groups, level: real, repetitions: int, random: Random, exp: real -> real)
    returns (r: Result<Estimate, BootstrapError>, ghost ids: seq<int>, ghost calls: seq<nat>, ghost estimates: seq<real>)
    requires Monotone(exp) && Generator(random)
    ensures r == Error(NoSeeds) <==> Usable(given) == map[]
    ensures r == Error(BadLevel) <==> Usable(given) != map[] && !(0.0 < level < 1.0)
    ensures r == Error(TooFewDraws) <==> Usable(given) != map[] && 0.0 < level < 1.0 && repetitions < 1000
    ensures r.Ok? ==> Drawable(Usable(given), ids, random)
                      && (exists m | IsPooledMedian(Usable(given), ids, m) :: r.value.observed == exp(m))
    ensures r.Ok? ==> |estimates| == repetitions && Bootstrapped(Usable(given), ids, random, exp, calls, estimates)
    ensures r.Ok? ==> Interpolated(estimates, (1.0 - level) / 2.0, r.value.lower) && Interpolated(estimates, (1.0 + level) / 2.0, r.value.upper)
    ensures r.Ok? ==> Cuts(estimates, (1.0 - level) / 2.0, r.value.lower)
                      && Cuts(estimates, (1.0 + level) / 2.0, r.value.upper)
    ensures r.Ok? ==> r.value.lower <= r.value.upper
    ensures r.Ok? ==> InRange(given, exp, r.value.observed) && InRange(given, exp, r.value.lower) && InRange(given, exp, r.value.upper)
  {
    ids, calls, estimates := [], [], [];
    var groups := Usable(given);
    if groups == map[] { return Error(NoSeeds), [], [], []; }
    if !(0.0 < level < 1.0) { return Error(BadLevel), [], [], []; }
    if repetitions < 1000 { return Error(TooFewDraws), [], [], []; }
    hide Observed, Monotone, InRange, IsPooledMedian, Drawable, Bootstrapped, Interpolated, Cuts;
    var e;
    e, ids, calls, estimates := Infer(groups, level, repetitions, random, exp);
    SameRange(given, exp, e.observed);
    SameRange(given, exp, e.lower);
    SameRange(given, exp, e.upper);
    r := Ok(e);
  }

  /** The ends of the interval at this level. */
  method Ends(ghost groups: Groups, ghost exp: real -> real, estimates: seq<real>, level: real) returns (lower: real, upper: real)
    requires estimates != [] && 0.0 < level < 1.0 && forall x | x in estimates :: InRange(groups, exp, x)
    ensures Interpolated(estimates, (1.0 - level) / 2.0, lower) && Interpolated(estimates, (1.0 + level) / 2.0, upper)
    ensures Cuts(estimates, (1.0 - level) / 2.0, lower) && Cuts(estimates, (1.0 + level) / 2.0, upper)
    ensures lower <= upper && InRange(groups, exp, lower) && InRange(groups, exp, upper)
  {
    hide *;
    var alpha := (1.0 - level) / 2.0;
    assert 1.0 - alpha == (1.0 + level) / 2.0;
    lower, upper := Bounds(estimates, alpha);
    RangeBetween(groups, exp, estimates, lower);
    RangeBetween(groups, exp, estimates, upper);
  }

  method Infer(groups: Groups, level: real, repetitions: nat, random: Random, exp: real -> real)
    returns (e: Estimate, ghost ids: seq<int>, ghost calls: seq<nat>, ghost estimates: seq<real>)
    requires Monotone(exp) && Generator(random) && groups != map[] && 0.0 < level < 1.0 && repetitions >= 1000
    requires forall seed | seed in groups :: groups[seed] != []
    ensures Drawable(groups, ids, random) && exists m | IsPooledMedian(groups, ids, m) :: e.observed == exp(m)
    ensures |estimates| == repetitions && Bootstrapped(groups, ids, random, exp, calls, estimates)
    ensures Interpolated(estimates, (1.0 - level) / 2.0, e.lower) && Interpolated(estimates, (1.0 + level) / 2.0, e.upper)
    ensures Cuts(estimates, (1.0 - level) / 2.0, e.lower)
            && Cuts(estimates, (1.0 + level) / 2.0, e.upper)
    ensures e.lower <= e.upper
    ensures InRange(groups, exp, e.observed) && InRange(groups, exp, e.lower) && InRange(groups, exp, e.upper)
  {
    assert groups.Keys != {};
    hide *;
    var seeds := SortSeeds(groups.Keys);
    CanDraw(groups, seeds, random);
    var middle := Observe(groups, seeds, exp);
    var draws;
    draws, calls := DrawEstimates(groups, seeds, random, exp, repetitions);
    var lower, upper := Ends(groups, exp, draws, level);
    ids, estimates := seeds, draws;
    e := Estimate(exp(middle), lower, upper);
  }

  lemma CanDraw(groups: Groups, ids: seq<int>, random: Random)
    requires groups.Keys != {} && Generator(random) && SeedsInOrder(ids, groups.Keys) && forall seed | seed in groups :: groups[seed] != []
    ensures Drawable(groups, ids, random)
  {
    HasMember(groups.Keys);
    var seed: int :| seed in groups.Keys;
    assert seed in ids;
  }

  /** The median of all observations. */
  method Observe(groups: Groups, ids: seq<int>, exp: real -> real) returns (middle: real)
    requires groups.Keys != {} && SeedsInOrder(ids, groups.Keys) && Monotone(exp) && forall seed | seed in groups :: groups[seed] != []
    ensures IsPooledMedian(groups, ids, middle) && InRange(groups, exp, exp(middle))
  {
    var all := Flatten(groups, ids);
    assert exists v :: Observed(groups, v) by {
      HasMember(groups.Keys);
      var seed: int :| seed in groups.Keys;
      assert groups[seed][0] in groups[seed];
      assert Observed(groups, groups[seed][0]);
    }
    middle := Median(all);
    hide Observed, IsMedian;
    MedianInRange(groups, exp, all, middle);
  }

  /** The two percentiles of the estimates. */
  method Bounds(estimates: seq<real>, alpha: real) returns (lower: real, upper: real)
    requires estimates != [] && 0.0 <= alpha <= 0.5
    ensures lower <= upper
    ensures Within(estimates, lower) && Within(estimates, upper)
    ensures Interpolated(estimates, alpha, lower) && Interpolated(estimates, 1.0 - alpha, upper)
    ensures Cuts(estimates, alpha, lower) && Cuts(estimates, 1.0 - alpha, upper)
  {
    lower := Percentile(estimates, alpha);
    upper := Percentile(estimates, 1.0 - alpha);
    var n := |estimates|;
    ghost var s :| NonDecreasing(s) && multiset(s) == multiset(estimates) && |s| == n && lower == ValueAt(s, Position(alpha, n));
    ghost var t :| NonDecreasing(t) && multiset(t) == multiset(estimates) && |t| == n && upper == ValueAt(t, Position(1.0 - alpha, n));
    OneSorting(s, t);
    TwoLevels(s, estimates, alpha);
    CountsAround(s, estimates, Position(alpha, n));
    CountsAround(s, estimates, Position(1.0 - alpha, n));
    hide ValueAt, NonDecreasing, Within, Interpolated, CountAtMost, CountAtLeast;
  }

  lemma LevelsInOrder(a: real, b: real, n: nat)
    requires 0.0 <= a <= b && n > 0
    ensures Position(a, n) <= Position(b, n)
  {
    AtMost(a, b, (n - 1) as real);
  }

  lemma TwoLevels(s: seq<real>, estimates: seq<real>, alpha: real)
    requires s != [] && NonDecreasing(s) && multiset(s) == multiset(estimates) && 0.0 <= alpha <= 0.5
    ensures 0.0 <= Position(alpha, |s|) <= (|s| - 1) as real && 0.0 <= Position(1.0 - alpha, |s|) <= (|s| - 1) as real
    ensures ValueAt(s, Position(alpha, |s|)) <= ValueAt(s, Position(1.0 - alpha, |s|))
    ensures Within(estimates, ValueAt(s, Position(alpha, |s|))) && Within(estimates, ValueAt(s, Position(1.0 - alpha, |s|)))
  {
    PositionInside(alpha, |s|);
    PositionInside(1.0 - alpha, |s|);
    LevelsInOrder(alpha, 1.0 - alpha, |s|);
    var p, q := Position(alpha, |s|), Position(1.0 - alpha, |s|);
    hide ValueAt, NonDecreasing, Within, Position;
    PercentileMonotone(s, p, q);
    ValueWithin(s, p, estimates);
    ValueWithin(s, q, estimates);
  }

  lemma OneSorting(s: seq<real>, t: seq<real>)
    requires NonDecreasing(s) && NonDecreasing(t) && multiset(s) == multiset(t)
    ensures s == t
  {
    SortedUnique((x: real) => (x, 0.0), s, t);
  }

  lemma ValueWithin(s: seq<real>, position: real, values: seq<real>)
    requires s != [] && NonDecreasing(s) && multiset(s) == multiset(values) && 0.0 <= position <= (|s| - 1) as real
    ensures Within(values, ValueAt(s, position))
  {
    BetweenNeighbours(s, position);
    SameElements(s, values);
    assert s[0] in s && s[|s| - 1] in s;
  }

  lemma RangeBetween(groups: Groups, exp: real -> real, estimates: seq<real>, r: real)
    requires Within(estimates, r) && forall x | x in estimates :: InRange(groups, exp, x)
    ensures InRange(groups, exp, r)
  {
    hide Observed;
    var a :| a in estimates && a <= r;
    var b :| b in estimates && r <= b;
    assert InRange(groups, exp, a) && InRange(groups, exp, b);
    var u :| Observed(groups, u) && exp(u) <= a;
    var v :| Observed(groups, v) && b <= exp(v);
    assert exp(u) <= r <= exp(v);
  }

  lemma UsableObserved(given: Groups)
    ensures forall v :: Observed(Usable(given), v) <==> Observed(given, v)
  {
    forall v | Observed(given, v) ensures Observed(Usable(given), v) {
      var seed :| seed in given && v in given[seed];
      assert seed in Usable(given) && v in Usable(given)[seed];
    }
    forall v | Observed(Usable(given), v) ensures Observed(given, v) {
      var seed :| seed in Usable(given) && v in Usable(given)[seed];
      assert seed in given && v in given[seed];
    }
  }

  lemma SameRange(given: Groups, exp: real -> real, r: real)
    requires InRange(Usable(given), exp, r)
    ensures InRange(given, exp, r)
  {
    UsableObserved(given);
    hide Observed;
  }

  // ----- verdicts no draw can change -----

  /** When every paired ratio is above the tie band, the verdict is "left slower", whatever was drawn. */
  lemma AlwaysSlower(groups: Groups, exp: real -> real, e: Estimate, tie: real)
    requires tie >= 0.0 && InRange(groups, exp, e.lower) && e.lower <= e.upper
    requires forall v | Observed(groups, v) :: exp(v) > 1.0 + tie
    ensures Dominance.Classify(e.lower, e.upper, tie) == Dominance.LeftMateriallySlower
  {
    hide Observed;
    var v :| Observed(groups, v) && exp(v) <= e.lower;
    InverseBelow(tie);
  }

  /** When every paired ratio is below the band, it is "left faster". */
  lemma AlwaysFaster(groups: Groups, exp: real -> real, e: Estimate, tie: real)
    requires tie >= 0.0 && InRange(groups, exp, e.upper)
    requires forall v | Observed(groups, v) :: exp(v) < 1.0 / (1.0 + tie)
    ensures Dominance.Classify(e.lower, e.upper, tie) == Dominance.LeftMateriallyFaster
  {
    hide Observed;
    var v :| Observed(groups, v) && e.upper <= exp(v);
  }

  /** When all of them lie in the band, no dominance is ever authorised. */
  lemma NeverDominant(groups: Groups, exp: real -> real, e: Estimate, tie: real)
    requires tie >= 0.0 && InRange(groups, exp, e.lower) && InRange(groups, exp, e.upper)
    requires forall v | Observed(groups, v) :: 1.0 / (1.0 + tie) <= exp(v) <= 1.0 + tie
    ensures Dominance.Classify(e.lower, e.upper, tie) == Dominance.NoPracticalDominance
  {
    hide Observed;
    var u :| Observed(groups, u) && exp(u) <= e.upper;
    var v :| Observed(groups, v) && e.lower <= exp(v);
  }

  lemma InverseBelow(tie: real)
    requires tie >= 0.0
    ensures 1.0 / (1.0 + tie) <= 1.0 + tie
  {
    var k := 1.0 / (1.0 + tie);
    assert k * (1.0 + tie) == 1.0;
    if k > 1.0 { AtMost(1.0, k, 1.0 + tie); }
  }
}
