/** Measurement orders: cyclic rotations, and the Williams design that also balances direct carryover. */
module CarryoverDesign {
  import opened Wrappers
  import opened Shuffling

  // ----- arithmetic modulo the design size -----

  function Shift(column: nat, offset: nat, n: nat): nat
    requires n > 0
  {
    (column + offset) % n
  }

  /** `b - a`, modulo `n`. */
  function Gap(a: nat, b: nat, n: nat): nat
    requires a < n && b < n
  {
    if b >= a then b - a else b - a + n
  }

  lemma ShiftIs(column: nat, offset: nat, n: nat)
    requires column < n && offset < n
    ensures Shift(column, offset, n) == if column + offset < n then column + offset else column + offset - n
  {
    if column + offset >= n {
      assert column + offset == n * 1 + (column + offset - n);
      assert (column + offset) % n == column + offset - n;
    }
  }

  /** A column and a symbol determine the offset that joins them. */
  lemma ShiftGap(column: nat, offset: nat, n: nat, symbol: nat)
    requires column < n && offset < n && symbol < n
    ensures Shift(column, offset, n) == symbol <==> offset == Gap(column, symbol, n)
    ensures Shift(column, offset, n) == symbol <==> column == Gap(offset, symbol, n)
  {
    ShiftIs(column, offset, n);
  }

  /** Two columns meet two symbols at one offset exactly when they are as far apart as the symbols. */
  lemma SameOffset(c: nat, d: nat, i: nat, j: nat, n: nat)
    requires c < n && d < n && i < n && j < n
    ensures Gap(c, i, n) == Gap(d, j, n) <==> Gap(c, d, n) == Gap(i, j, n)
  {}

  // ----- the columns 0, 1, n-1, 2, n-2, ... -----

  function Column(step: nat, n: nat): nat
    requires step < n
  {
    if step == 0 then 0 else if step % 2 == 1 then (step + 1) / 2 else n - step / 2
  }

  /** Where a column value stands, and at which step a modular difference occurs. */
  function PlaceOfColumn(column: nat, n: nat): nat
    requires column < n && n % 2 == 0
  {
    if column == 0 then 0 else if column <= n / 2 then 2 * column - 1 else 2 * (n - column)
  }

  function StepOfGap(gap: nat, n: nat): nat
    requires 0 < gap < n && n % 2 == 0
  {
    if gap % 2 == 1 then gap else n - gap
  }

  /** Each value below an even `n` is a column exactly once. */
  lemma ColumnsOnce(n: nat, step: nat, column: nat)
    requires n % 2 == 0 && step < n && column < n
    ensures Column(step, n) < n
    ensures Column(step, n) == column <==> step == PlaceOfColumn(column, n)
  {}

  /** Each nonzero difference modulo an even `n` occurs between adjacent columns exactly once. */
  lemma GapsOnce(n: nat, step: nat, gap: nat)
    requires n % 2 == 0 && 0 < step < n && 0 < gap < n
    ensures Column(step - 1, n) < n && Column(step, n) < n
    ensures Gap(Column(step - 1, n), Column(step, n), n) == gap <==> step == StepOfGap(gap, n)
  {}

  /** The even size is needed: with three symbols the difference 1 would occur at both steps. */
  lemma OddSizeRepeatsGap()
    ensures Gap(Column(0, 3), Column(1, 3), 3) == Gap(Column(1, 3), Column(2, 3), 3) == 1
  {}

  // ----- one block: every offset once, in any order -----

  predicate Different(s: seq<string>) {
    forall i, j | 0 <= i < j < |s| :: s[i] != s[j]
  }

  function Row(symbols: seq<string>, offset: nat): seq<string> {
    seq(|symbols|, p requires 0 <= p < |symbols| => symbols[Shift(Column(p, |symbols|), offset, |symbols|)])
  }

  function Block(symbols: seq<string>, offsets: seq<nat>): seq<seq<string>> {
    seq(|offsets|, r requires 0 <= r < |offsets| => Row(symbols, offsets[r]))
  }

  /** In one row, symbol `i` stands in one place, given by the offset. */
  lemma RowPlace(symbols: seq<string>, offset: nat, i: nat, p: nat)
    requires |symbols| % 2 == 0 && Different(symbols) && offset < |symbols| && i < |symbols| && p < |symbols|
    ensures Row(symbols, offset)[p] == symbols[i] <==> Column(p, |symbols|) == Gap(offset, i, |symbols|)
    ensures Row(symbols, offset)[p] == symbols[i] <==> offset == Gap(Column(p, |symbols|), i, |symbols|)
  {
    var n := |symbols|;
    ColumnsOnce(n, p, 0);
    hide Column;
    ShiftIs(Column(p, n), offset, n);
    ShiftGap(Column(p, n), offset, n, i);
  }

  predicate Once(row: seq<string>, a: string) {
    exists p | 0 <= p < |row| :: row[p] == a && forall q | 0 <= q < |row| && row[q] == a :: q == p
  }

  lemma OncePerRow(symbols: seq<string>, offset: nat, i: nat)
    requires |symbols| % 2 == 0 && Different(symbols) && offset < |symbols| && i < |symbols|
    ensures Once(Row(symbols, offset), symbols[i])
  {
    var n := |symbols|;
    var column := Gap(offset, i, n);
    forall p | 0 <= p < n ensures Row(symbols, offset)[p] == symbols[i] <==> p == PlaceOfColumn(column, n) {
      RowPlace(symbols, offset, i, p);
      ColumnsOnce(n, p, column);
    }
    assert Row(symbols, offset)[PlaceOfColumn(column, n)] == symbols[i];
  }

  /** The rows of `orders` with `a` at position `p`. */
  ghost function AtPosition(orders: seq<seq<string>>, p: nat, a: string): set<nat> {
    set r | 0 <= r < |orders| && p < |orders[r]| && orders[r][p] == a
  }

  /** The places where `b` comes directly after `a`. */
  ghost function Adjacent(orders: seq<seq<string>>, a: string, b: string): set<(nat, nat)> {
    set r, p | 0 <= r < |orders| && 1 <= p < |orders[r]| && orders[r][p - 1] == a && orders[r][p] == b :: (r, p)
  }

  /** The offsets of a block are some shuffle of 0 .. n-1. */
  ghost predicate IsShuffle(offsets: seq<nat>, n: nat) {
    multiset(offsets) == multiset(Upto(n))
  }

  lemma ShuffleRange(offsets: seq<nat>, n: nat)
    requires IsShuffle(offsets, n)
    ensures |offsets| == n && forall r | 0 <= r < n :: offsets[r] < n
  {
    SameLength(offsets, Upto(n));
    forall r | 0 <= r < n ensures offsets[r] < n {
      var k := Counterpart(offsets, Upto(n), r);
    }
  }

  lemma OncePerPosition(symbols: seq<string>, offsets: seq<nat>, p: nat, i: nat) returns (r: nat)
    requires |symbols| % 2 == 0 && Different(symbols) && IsShuffle(offsets, |symbols|) && p < |symbols| && i < |symbols|
    ensures AtPosition(Block(symbols, offsets), p, symbols[i]) == {r}
  {
    var n := |symbols|;
    ShuffleRange(offsets, n);
    ColumnsOnce(n, p, 0);
    var offset := Gap(Column(p, n), i, n);
    r := PlaceOf(offsets, n, offset);
    forall other | 0 <= other < n ensures Block(symbols, offsets)[other][p] == symbols[i] <==> other == r {
      RowPlace(symbols, offsets[other], i, p);
    }
  }

  /** The step at which symbol `j` follows symbol `i`, and the offset of the row where it does. */
  function StepFor(i: nat, j: nat, n: nat): (step: nat)
    requires n % 2 == 0 && i < n && j < n && i != j
    ensures 0 < step < n
  {
    StepOfGap(Gap(i, j, n), n)
  }

  function OffsetFor(i: nat, j: nat, n: nat): (offset: nat)
    requires n % 2 == 0 && i < n && j < n && i != j
    ensures offset < n
  {
    ColumnsOnce(n, StepFor(i, j, n) - 1, 0);
    Gap(Column(StepFor(i, j, n) - 1, n), i, n)
  }

  lemma AdjacentIndices(n: nat, offset: nat, i: nat, j: nat, p: nat)
    requires n % 2 == 0 && offset < n && i < n && j < n && i != j && 1 <= p < n
    ensures Column(p - 1, n) < n && Column(p, n) < n
    ensures offset == Gap(Column(p - 1, n), i, n) && offset == Gap(Column(p, n), j, n)
            <==> p == StepFor(i, j, n) && offset == OffsetFor(i, j, n)
  {
    GapsOnce(n, p, Gap(i, j, n));
    SameOffset(Column(p - 1, n), Column(p, n), i, j, n);
    hide Column, StepOfGap, Gap;
  }

  lemma AdjacentInRow(symbols: seq<string>, offset: nat, i: nat, j: nat, p: nat)
    requires |symbols| % 2 == 0 && Different(symbols) && offset < |symbols| && i < |symbols| && j < |symbols| && i != j
    requires 1 <= p < |symbols|
    ensures Row(symbols, offset)[p - 1] == symbols[i] && Row(symbols, offset)[p] == symbols[j]
            <==> p == StepFor(i, j, |symbols|) && offset == OffsetFor(i, j, |symbols|)
  {
    AdjacentIndices(|symbols|, offset, i, j, p);
    hide StepFor, OffsetFor, Column, Gap;
    RowPlace(symbols, offset, i, p - 1);
    RowPlace(symbols, offset, j, p);
  }

  predicate FollowsAt(orders: seq<seq<string>>, a: string, b: string, r: nat, p: nat) {
    r < |orders| && 1 <= p < |orders[r]| && orders[r][p - 1] == a && orders[r][p] == b
  }

  lemma OnlyAdjacent(orders: seq<seq<string>>, a: string, b: string, r: nat, p: nat)
    requires forall x: nat, y: nat :: FollowsAt(orders, a, b, x, y) <==> x == r && y == p
    ensures Adjacent(orders, a, b) == {(r, p)}
  {
    assert FollowsAt(orders, a, b, r, p);
    forall x, y | (x, y) in Adjacent(orders, a, b) ensures x == r && y == p {
      assert FollowsAt(orders, a, b, x, y);
    }
  }

  lemma AdjacentOnce(symbols: seq<string>, offsets: seq<nat>, i: nat, j: nat) returns (r: nat, p: nat)
    requires |symbols| % 2 == 0 && Different(symbols) && IsShuffle(offsets, |symbols|) && i < |symbols| && j < |symbols| && i != j
    ensures Adjacent(Block(symbols, offsets), symbols[i], symbols[j]) == {(r, p)}
  {
    var n := |symbols|;
    ShuffleRange(offsets, n);
    p := StepFor(i, j, n);
    r := PlaceOf(offsets, n, OffsetFor(i, j, n));
    var block := Block(symbols, offsets);
    assert |block| == n && forall x | 0 <= x < n :: |block[x]| == n && block[x] == Row(symbols, offsets[x]);
    hide Block, Row, StepFor, OffsetFor, Different, IsShuffle;
    forall x: nat, y: nat ensures FollowsAt(block, symbols[i], symbols[j], x, y) <==> x == r && y == p {
      if x < n && 1 <= y < n { AdjacentInRow(symbols, offsets[x], i, j, y); }
    }
    hide FollowsAt;
    OnlyAdjacent(block, symbols[i], symbols[j], r, p);
  }

  // ----- the whole design -----

  /** Every symbol once per row, `k` times at every position, and `k` times directly after every other symbol. */
  ghost predicate Balanced(symbols: seq<string>, orders: seq<seq<string>>, k: nat) {
    && |orders| == k * |symbols|
    && (forall r | 0 <= r < |orders| :: |orders[r]| == |symbols|)
    && (forall r, a | 0 <= r < |orders| && a in symbols :: Once(orders[r], a))
    && (forall p: nat, a | p < |symbols| && a in symbols :: |AtPosition(orders, p, a)| == k)
    && (forall a, b | a in symbols && b in symbols && a != b :: |Adjacent(orders, a, b)| == k)
  }

  lemma BlockBalanced(symbols: seq<string>, offsets: seq<nat>)
    requires |symbols| % 2 == 0 && Different(symbols) && IsShuffle(offsets, |symbols|)
    ensures Balanced(symbols, Block(symbols, offsets), 1)
  {
    var n, block := |symbols|, Block(symbols, offsets);
    ShuffleRange(offsets, n);
    assert |block| == n && forall r | 0 <= r < n :: block[r] == Row(symbols, offsets[r]) && |block[r]| == n;
    hide Block, Row, IsShuffle, Different, Once, Adjacent, AtPosition;
    forall r, a | 0 <= r < n && a in symbols ensures Once(block[r], a) {
      var i :| 0 <= i < n && symbols[i] == a;
      OncePerRow(symbols, offsets[r], i);
    }
    forall p: nat, a | p < n && a in symbols ensures |AtPosition(block, p, a)| == 1 {
      var i :| 0 <= i < n && symbols[i] == a;
      var r := OncePerPosition(symbols, offsets, p, i);
    }
    forall a, b | a in symbols && b in symbols && a != b ensures |Adjacent(block, a, b)| == 1 {
      var i :| 0 <= i < n && symbols[i] == a;
      var j :| 0 <= j < n && symbols[j] == b;
      var r, p := AdjacentOnce(symbols, offsets, i, j);
    }
  }

  function Later(m: nat, r: nat): nat { r + m }

  function LaterPair(m: nat, q: (nat, nat)): (nat, nat) { (q.0 + m, q.1) }

  ghost function ShiftRows(m: nat, rows: set<nat>): set<nat> {
    set r | r in rows :: Later(m, r)
  }

  ghost function ShiftPairs(m: nat, pairs: set<(nat, nat)>): set<(nat, nat)> {
    set q | q in pairs :: LaterPair(m, q)
  }

  lemma {:induction false} ShiftRowsSize(m: nat, rows: set<nat>)
    ensures |ShiftRows(m, rows)| == |rows|
    decreases |rows|
  {
    if r :| r in rows {
      ShiftRowsSize(m, rows - {r});
      assert ShiftRows(m, rows) == ShiftRows(m, rows - {r}) + {Later(m, r)};
    }
  }

  lemma {:induction false} ShiftPairsSize(m: nat, pairs: set<(nat, nat)>)
    ensures |ShiftPairs(m, pairs)| == |pairs|
    decreases |pairs|
  {
    if q :| q in pairs {
      ShiftPairsSize(m, pairs - {q});
      assert ShiftPairs(m, pairs) == ShiftPairs(m, pairs - {q}) + {LaterPair(m, q)};
    }
  }

  /** Counts over two parts of a design add up. */
  lemma AtPositionAdds(x: seq<seq<string>>, y: seq<seq<string>>, p: nat, a: string)
    ensures |AtPosition(x + y, p, a)| == |AtPosition(x, p, a)| + |AtPosition(y, p, a)|
  {
    var moved := ShiftRows(|x|, AtPosition(y, p, a));
    ShiftRowsSize(|x|, AtPosition(y, p, a));
    forall r | r in AtPosition(x + y, p, a) ensures r in AtPosition(x, p, a) + moved {
      if r >= |x| { assert r - |x| in AtPosition(y, p, a) && r == Later(|x|, r - |x|); }
    }
    assert AtPosition(x + y, p, a) == AtPosition(x, p, a) + moved;
    assert AtPosition(x, p, a) !! moved;
  }

  lemma FollowsInEither(x: seq<seq<string>>, y: seq<seq<string>>, a: string, b: string, r: nat, p: nat)
    ensures FollowsAt(x + y, a, b, r, p) <==> if r < |x| then FollowsAt(x, a, b, r, p) else FollowsAt(y, a, b, r - |x|, p)
  {}

  lemma InAdjacent(orders: seq<seq<string>>, a: string, b: string)
    ensures forall q :: q in Adjacent(orders, a, b) <==> FollowsAt(orders, a, b, q.0, q.1)
    ensures forall q | q in Adjacent(orders, a, b) :: q.0 < |orders|
  {
    forall q ensures q in Adjacent(orders, a, b) <==> FollowsAt(orders, a, b, q.0, q.1) {
      assert q == (q.0, q.1);
    }
  }

  lemma AdjacentAdds(x: seq<seq<string>>, y: seq<seq<string>>, a: string, b: string)
    ensures |Adjacent(x + y, a, b)| == |Adjacent(x, a, b)| + |Adjacent(y, a, b)|
  {
    var all, first, second := Adjacent(x + y, a, b), Adjacent(x, a, b), Adjacent(y, a, b);
    InAdjacent(x + y, a, b);
    InAdjacent(x, a, b);
    InAdjacent(y, a, b);
    hide Adjacent, FollowsAt;
    var moved := ShiftPairs(|x|, second);
    ShiftPairsSize(|x|, second);
    forall q | q in all ensures q in first + moved {
      FollowsInEither(x, y, a, b, q.0, q.1);
      if q.0 >= |x| { assert (q.0 - |x|, q.1) in second && q == LaterPair(|x|, (q.0 - |x|, q.1)); }
    }
    forall q | q in first + moved ensures q in all {
      FollowsInEither(x, y, a, b, q.0, q.1);
      if q in moved {
        var s :| s in second && q == LaterPair(|x|, s);
      }
    }
    assert all == first + moved;
    assert first !! moved;
  }

  lemma BalancedAdds(symbols: seq<string>, x: seq<seq<string>>, y: seq<seq<string>>, j: nat, k: nat)
    requires Balanced(symbols, x, j) && Balanced(symbols, y, k)
    ensures Balanced(symbols, x + y, j + k)
  {
    hide Once, AtPosition, Adjacent;
    forall p: nat, a | p < |symbols| && a in symbols ensures |AtPosition(x + y, p, a)| == j + k { AtPositionAdds(x, y, p, a); }
    forall a, b | a in symbols && b in symbols && a != b ensures |Adjacent(x + y, a, b)| == j + k { AdjacentAdds(x, y, a, b); }
    assert j * |symbols| + k * |symbols| == (j + k) * |symbols|;
  }

  /** The design is a run of `k` blocks, each balanced on its own. */
  ghost predicate Blocks(symbols: seq<string>, orders: seq<seq<string>>, k: nat)
    decreases k
  {
    if k == 0 then orders == []
    else
      var n := |orders| - |symbols|;
      n >= 0 && Blocks(symbols, orders[..n], k - 1) && Balanced(symbols, orders[n..], 1)
  }

  /** Whole blocks make a balanced design. */
  lemma {:induction false} BlocksBalanced(symbols: seq<string>, orders: seq<seq<string>>, k: nat)
    requires Blocks(symbols, orders, k)
    ensures Balanced(symbols, orders, k)
    decreases k
  {
    if k == 0 {
      assert forall p: nat, a :: AtPosition(orders, p, a) == {};
      assert forall a, b :: Adjacent(orders, a, b) == {};
    } else {
      var n := |orders| - |symbols|;
      hide Balanced;
      BlocksBalanced(symbols, orders[..n], k - 1);
      BalancedAdds(symbols, orders[..n], orders[n..], k - 1, 1);
      assert orders == orders[..n] + orders[n..];
    }
  }

  datatype OrderError = TooFew | NotMultiple(size: nat)

  function Barrier(): string { "__trustaero_measurement_barrier__" }

  /** The candidates, with one barrier when their number is odd. */
  function Padded(variants: seq<string>): seq<string> {
    if |variants| % 2 == 1 then variants + [Barrier()] else variants
  }

  method BuildColumns(n: nat) returns (columns: seq<nat>)
    requires n > 0
    ensures |columns| == n && forall p | 0 <= p < n :: columns[p] == Column(p, n)
  {
    columns := [0];
    for step := 1 to n
      invariant |columns| == step && forall p | 0 <= p < step :: columns[p] == Column(p, n)
    {
      columns := columns + [if step % 2 == 1 then (step + 1) / 2 else n - step / 2];
    }
  }

  /** The rows of one block from the columns and the shuffled offsets. */
  method BuildBlock(symbols: seq<string>, columns: seq<nat>, offsets: seq<nat>) returns (block: seq<seq<string>>)
    requires |symbols| > 0 && |columns| == |symbols| && forall p | 0 <= p < |columns| :: columns[p] == Column(p, |symbols|)
    ensures block == Block(symbols, offsets)
  {
    block := [];
    var n := |symbols|;
    for r := 0 to |offsets|
      invariant block == Block(symbols, offsets)[..r]
    {
      var row := seq(n, p requires 0 <= p < n => symbols[(columns[p] + offsets[r]) % n]);
      assert row == Row(symbols, offsets[r]);
      block := block + [row];
    }
  }

  /** `_balanced_carryover_orders`, for every outcome of every shuffle. */
  method BalancedOrders(variants: seq<string>, rounds: nat) returns (r: Result<seq<seq<string>>, OrderError>)
    ensures r.Ok? <==> variants != [] && rounds % |Padded(variants)| == 0
    ensures r.Ok? && Different(Padded(variants)) ==>
              exists symbols | multiset(symbols) == multiset(Padded(variants)) ::
                Blocks(symbols, r.value, rounds / |Padded(variants)|)
  {
    var padded := Padded(variants);
    var n := |padded|;
    if n < 2 { return Error(TooFew); }
    if rounds % n != 0 { return Error(NotMultiple(n)); }
    var symbols := Shuffled(padded);
    var columns := BuildColumns(n);
    if Different(padded) { ShuffledDifferent(padded, symbols); }
    var orders: seq<seq<string>> := [];
    hide Balanced, Different, Block, Column;
    for k := 0 to rounds / n
      invariant Different(padded) ==> Blocks(symbols, orders, k)
    {
      var offsets := Shuffled(Upto(n));
      var block := BuildBlock(symbols, columns, offsets);
      if Different(padded) {
        BlockBalanced(symbols, offsets);
        BlockAppended(symbols, orders, block, k);
      }
      orders := orders + block;
    }
    r := Ok(orders);
  }

  lemma BlockAppended(symbols: seq<string>, orders: seq<seq<string>>, block: seq<seq<string>>, k: nat)
    requires Blocks(symbols, orders, k) && Balanced(symbols, block, 1)
    ensures Blocks(symbols, orders + block, k + 1)
  {
    assert |block| == |symbols|;
    assert (orders + block)[..|orders|] == orders && (orders + block)[|orders|..] == block;
  }

  lemma ShuffledDifferent(s: seq<string>, t: seq<string>)
    requires multiset(s) == multiset(t) && Different(s)
    ensures Different(t)
  {
    forall i, j | 0 <= i < j < |t| ensures t[i] != t[j] {
      if t[i] == t[j] {
        CountedTwice(t, i, j);
        CountedOnce(s, t[i]);
      }
    }
  }

  /** Over the permitted rounds every candidate stands `rounds / n` times at each position and follows each other
      candidate directly `rounds / n` times. */
  lemma DesignBalanced(variants: seq<string>, symbols: seq<string>, orders: seq<seq<string>>, rounds: nat)
    requires variants != [] && rounds % |Padded(variants)| == 0 && Different(Padded(variants))
    requires multiset(symbols) == multiset(Padded(variants))
    requires Blocks(symbols, orders, rounds / |Padded(variants)|)
    ensures |orders| == rounds
    ensures var k := rounds / |Padded(variants)|;
            && (forall r, a | 0 <= r < rounds && a in variants :: Once(orders[r], a))
            && (forall p: nat, a | p < |Padded(variants)| && a in variants :: |AtPosition(orders, p, a)| == k)
            && (forall a, b | a in variants && b in variants && a != b :: |Adjacent(orders, a, b)| == k)
  {
    var k := rounds / |Padded(variants)|;
    BlocksBalanced(symbols, orders, k);
    SameLength(symbols, Padded(variants));
    forall a | a in variants ensures a in symbols {
      assert a in Padded(variants);
      SameElements(symbols, Padded(variants));
    }
    hide Blocks, Once, AtPosition, Adjacent, Padded, Different;
  }

  // ----- plain rotations -----

  /** `_variant_orders` after its shuffle: row `offset` is the base rotated by it. */
  function Rotations(candidates: seq<string>, rounds: nat): seq<seq<string>> {
    seq(rounds, offset => seq(|candidates|, p requires 0 <= p < |candidates| => candidates[(p + offset) % |candidates|]))
  }

  /** Rotations give every candidate one predecessor for good: whatever directly precedes it in one row precedes it in
      every other. */
  lemma RotationsKeepPredecessor(candidates: seq<string>, rounds: nat, r: nat, p: nat, s: nat, q: nat)
    requires Different(candidates) && r < rounds && s < rounds && 1 <= p < |candidates| && 1 <= q < |candidates|
    requires Rotations(candidates, rounds)[r][p] == Rotations(candidates, rounds)[s][q]
    ensures Rotations(candidates, rounds)[r][p - 1] == Rotations(candidates, rounds)[s][q - 1]
  {
    var n := |candidates|;
    assert (p + r) % n == (q + s) % n;
    Previous(p + r, n);
    Previous(q + s, n);
    hide Different;
    assert (p - 1 + r) % n == (q - 1 + s) % n;
  }

  lemma Previous(x: nat, n: nat)
    requires x > 0 && n > 0
    ensures (x - 1) % n == if x % n == 0 then n - 1 else x % n - 1
  {
    var q, m := x / n, x % n;
    assert x == q * n + m;
    if m == 0 {
      assert x - 1 == (q - 1) * n + (n - 1);
      Remainder(q - 1, n - 1, n);
    } else {
      Remainder(q, m - 1, n);
    }
  }

  lemma Remainder(q: int, m: nat, n: nat)
    requires m < n
    ensures (q * n + m) % n == m
  {
    var x := q * n + m;
    assert x == (x / n) * n + x % n;
    var d := x / n - q;
    assert d * n == m - x % n;
    if d > 0 { AtLeast(d, n); } else if d < 0 { AtLeast(-d, n); }
  }

  lemma AtLeast(d: nat, n: nat)
    requires d > 0
    ensures d * n >= n
  {}
}
