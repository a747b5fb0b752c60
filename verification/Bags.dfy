/** Row-by-row operators on tables whose row order means nothing. */
module Bags {
  import opened Shuffling

  function FlatMap<T, U>(f: T -> seq<U>, s: seq<T>): seq<U> {
    if s == [] then [] else f(s[0]) + FlatMap(f, s[1..])
  }

  /** First `f`, then `g` on everything it gives. */
  function Then<T, U, V>(f: T -> seq<U>, g: U -> seq<V>): T -> seq<V> {
    x => FlatMap(g, f(x))
  }

  lemma FlatMapOne<T, U>(f: T -> seq<U>, x: T)
    ensures FlatMap(f, [x]) == f(x)
  {
    assert [x][1..] == [];
    assert FlatMap(f, [x]) == f(x) + FlatMap(f, []);
  }

  lemma {:induction false} FlatMapAppend<T, U>(f: T -> seq<U>, a: seq<T>, b: seq<T>)
    ensures FlatMap(f, a + b) == FlatMap(f, a) + FlatMap(f, b)
  {
    if a == [] {
      assert a + b == b;
    } else {
      assert (a + b)[1..] == a[1..] + b;
      FlatMapAppend(f, a[1..], b);
    }
  }

  /** Two passes are one. */
  lemma {:induction false} FlatMapThen<T, U, V>(f: T -> seq<U>, g: U -> seq<V>, s: seq<T>)
    ensures FlatMap(g, FlatMap(f, s)) == FlatMap(Then(f, g), s)
  {
    if s != [] {
      FlatMapAppend(g, f(s[0]), FlatMap(f, s[1..]));
      FlatMapThen(f, g, s[1..]);
    }
  }

  lemma {:induction false} FlatMapSame<T, U>(f: T -> seq<U>, g: T -> seq<U>, s: seq<T>)
    requires forall x | x in s :: f(x) == g(x)
    ensures FlatMap(f, s) == FlatMap(g, s)
  {
    if s != [] {
      assert s[0] in s;
      forall x | x in s[1..] ensures x in s {}
      FlatMapSame(f, g, s[1..]);
    }
  }

  lemma {:induction false} FlatMapNone<T, U>(f: T -> seq<U>, s: seq<T>)
    requires forall x | x in s :: f(x) == []
    ensures FlatMap(f, s) == []
  {
    if s != [] {
      assert s[0] in s;
      forall x | x in s[1..] ensures x in s {}
      FlatMapNone(f, s[1..]);
    }
  }

  lemma {:induction false} FlatMapIdentity<T>(f: T -> seq<T>, s: seq<T>)
    requires forall x | x in s :: f(x) == [x]
    ensures FlatMap(f, s) == s
  {
    if s != [] {
      assert s[0] in s && s == [s[0]] + s[1..];
      forall x | x in s[1..] ensures x in s {}
      FlatMapIdentity(f, s[1..]);
    }
  }

  /** The order of the input shows only in the order of the output. */
  lemma {:induction false} FlatMapPermutes<T, U>(f: T -> seq<U>, s: seq<T>, t: seq<T>)
    requires multiset(s) == multiset(t)
    ensures multiset(FlatMap(f, s)) == multiset(FlatMap(f, t))
    decreases |s|
  {
    SameLength(s, t);
    if s != [] {
      var k := Counterpart(s, t, 0);
      RemoveAt(s, 0);
      RemoveAt(t, k);
      FlatMapWithout(f, s, 0);
      FlatMapWithout(f, t, k);
      hide FlatMap, Without;
      assert |Without(s, 0)| < |s| by { SmallerWithout(s, 0); }
      FlatMapPermutes(f, Without(s, 0), Without(t, k));
    }
  }

  lemma SmallerWithout<T>(s: seq<T>, k: nat)
    requires k < |s|
    ensures |Without(s, k)| == |s| - 1
  {}

  lemma FlatMapWithout<T, U>(f: T -> seq<U>, s: seq<T>, k: nat)
    requires k < |s|
    ensures multiset(FlatMap(f, s)) == multiset(FlatMap(f, Without(s, k))) + multiset(f(s[k]))
  {
    var before, after := s[..k], s[k + 1..];
    assert s == before + ([s[k]] + after);
    FlatMapAppend(f, before, after);
    FlatMapAppend(f, [s[k]], after);
    FlatMapAppend(f, before, [s[k]] + after);
    FlatMapOne(f, s[k]);
  }

  lemma {:induction false} InFlatMap<T, U>(f: T -> seq<U>, s: seq<T>, y: U)
    ensures y in FlatMap(f, s) <==> exists x | x in s :: y in f(x)
  {
    if s != [] {
      InFlatMap(f, s[1..], y);
      assert s == [s[0]] + s[1..];
    }
  }

  // ----- sorted results -----

  predicate Sorted<T>(rank: T -> (real, real), s: seq<T>) {
    forall i, j | 0 <= i < j < |s| :: !Before(rank(s[j]), rank(s[i]))
  }

  predicate Before(a: (real, real), b: (real, real)) {
    a.0 < b.0 || (a.0 == b.0 && a.1 < b.1)
  }

  /** Rows with one sort key are one row. */
  ghost predicate KeyDetermines<T>(rank: T -> (real, real), s: seq<T>) {
    forall x, y | x in s && y in s && rank(x) == rank(y) :: x == y
  }

  /** Then there is one way to sort them. */
  lemma {:induction false} SortedUnique<T>(rank: T -> (real, real), s: seq<T>, t: seq<T>)
    requires Sorted(rank, s) && Sorted(rank, t) && multiset(s) == multiset(t) && KeyDetermines(rank, s)
    ensures s == t
  {
    SameLength(s, t);
    if s != [] {
      hide Sorted, KeyDetermines;
      FirstSame(rank, s, t);
      TailKeeps(rank, s);
      TailKeeps(rank, t);
      SortedUnique(rank, s[1..], t[1..]);
      FirstAndRest(s, t);
    }
  }

  lemma TailKeeps<T>(rank: T -> (real, real), s: seq<T>)
    requires s != [] && Sorted(rank, s)
    ensures Sorted(rank, s[1..]) && multiset(s[1..]) == multiset(s) - multiset{s[0]}
    ensures KeyDetermines(rank, s) ==> KeyDetermines(rank, s[1..])
  {
    assert s == [s[0]] + s[1..];
    forall x | x in s[1..] ensures x in s {}
  }

  lemma FirstSame<T>(rank: T -> (real, real), s: seq<T>, t: seq<T>)
    requires Sorted(rank, s) && Sorted(rank, t) && multiset(s) == multiset(t) && s != [] && t != [] && KeyDetermines(rank, s)
    ensures s[0] == t[0]
  {
    var j := Counterpart(s, t, 0);
    var i := Counterpart(t, s, 0);
    assert t[0] in s && s[0] in s;
    assert !Before(rank(t[j]), rank(t[0])) || j == 0;
    assert !Before(rank(s[i]), rank(s[0])) || i == 0;
  }

  /** Sorting as the engine does it: some arrangement of the rows in key order. */
  method Sort<T>(rank: T -> (real, real), s: seq<T>) returns (sorted: seq<T>)
    ensures Sorted(rank, sorted) && multiset(sorted) == multiset(s)
  {
    sorted := [];
    for n := 0 to |s|
      invariant Sorted(rank, sorted) && multiset(sorted) == multiset(s[..n])
    {
      var k := 0;
      while k < |sorted| && !Before(rank(s[n]), rank(sorted[k]))
        invariant k <= |sorted|
        invariant forall i | 0 <= i < k :: !Before(rank(s[n]), rank(sorted[i]))
      {
        k := k + 1;
      }
      InsertSorted(rank, sorted, s[n], k);
      assert s[..n + 1] == s[..n] + [s[n]];
      sorted := sorted[..k] + [s[n]] + sorted[k..];
    }
    assert s[..|s|] == s;
  }

  lemma InsertSorted<T>(rank: T -> (real, real), sorted: seq<T>, x: T, k: nat)
    requires Sorted(rank, sorted) && k <= |sorted|
    requires forall i | 0 <= i < k :: !Before(rank(x), rank(sorted[i]))
    requires k < |sorted| ==> Before(rank(x), rank(sorted[k]))
    ensures Sorted(rank, sorted[..k] + [x] + sorted[k..])
    ensures multiset(sorted[..k] + [x] + sorted[k..]) == multiset(sorted) + multiset{x}
  {
    assert sorted == sorted[..k] + sorted[k..];
    var longer := sorted[..k] + [x] + sorted[k..];
    forall i, j | 0 <= i < j < |longer| ensures !Before(rank(longer[j]), rank(longer[i])) {
      if i == k { assert longer[j] == sorted[j - 1] && !(j - 1 > k && Before(rank(sorted[j - 1]), rank(sorted[k]))); }
    }
  }
}
