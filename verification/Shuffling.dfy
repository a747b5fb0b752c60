/** A random shuffle, every draw left open. */
module Shuffling {
  /** `random.shuffle`: exchanges each position, from the last down, with one at or before it. */
  method Shuffle<T>(list: array<T>)
    modifies list
    ensures multiset(list[..]) == multiset(old(list[..]))
  {
    var i := list.Length;
    while i > 1
      invariant multiset(list[..]) == multiset(old(list[..]))
      decreases i
    {
      i := i - 1;
      var j :| 0 <= j <= i;
      list[i], list[j] := list[j], list[i];
    }
  }

  /** A shuffled copy. */
  method Shuffled<T>(list: seq<T>) returns (shuffled: seq<T>)
    ensures |shuffled| == |list| && multiset(shuffled) == multiset(list)
  {
    var copy := new T[|list|](i requires 0 <= i < |list| => list[i]);
    assert copy[..] == list;
    Shuffle(copy);
    shuffled := copy[..];
    SameLength(shuffled, list);
  }

  lemma SameLength<T>(a: seq<T>, b: seq<T>)
    requires multiset(a) == multiset(b)
    ensures |a| == |b|
  {
    assert |multiset(a)| == |a| && |multiset(b)| == |b|;
  }

  lemma SameElements<T>(a: seq<T>, b: seq<T>)
    requires multiset(a) == multiset(b)
    ensures forall x :: x in a <==> x in b
  {
    forall x ensures x in a <==> x in b {
      assert x in a <==> x in multiset(a);
      assert x in b <==> x in multiset(b);
    }
  }

  /** Where an element of one list stands in a rearrangement of it. */
  lemma Counterpart<T>(a: seq<T>, b: seq<T>, i: nat) returns (j: nat)
    requires multiset(a) == multiset(b) && i < |a|
    ensures j < |b| && b[j] == a[i]
  {
    SameElements(a, b);
    assert a[i] in a;
    j :| 0 <= j < |b| && b[j] == a[i];
  }

  /** A repeated element counts at least twice. */
  lemma CountedTwice<T>(s: seq<T>, i: nat, j: nat)
    requires i < j < |s| && s[i] == s[j]
    ensures multiset(s)[s[i]] >= 2
  {
    assert s == s[..i] + [s[i]] + s[i + 1..j] + [s[j]] + s[j + 1..];
  }

  lemma {:induction false} CountedOnce<T>(s: seq<T>, x: T)
    requires forall i, j | 0 <= i < j < |s| :: s[i] != s[j]
    ensures multiset(s)[x] <= 1
  {
    if s != [] {
      CountedOnce(s[..|s| - 1], x);
      assert s == s[..|s| - 1] + [s[|s| - 1]];
      if x == s[|s| - 1] { assert x !in s[..|s| - 1]; }
    }
  }

  function Upto(n: nat): seq<nat> {
    seq(n, i => i)
  }

  /** In a shuffled list of 0 .. n-1 every number has one place. */
  lemma PlaceOf(shuffled: seq<nat>, n: nat, k: nat) returns (r: nat)
    requires multiset(shuffled) == multiset(Upto(n)) && k < n
    ensures r < |shuffled| && shuffled[r] == k
    ensures forall other | 0 <= other < |shuffled| && shuffled[other] == k :: other == r
  {
    SameLength(shuffled, Upto(n));
    r := Counterpart(Upto(n), shuffled, k);
    CountedOnce(Upto(n), k);
    forall other | 0 <= other < |shuffled| && shuffled[other] == k ensures other == r {
      if other < r { CountedTwice(shuffled, other, r); } else if r < other { CountedTwice(shuffled, r, other); }
    }
  }

  function Without<T>(s: seq<T>, k: nat): seq<T>
    requires k < |s|
  {
    s[..k] + s[k + 1..]
  }

  lemma RemoveAt<T>(s: seq<T>, k: nat)
    requires k < |s|
    ensures multiset(Without(s, k)) == multiset(s) - multiset{s[k]}
  {
    assert s == s[..k] + [s[k]] + s[k + 1..];
  }

  lemma FirstAndRest<T>(s: seq<T>, t: seq<T>)
    requires s != [] && t != [] && s[0] == t[0] && s[1..] == t[1..]
    ensures s == t
  {
    assert s == [s[0]] + s[1..] && t == [t[0]] + t[1..];
  }
}
