/** Dot products of real vectors, and one-variable quadratics over the non-negative numbers. */
module Vectors {
  type Vector = seq<real>

  function Times(x: real, y: real): real {
    x * y
  }

  function Dot(a: Vector, b: Vector): real
    requires |a| == |b|
  {
    if a == [] then 0.0 else Dot(a[..|a| - 1], b[..|b| - 1]) + Times(a[|a| - 1], b[|b| - 1])
  }

  /** `a + k b`. */
  function AddScaled(a: Vector, k: real, b: Vector): (sum: Vector)
    requires |a| == |b|
    ensures |sum| == |a|
  {
    seq(|a|, i requires 0 <= i < |a| => a[i] + Times(k, b[i]))
  }

  function Ones(n: nat): (ones: Vector)
    ensures |ones| == n
  {
    seq(n, i => 1.0)
  }

  lemma {:induction false} DotCommutes(a: Vector, b: Vector)
    requires |a| == |b|
    ensures Dot(a, b) == Dot(b, a)
  {
    if a != [] { DotCommutes(a[..|a| - 1], b[..|b| - 1]); }
  }

  lemma SameSign(x: real, y: real)
    requires (x > 0.0 && y > 0.0) || (x < 0.0 && y < 0.0)
    ensures Times(x, y) > 0.0
  {}

  lemma SquareSign(x: real)
    ensures Times(x, x) >= 0.0 && (x != 0.0 ==> Times(x, x) > 0.0)
  {
    if x != 0.0 { SameSign(x, x); }
  }

  lemma {:induction false} DotSelf(a: Vector)
    ensures Dot(a, a) >= 0.0
  {
    if a != [] {
      DotSelf(a[..|a| - 1]);
      SquareSign(a[|a| - 1]);
      hide Times;
    }
  }

  /** Only the zero vector has no length. */
  lemma {:induction false} ZeroVector(a: Vector, b: Vector)
    requires |a| == |b| && Dot(a, a) <= 0.0
    ensures Dot(a, b) == 0.0
  {
    if a != [] {
      var n := |a| - 1;
      DotSelf(a[..n]);
      SquareSign(a[n]);
      Annihilates(a[n], b[n]);
      hide Times;
      ZeroVector(a[..n], b[..n]);
    }
  }

  lemma Annihilates(x: real, y: real)
    ensures x == 0.0 ==> Times(x, y) == 0.0
  {}

  lemma Distribute(x: real, k: real, y: real, z: real)
    ensures Times(x + Times(k, y), z) == Times(x, z) + Times(k, Times(y, z))
  {}

  lemma Gather(p: real, q: real, k: real, r: real, s: real)
    ensures p + k * q + (r + k * s) == (p + r) + k * (q + s)
  {}

  lemma AddScaledPrefix(a: Vector, k: real, b: Vector, n: nat)
    requires |a| == |b| && n <= |a|
    ensures AddScaled(a, k, b)[..n] == AddScaled(a[..n], k, b[..n])
  {
    forall i | 0 <= i < n ensures AddScaled(a, k, b)[i] == AddScaled(a[..n], k, b[..n])[i] {
      assert a[..n][i] == a[i] && b[..n][i] == b[i];
    }
  }

  lemma {:induction false} DotLinear(a: Vector, k: real, b: Vector, c: Vector)
    requires |a| == |b| == |c|
    ensures Dot(AddScaled(a, k, b), c) == Dot(a, c) + Times(k, Dot(b, c))
  {
    if a != [] {
      var n := |a| - 1;
      DotLinear(a[..n], k, b[..n], c[..n]);
      AddScaledPrefix(a, k, b, n);
      Distribute(a[n], k, b[n], c[n]);
      Gather(Dot(a[..n], c[..n]), Dot(b[..n], c[..n]), k, Times(a[n], c[n]), Times(b[n], c[n]));
    }
  }

  function Expanded(qq: real, xq: real, xx: real, v: real): real {
    qq - 2.0 * v * xq + v * v * xx
  }

  /** The square of `q - v x`. */
  lemma SquareOf(q: Vector, v: real, x: Vector)
    requires |q| == |x|
    ensures Dot(AddScaled(q, -v, x), AddScaled(q, -v, x)) == Expanded(Dot(q, q), Dot(x, q), Dot(x, x), v)
  {
    var k := -v;
    var d := AddScaled(q, k, x);
    hide AddScaled, Dot, Times, Expanded;
    DotLinear(q, k, x, d);
    DotCommutes(q, d);
    DotLinear(q, k, x, q);
    DotCommutes(x, d);
    DotLinear(q, k, x, x);
    DotCommutes(q, x);
    Square(Dot(q, q), Dot(x, q), Dot(x, x), v, k);
  }

  lemma Square(qq: real, xq: real, xx: real, v: real, k: real)
    requires k == -v
    ensures qq + Times(k, xq) + Times(k, xq + Times(k, xx)) == Expanded(qq, xq, xx, v)
  {}

  /** Updating one entry of a vector. */
  lemma {:induction false} DotUpdate(a: Vector, w: Vector, c: nat, v: real)
    requires |a| == |w| && c < |w|
    ensures Dot(a, w[c := v]) == Dot(a, w) + a[c] * (v - w[c])
  {
    var n := |a| - 1;
    if c == n {
      assert w[c := v][..n] == w[..n];
    } else {
      DotUpdate(a[..n], w[..n], c, v);
      assert w[c := v][..n] == w[..n][c := v];
    }
  }

  // ----- quadratics -----

  function Quadratic(den: real, num: real, v: real): real {
    den * v * v - 2.0 * num * v
  }

  function Max(a: real, b: real): real {
    if a >= b then a else b
  }

  /** Over `v >= 0` the quadratic is least where its slope vanishes, or at zero if that is negative. */
  lemma LeastAt(den: real, num: real, v: real)
    requires den > 0.0 && v >= 0.0
    ensures Quadratic(den, num, Max(0.0, num / den)) <= Quadratic(den, num, v)
  {
    var u := num / den;
    assert num == den * u;
    if u >= 0.0 {
      Completed(den, u, v);
    } else {
      assert num < 0.0 by { Negative(den, u); }
      NoGain(den, num, v);
    }
  }

  /** And it is least nowhere else. */
  lemma LessElsewhere(den: real, num: real, v: real)
    requires den > 0.0 && v >= 0.0 && v != Max(0.0, num / den)
    ensures Quadratic(den, num, Max(0.0, num / den)) < Quadratic(den, num, v)
  {
    var u := num / den;
    assert num == den * u;
    if u >= 0.0 {
      CompletedStrictly(den, u, v);
    } else {
      assert num < 0.0 by { Negative(den, u); }
      Gain(den, num, v);
    }
  }

  lemma CompletedStrictly(den: real, u: real, v: real)
    requires den > 0.0 && u != v
    ensures Quadratic(den, den * u, u) < Quadratic(den, den * u, v)
  {
    var d := v - u;
    SquareSign(d);
    assert d * d > 0.0;
    assert den * (d * d) > 0.0;
    assert Quadratic(den, den * u, v) - Quadratic(den, den * u, u) == den * (d * d);
  }

  lemma Gain(den: real, num: real, v: real)
    requires den > 0.0 && num < 0.0 && v > 0.0
    ensures Quadratic(den, num, 0.0) < Quadratic(den, num, v)
  {
    assert v * v > 0.0;
    assert den * (v * v) > 0.0;
    assert -num * v > 0.0;
    assert Quadratic(den, num, v) == den * (v * v) + 2.0 * (-num * v);
  }

  lemma Negative(den: real, u: real)
    requires den > 0.0 && u < 0.0
    ensures den * u < 0.0
  {}

  lemma Completed(den: real, u: real, v: real)
    requires den > 0.0
    ensures Quadratic(den, den * u, u) <= Quadratic(den, den * u, v)
  {
    var d := v - u;
    assert d * d >= 0.0;
    assert den * (d * d) >= 0.0;
    assert Quadratic(den, den * u, v) - Quadratic(den, den * u, u) == den * (d * d);
  }

  lemma NoGain(den: real, num: real, v: real)
    requires den > 0.0 && num < 0.0 && v >= 0.0
    ensures Quadratic(den, num, 0.0) <= Quadratic(den, num, v)
  {
    assert v * v >= 0.0;
    assert den * (v * v) >= 0.0;
    assert -num * v >= 0.0;
    assert Quadratic(den, num, v) == den * (v * v) + 2.0 * (-num * v);
  }
}
