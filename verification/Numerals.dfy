/** Numbers written in decimal digits. */
module Numerals {
  function Digit(d: nat): char
    requires d < 10
  {
    ('0' as int + d) as char
  }

  function Decimal(n: nat): string {
    if n < 10 then [Digit(n)] else Decimal(n / 10) + [Digit(n % 10)]
  }

  /** The number padded with zeros to at least `width` digits. */
  function Padded(n: nat, width: nat): string
    decreases width - |Decimal(n)|
  {
    if |Decimal(n)| >= width then Decimal(n) else Zeros(width - |Decimal(n)|) + Decimal(n)
  }

  function Zeros(k: nat): string {
    if k == 0 then [] else ['0'] + Zeros(k - 1)
  }

  /** Reads digits back; anything else counts for its distance from `0`. */
  function Reading(s: string): int {
    if s == [] then 0 else Reading(s[..|s| - 1]) * 10 + (s[|s| - 1] as int - '0' as int)
  }

  lemma {:induction false} DecimalReads(n: nat)
    ensures Reading(Decimal(n)) == n
  {
    if n >= 10 {
      DecimalReads(n / 10);
      assert Decimal(n)[..|Decimal(n)| - 1] == Decimal(n / 10);
    } else {
      assert Decimal(n)[..0] == [];
    }
  }

  lemma {:induction false} ZerosRead(k: nat, s: string)
    ensures Reading(Zeros(k) + s) == Reading(s)
    decreases |s|, k
  {
    if s != [] {
      assert (Zeros(k) + s)[..|Zeros(k) + s| - 1] == Zeros(k) + s[..|s| - 1];
      ZerosRead(k, s[..|s| - 1]);
    } else if k > 0 {
      ZerosEnd(k);
      assert (Zeros(k) + [])[..k - 1] == Zeros(k - 1) + [];
      ZerosRead(k - 1, []);
    }
  }

  lemma {:induction false} ZerosEnd(k: nat)
    ensures |Zeros(k)| == k && forall i | 0 <= i < k :: Zeros(k)[i] == '0'
    ensures k > 0 ==> Zeros(k)[..k - 1] == Zeros(k - 1)
  {
    if k > 0 { ZerosEnd(k - 1); }
  }

  lemma PaddedReads(n: nat, width: nat)
    ensures Reading(Padded(n, width)) == n
  {
    DecimalReads(n);
    if |Decimal(n)| < width { ZerosRead(width - |Decimal(n)|, Decimal(n)); }
  }

  lemma {:induction false} OnlyDigits(n: nat)
    ensures forall c | c in Decimal(n) :: '0' <= c <= '9'
  {
    if n >= 10 { OnlyDigits(n / 10); }
  }

  /** What stands before the first separator, and what follows it, are both determined by the whole. */
  lemma {:induction false} FirstSeparator(a: string, x: string, b: string, y: string, separator: char)
    requires a + [separator] + x == b + [separator] + y
    requires separator !in a && separator !in b
    ensures a == b && x == y
  {
    var left, right := a + [separator] + x, b + [separator] + y;
    assert left[0] == if a == [] then separator else a[0];
    assert right[0] == if b == [] then separator else b[0];
    assert left[1..] == if a == [] then x else a[1..] + [separator] + x;
    assert right[1..] == if b == [] then y else b[1..] + [separator] + y;
    if a != [] { FirstSeparator(a[1..], x, b[1..], y, separator); }
  }
}
