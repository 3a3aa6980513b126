/** Base-256 numerals: fixed-width little-endian words and minimal big-endian
    byte strings. */
module Numerals {
  import opened Types

  /** The n lowest base-256 digits of u, least significant first. */
  function LittleEndian(u: nat, n: nat): (r: bytes)
    ensures |r| == n
    decreases n, u
  {
    if n == 0 then [] else [u % 256] + LittleEndian(u / 256, n - 1)
  }

  function FromLittleEndian(b: bytes): nat {
    if b == [] then 0 else b[0] + 256 * FromLittleEndian(b[1..])
  }

  function Pow256(n: nat): (r: nat)
    ensures r > 0
  {
    if n == 0 then 1 else 256 * Pow256(n - 1)
  }

  lemma {:induction false} LittleEndianRoundTrip(u: nat, n: nat)
    requires u < Pow256(n)
    ensures FromLittleEndian(LittleEndian(u, n)) == u
    decreases n
  {
    if n > 0 {
      LittleEndianRoundTrip(u / 256, n - 1);
    }
  }

  lemma {:induction false} FromLittleEndianBound(b: bytes)
    ensures FromLittleEndian(b) < Pow256(|b|)
  {
    if b != [] {
      FromLittleEndianBound(b[1..]);
    }
  }

  /** The digits of c without leading zeros, most significant first; zero is empty. */
  function BigEndian(c: nat): bytes {
    if c == 0 then [] else BigEndian(c / 256) + [c % 256]
  }

  /** big.Int.SetBytes. */
  function FromBigEndian(b: bytes): nat {
    if b == [] then 0 else FromBigEndian(b[..|b| - 1]) * 256 + b[|b| - 1]
  }

  lemma {:induction false} BigEndianRoundTrip(c: nat)
    ensures FromBigEndian(BigEndian(c)) == c
  {
    if c > 0 {
      BigEndianRoundTrip(c / 256);
      assert BigEndian(c)[..|BigEndian(c)| - 1] == BigEndian(c / 256);
    }
  }

  lemma {:induction false} BigEndianLength(c: nat, k: nat)
    requires c < Pow256(k)
    ensures |BigEndian(c)| <= k
    decreases k
  {
    if c > 0 {
      BigEndianLength(c / 256, k - 1);
    }
  }

  function Reverse(b: bytes): (r: bytes)
    ensures |r| == |b|
  {
    if b == [] then [] else Reverse(b[1..]) + [b[0]]
  }

  /** Little-endian digits with a nonzero top digit are the reverse of the minimal big-endian form. */
  lemma {:induction false} BigEndianIsReverse(b: bytes)
    requires b == [] || b[|b| - 1] != 0
    ensures BigEndian(FromLittleEndian(b)) == Reverse(b)
  {
    if b != [] {
      var rest := b[1..];
      BigEndianIsReverse(rest);
      var c := FromLittleEndian(b);
      assert c == b[0] + 256 * FromLittleEndian(rest);
      assert c / 256 == FromLittleEndian(rest) && c % 256 == b[0];
      if rest != [] {
        TopDigitPositive(rest);
      }
      assert c > 0;
    }
  }

  lemma {:induction false} TopDigitPositive(b: bytes)
    requires b != [] && b[|b| - 1] != 0
    ensures FromLittleEndian(b) > 0
  {
    if |b| > 1 {
      TopDigitPositive(b[1..]);
    }
  }

  // ---------------------------------------------------------------- quotients

  lemma Scales(a: nat, b: nat, n: nat)
    requires a <= b
    ensures a * n <= b * n
  {
  }

  lemma QuotientBounds(a: nat, n: nat)
    requires n > 0
    ensures a / n * n <= a < (a / n + 1) * n
  {
    assert a == a / n * n + a % n;
  }

  /** A quotient is known by its bounds. */
  lemma QuotientIs(a: nat, n: nat, q: nat)
    requires n > 0 && q * n <= a < (q + 1) * n
    ensures a / n == q
  {
    var r := a / n;
    QuotientBounds(a, n);
    if r < q {
      Scales(r + 1, q, n);
    } else if r > q {
      Scales(q + 1, r, n);
    }
  }

  lemma QuotientAtLeast(a: nat, n: nat, q: nat)
    requires n > 0 && q * n <= a
    ensures q <= a / n
  {
    QuotientBounds(a, n);
    if a / n < q {
      Scales(a / n + 1, q, n);
    }
  }

  lemma {:induction false} NestedFloors(a: nat, b: nat, c: nat)
    requires b > 0 && c > 0
    ensures b * c > 0 && a / b / c == a / (b * c)
  {
    var p := a / b;
    var q := p / c;
    QuotientBounds(a, b);
    QuotientBounds(p, c);
    Scales(q * c, p, b);
    Scales(p + 1, (q + 1) * c, b);
    Reorder(q, b, c);
    Reorder(q + 1, b, c);
    Scales(1, b, c);
    QuotientIs(a, b * c, q);
  }

  lemma Reorder(q: nat, b: nat, c: nat)
    ensures q * c * b == q * (b * c)
  {
  }

  lemma {:induction false} QuotientFalls(a: nat, m: nat, n: nat)
    requires 0 < m <= n
    ensures a / n <= a / m
  {
    QuotientBounds(a, n);
    Scales(m, n, a / n);
    QuotientAtLeast(a, m, a / n);
  }
}
