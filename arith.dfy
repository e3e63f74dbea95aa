/** Euclidean division facts used to read bit fields back out of packed
    register words. */
module Arith {
  /** Quotient and remainder are determined by any decomposition with the
      remainder in range. */
  lemma DivUnique(v: int, d: int, q: int, r: int)
    requires d > 0 && 0 <= r < d && v == q * d + r
    ensures v / d == q && v % d == r
  {
    var q' := v / d;
    var r' := v % d;
    assert (q' - q) * d == r - r';
    if q' > q {
      MulAtLeast(q' - q, d);
    } else if q' < q {
      MulAtLeast(q - q', d);
    }
  }

  lemma MulAtLeast(a: int, d: int)
    requires a >= 1 && d > 0
    ensures a * d >= d
  {
    assert a * d == (a - 1) * d + d;
  }

  lemma DivMod(x: int, y: int, m: int)
    requires m > 0 && 0 <= y < m
    ensures (x * m + y) / m == x && (x * m + y) % m == y
  {
    DivUnique(x * m + y, m, x, y);
  }

  /** Shifting right by a + b bits is shifting by a, then by b. */
  lemma DivDiv(v: int, a: int, b: int)
    requires a > 0 && b > 0
    ensures v / (a * b) == v / a / b
  {
    var q := v / a / b;
    var s := v / a % b;
    var r := v % a;
    Regroup(q, s, r, a, b);
    Bounded(s, r, a, b);
    DivUnique(v, a * b, q, s * a + r);
  }

  lemma Regroup(q: int, s: int, r: int, a: int, b: int)
    ensures (q * b + s) * a + r == q * (a * b) + (s * a + r)
  {
  }

  lemma Bounded(s: int, r: int, a: int, b: int)
    requires a > 0 && 0 <= s < b && 0 <= r < a
    ensures 0 <= s * a + r < a * b
  {
    MulAtLeast(b - s, a);
    assert a * b - s * a == (b - s) * a;
  }
}
