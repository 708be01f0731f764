/** Facts about multiplication, division and remainder that the solver needs spelled out. */
module Arith {

  /** Number of values of an unsigned 64-bit integer. */
  const WORD := 0x1_0000_0000_0000_0000

  /** Number of values of an unsigned 32-bit integer. */
  const WRAP := 0x1_0000_0000

  /** The largest 32-bit integer. */
  const MAX_SIZE := 0x7fffffff

  function Least(a: int, b: int): int {
    if a <= b then a else b
  }

  function Most(a: int, b: int): int {
    if a >= b then a else b
  }

  lemma MulLe(a: int, b: int, c: int)
    requires a <= b && c >= 0
    ensures a * c <= b * c
  {
    assert (b - a) * c >= 0;
    assert (b - a) * c == b * c - a * c;
  }

  /** Quotient and remainder are determined by their defining equation. */
  lemma DivModUnique(a: int, f: int, q: int, r: int)
    requires f > 0 && a == q * f + r && 0 <= r < f
    ensures a / f == q && a % f == r
  {
    var d, m := a / f, a % f;
    assert a == d * f + m;
    if d < q {
      MulLe(d + 1, q, f);
    } else if d > q {
      MulLe(q + 1, d, f);
    }
  }

  lemma DivMonotone(a: int, b: int, f: int)
    requires f > 0 && a <= b
    ensures a / f <= b / f
  {
    var d, e := a / f, b / f;
    assert a == d * f + a % f && b == e * f + b % f;
    if d > e {
      MulLe(e + 1, d, f);
    }
  }

  lemma DivTimesLe(a: int, f: int)
    requires f > 0
    ensures a / f * f <= a < a / f * f + f
  {
    assert a == a / f * f + a % f;
  }

  lemma DivSuperadditive(a: int, b: int, f: int)
    requires f > 0
    ensures a / f + b / f <= (a + b) / f
  {
    var q := a / f + b / f;
    DivTimesLe(a, f);
    DivTimesLe(b, f);
    assert q * f == a / f * f + b / f * f;
    DivModUnique(q * f, f, q, 0);
    DivMonotone(q * f, a + b, f);
  }

  /** b <= a / f exactly when b * f <= a. */
  lemma DivGalois(a: int, b: int, f: int)
    requires f > 0
    ensures b <= a / f <==> b * f <= a
  {
    DivTimesLe(a, f);
    if b <= a / f {
      MulLe(b, a / f, f);
    } else {
      MulLe(a / f + 1, b, f);
      assert (a / f + 1) * f == a / f * f + f;
    }
  }
}
