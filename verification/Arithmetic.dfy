/** Small facts about products, quotients and remainders. */
module Arithmetic {

  lemma QuotientIs(e: int, q: int, r: int, b: int)
    requires 0 <= r < b && e == q * b + r
    ensures e / b == q && e % b == r
  {
    var d := e / b - q;
    assert d * b == r - e % b;
    SmallMultiple(d, b);
  }

  lemma SmallMultiple(d: int, b: int)
    requires -b < d * b < b
    ensures d == 0
  {
    if d > 0 {
      NonNegative(d - 1, b);
      OneMore(d - 1, b);
    } else if d < 0 {
      NonNegative(-d - 1, b);
      OneMore(d, b);
    }
  }

  lemma RemaindersDiffer(a: nat, b: nat, n: nat)
    requires a < b < a + n
    ensures a % n != b % n
  {
    var q, r := a / n, a % n + (b - a);
    if r < n {
      QuotientIs(b, q, r, n);
    } else {
      QuotientIs(b, q + 1, r - n, n);
    }
  }

  lemma QuotientBelow(e: int, a: int, b: int)
    requires b > 0 && e < a * b
    ensures e / b < a
  {
    var d := a - e / b;
    assert d * b > 0;
    assert d <= 0 ==> d * b <= 0;
  }

  lemma NonNegative(a: int, b: int)
    requires a >= 0 && b >= 0
    ensures a * b >= 0
  {
  }

  lemma Positive(a: int, b: int)
    requires a >= 0 && b >= 0 && a * b > 0
    ensures a > 0 && b > 0
  {
  }

  lemma OneMore(a: int, b: int)
    ensures (a + 1) * b == a * b + b
  {
  }

  lemma PlaceBelow(q: int, a: int, b: int, r: int)
    requires 0 <= q < a && 0 <= r < b
    ensures 0 <= q * b + r < a * b
  {
    NonNegative(a - q - 1, b);
    NonNegative(q, b);
    assert a * b == (a - q - 1) * b + q * b + b;
  }

  function CeilDiv(a: nat, b: nat): nat
    requires b > 0
  {
    (a + b - 1) / b
  }

  lemma CeilDivCovers(a: nat, b: nat)
    requires b > 0
    ensures a <= CeilDiv(a, b) * b < a + b
  {
  }
}
