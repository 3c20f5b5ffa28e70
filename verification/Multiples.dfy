/** Multiples, greatest common divisors and least common multiples. */
module Multiples {
  import opened Arithmetic

  predicate Multiple(x: int, d: int)
    requires d > 0
  {
    x % d == 0
  }

  lemma MultipleIs(x: int, d: int, k: int)
    requires d > 0 && x == k * d
    ensures Multiple(x, d)
  {
    QuotientIs(x, k, 0, d);
  }

  lemma MultipleSum(x: int, y: int, d: int)
    requires d > 0 && Multiple(x, d) && Multiple(y, d)
    ensures Multiple(x + y, d) && Multiple(x - y, d)
  {
    var i, j := x / d, y / d;
    assert x == i * d && y == j * d;
    assert x + y == (i + j) * d && x - y == (i - j) * d;
    MultipleIs(x + y, d, i + j);
    MultipleIs(x - y, d, i - j);
  }

  lemma MultipleTimes(x: int, d: int, k: int)
    requires d > 0 && Multiple(x, d)
    ensures Multiple(k * x, d)
  {
    var i := x / d;
    assert x == i * d;
    assert k * x == (k * i) * d;
    MultipleIs(k * x, d, k * i);
  }

  lemma MultipleTrans(x: int, d: int, e: int)
    requires d > 0 && e > 0 && Multiple(x, d) && Multiple(d, e)
    ensures Multiple(x, e)
  {
    var i := x / d;
    assert x == i * d;
    MultipleTimes(d, e, i);
  }

  function Gcd(a: nat, b: nat): nat
    decreases b
  {
    if b == 0 then a else Gcd(b, a % b)
  }

  lemma {:induction false} GcdDivides(a: nat, b: nat)
    requires a > 0 || b > 0
    ensures Gcd(a, b) > 0 && Multiple(a, Gcd(a, b)) && Multiple(b, Gcd(a, b))
    decreases b
  {
    if b == 0 {
      MultipleIs(a, a, 1);
      MultipleIs(0, a, 0);
    } else {
      GcdDivides(b, a % b);
      var g, q := Gcd(b, a % b), a / b;
      MultipleTimes(b, g, q);
      MultipleSum(q * b, a % b, g);
      assert a == q * b + a % b;
    }
  }

  /** The greatest common divisor is a combination of the two numbers. */
  lemma {:induction false} GcdCombines(a: nat, b: nat) returns (s: int, t: int)
    ensures Gcd(a, b) == s * a + t * b
    decreases b
  {
    if b == 0 {
      s, t := 1, 0;
    } else {
      var u, v := GcdCombines(b, a % b);
      var q := a / b;
      s, t := v, u - v * q;
      Recombines(a, b, q, a % b, u, v);
    }
  }

  lemma Recombines(a: int, b: int, q: int, rest: int, u: int, v: int)
    requires a == q * b + rest
    ensures u * b + v * rest == v * a + (u - v * q) * b
  {
    assert v * a == v * (q * b) + v * rest;
    assert (u - v * q) * b == u * b - v * (q * b);
  }

  /** The common divisors of two numbers are the divisors of their greatest common divisor. */
  lemma GcdGreatest(a: nat, b: nat, d: nat)
    requires d > 0
    ensures Multiple(Gcd(a, b), d) <==> Multiple(a, d) && Multiple(b, d)
  {
    hide Multiple, Gcd;
    if Multiple(a, d) && Multiple(b, d) {
      var s, t := GcdCombines(a, b);
      MultipleTimes(a, d, s);
      MultipleTimes(b, d, t);
      MultipleSum(s * a, t * b, d);
    }
    if Multiple(Gcd(a, b), d) {
      if a > 0 || b > 0 {
        GcdDivides(a, b);
        MultipleTrans(a, Gcd(a, b), d);
        MultipleTrans(b, Gcd(a, b), d);
      } else {
        MultipleIs(0, d, 0);
      }
    }
  }

  function Lcm(a: nat, b: nat): nat
    requires a > 0 && b > 0
  {
    GcdDivides(a, b);
    a / Gcd(a, b) * b
  }

  lemma LcmIs(a: nat, b: nat)
    requires a > 0 && b > 0
    ensures Lcm(a, b) > 0 && Multiple(Lcm(a, b), a) && Multiple(Lcm(a, b), b)
  {
    GcdDivides(a, b);
    var g := Gcd(a, b);
    var i, j := a / g, b / g;
    assert a == i * g && b == j * g;
    Positive(i, g);
    MultipleIs(i * b, b, i);
    Regroup(i, j, g);
    MultipleIs(i * b, a, j);
    Product(i, b);
  }

  lemma Product(a: nat, b: nat)
    requires a > 0 && b > 0
    ensures a * b > 0
  {
  }

  lemma Regroup(i: int, j: int, g: int)
    ensures i * (j * g) == j * (i * g)
  {
  }

  lemma Exchange(x: int, y: int, z: int, w: int)
    ensures (x * y) * (z * w) == (x * z) * (w * y)
  {
    assert (x * y) * (z * w) == x * (y * (z * w));
    assert y * (z * w) == z * (w * y);
    assert x * (z * (w * y)) == (x * z) * (w * y);
  }

  /** Every common multiple is a multiple of the least one. */
  lemma LcmLeast(a: nat, b: nat, m: nat)
    requires a > 0 && b > 0 && Multiple(m, a) && Multiple(m, b)
    ensures Lcm(a, b) > 0 && Multiple(m, Lcm(a, b))
  {
    hide Gcd, Multiple;
    LcmIs(a, b);
    GcdDivides(a, b);
    var s, t := GcdCombines(a, b);
    var g := Gcd(a, b);
    var i, k, l := Quotient(a, g), Quotient(m, a), Quotient(m, b);
    var c := l * s + k * t;
    CommonTimes(a, b, m, s, t, k, l);
    RegroupLcm(c, i, g, b);
    Cancels(m, c * (i * b), g);
    MultipleIs(m, i * b, c);
  }

  function Quotient(x: int, d: int): (q: int)
    requires d > 0 && Multiple(x, d)
    ensures x == q * d && q == x / d
  {
    x / d
  }

  lemma CommonTimes(a: int, b: int, m: int, s: int, t: int, k: int, l: int)
    requires m == k * a && m == l * b
    ensures m * (s * a + t * b) == (l * s + k * t) * (a * b)
  {
    Distributes(m, s * a, t * b);
    Exchange(l, b, s, a);
    Exchange(k, a, t, b);
    Distributes(a * b, l * s, k * t);
  }

  lemma RegroupLcm(c: int, i: int, g: int, b: int)
    ensures c * ((i * g) * b) == (c * (i * b)) * g
  {
    Associates(c, i * b, g);
    assert (i * g) * b == (i * b) * g;
  }

  lemma Distributes(x: int, y: int, z: int)
    ensures x * (y + z) == x * y + x * z
  {
  }

  lemma Associates(x: int, y: int, z: int)
    ensures x * (y * z) == (x * y) * z
  {
  }

  lemma Cancels(x: int, y: int, g: int)
    requires g > 0 && x * g == y * g
    ensures x == y
  {
    assert (x - y) * g == 0;
    assert x - y > 0 ==> (x - y) * g > 0;
    assert x - y < 0 ==> (y - x) * g > 0;
  }

  function AlignUp(value: nat, alignment: nat): nat
    requires alignment > 0
  {
    CeilDiv(value, alignment) * alignment
  }

  /** The next multiple. */
  lemma AlignUpIs(value: nat, alignment: nat)
    requires alignment > 0
    ensures value <= AlignUp(value, alignment) < value + alignment && Multiple(AlignUp(value, alignment), alignment)
  {
    CeilDivCovers(value, alignment);
    MultipleIs(AlignUp(value, alignment), alignment, CeilDiv(value, alignment));
  }
}
