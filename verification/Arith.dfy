/** Products and quotients, one step at a time. */
module Arith {

  lemma Quotient(t: int, d: int)
    requires t >= 0 && d > 0
    ensures t / d >= 0 && t / d * d <= t < t / d * d + d
  {
    assert t == t / d * d + t % d;
  }

  lemma DivideBack(k: int, r: int, d: int)
    requires 0 <= r < d
    ensures (k * d + r) / d == k
  {
    var n := k * d + r;
    var q := n / d;
    assert n == q * d + n % d;
    Distribute(q, k, d);
    Sign(q - k, d);
  }

  lemma Distribute(a: int, b: int, d: int)
    ensures (a - b) * d == a * d - b * d
  {
  }

  lemma Sign(x: int, d: int)
    requires d > 0
    ensures x >= 1 ==> x * d >= d
    ensures x <= -1 ==> x * d <= -d
  {
  }

  lemma NextRemainder(n: int, d: int)
    requires d > 0
    ensures (n + 1) % d == if n % d == d - 1 then 0 else n % d + 1
  {
    var q, r := n / d, n % d;
    assert n == q * d + r;
    if r == d - 1 {
      Distribute(q + 1, q, d);
      Remainder(q + 1, 0, n + 1, d);
    } else {
      Remainder(q, r + 1, n + 1, d);
    }
  }

  lemma Remainder(q: int, r: int, n: int, d: int)
    requires 0 <= r < d && n == q * d + r
    ensures n % d == r
  {
    DivideBack(q, r, d);
    assert n == n / d * d + n % d;
  }

  lemma QuotientsAscend(a: int, b: int, d: int)
    requires a <= b && d > 0
    ensures a / d <= b / d
  {
    var x, y := a / d, b / d;
    assert a == x * d + a % d && b == y * d + b % d;
    var gap := x - y;
    Sign(gap, d);
    Distribute(x, y, d);
  }
}
