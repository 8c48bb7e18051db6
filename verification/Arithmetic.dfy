/** Products and quotients by a variable, one fact at a time. */
module Arithmetic {

  lemma Natural(a: nat, b: nat)
    ensures 0 <= a * b
  {
  }

  lemma Next(n: nat, w: nat)
    ensures (n + 1) * w == n * w + w
  {
  }

  lemma Monotone(a: nat, b: nat, d: nat)
    requires a <= b
    ensures 0 <= a * d <= b * d
  {
  }

  lemma QuotientNatural(k: nat, d: nat)
    requires d > 0
    ensures 0 <= k / d
  {
  }

  lemma NoMultiple(x: int, d: nat)
    ensures x >= 1 ==> x * d >= d
    ensures x <= -1 ==> x * d <= -(d as int)
  {
  }

  // A quotient and a remainder are determined by what they add up to.
  lemma DivUnique(d: nat, q: nat, r: nat)
    requires r < d
    ensures (q * d + r) / d == q && (q * d + r) % d == r
  {
    var n := q * d + r;
    var x := n / d - q;
    assert x * d == r - n % d;
    NoMultiple(x, d);
  }

  lemma Division(k: nat, d: nat) returns (q: nat, r: nat)
    requires d > 0
    ensures r < d && k == q * d + r && q == k / d && r == k % d
  {
    QuotientNatural(k, d);
    q, r := k / d, k % d;
  }

  // Which of n rows of width d index k is in.
  lemma Row(n: nat, d: nat, k: nat)
    requires d > 0 && k < n * d
    ensures 0 <= k / d < n
  {
    var q, r := Division(k, d);
    if q >= n {
      Monotone(n, q, d);
    }
  }

  // One row further back.
  lemma RowBack(d: nat, k: nat)
    requires 0 < d <= k
    ensures k / d > 0 && (k - d) / d == k / d - 1 && (k - d) % d == k % d
  {
    var q, r := Division(k, d);
    if q > 0 {
      Next(q - 1, d);
      DivUnique(d, q - 1, r);
    }
  }

  lemma RowFirst(d: nat, k: nat)
    requires k < d
    ensures k / d == 0 && k % d == k
  {
    DivUnique(d, 0, k);
  }

  // Numbers that differ by a multiple have the same remainder.
  lemma SameRemainder(n: nat, m: nat, k: nat, d: nat)
    requires d > 0 && n == m + k * d
    ensures n % d == m % d
  {
    var q, r := Division(m, d);
    assert (q + k) * d == q * d + k * d;
    DivUnique(d, q + k, r);
  }

  // Remainders may be taken at any point of a sum.
  lemma RemainderOfSum(n: nat, m: nat, d: nat)
    requires d > 0
    ensures (n % d + m) % d == (n + m) % d
  {
    var q, r := Division(n, d);
    SameRemainder(n + m, r + m, q, d);
  }

  lemma RemainderKept(n: nat, m: nat, d: nat)
    requires d > 0
    ensures (n + m) % d == n % d <==> m % d == 0
  {
    var q, r := Division(n, d);
    var p, s := Division(m, d);
    SameRemainder(n + m, r + m, q, d);
    SameRemainder(r + m, r + s, p, d);
    if r + s < d {
      DivUnique(d, 0, r + s);
    } else {
      DivUnique(d, 1, r + s - d);
    }
  }

  // Dividing twice is dividing by the product.
  lemma QuotientOfQuotient(n: nat, a: nat, b: nat)
    requires a > 0 && b > 0
    ensures a * b > 0 && n / (a * b) == (n / a) / b
  {
    var q, r := Division(n, a);
    var p, s := Division(q, b);
    Monotone(1, a, b);
    assert q * a == (p * b + s) * a == p * (a * b) + s * a;
    Monotone(s + 1, b, a);
    Next(s, a);
    Natural(s, a);
    assert b * a == a * b;
    DivUnique(a * b, p, s * a + r);
  }

  lemma Remainder(n: nat, d: nat)
    requires d > 0
    ensures 0 <= n % d < d && n % d <= n
  {
    var q, r := Division(n, d);
    Natural(q, d);
  }

  // The remainder of a number just below zero.
  lemma OneBelow(i: int, d: nat)
    requires -(d as int) <= i < 0
    ensures i % d == i + d
  {
    var q := i / d;
    assert i == q * d + i % d;
    assert (q + 1) * d == q * d + d;
    NoMultiple(q + 1, d);
  }
}
