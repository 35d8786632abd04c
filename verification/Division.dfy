/** Division with remainder, for divisors that are not constants. */
module Division {

  lemma Bigger(a: nat, b: nat, d: nat)
    requires a < b
    ensures a * d + d <= b * d
  {
    var e := b - a - 1;
    assert b * d == (a + 1 + e) * d == a * d + d + e * d;
  }

  lemma SameQuotient(a: nat, r: nat, b: nat, q: nat, d: nat)
    requires r < d && q < d && a * d + r == b * d + q
    ensures a == b && r == q
  {
    if a < b {
      Bigger(a, b, d);
    } else if b < a {
      Bigger(b, a, d);
    }
  }

  lemma Quotient(x: nat, q: nat, r: nat, d: nat)
    requires x == q * d + r && r < d
    ensures x / d == q && x % d == r
  {
    assert x == x / d * d + x % d;
    SameQuotient(q, r, x / d, x % d, d);
  }

  lemma RoundedDown(x: nat, d: nat)
    requires 0 < d
    ensures x / d * d <= x < x / d * d + d && x / d * d % d == 0
  {
    assert x == x / d * d + x % d;
    Quotient(x / d * d, x / d, 0, d);
  }

  lemma RoundedUp(x: nat, d: nat)
    requires 0 < d
    ensures x <= (x + d - 1) / d * d < x + d && (x + d - 1) / d * d % d == 0
  {
    RoundedDown(x + d - 1, d);
  }
}
