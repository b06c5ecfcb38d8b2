/** Division and remainder, as far as the rotation of the node list and the counting of places need them. */
module Arithmetic {

  lemma QuotientUnique(n: int, d: int)
    requires n > 0 && -n < n * d < n
    ensures d == 0
  {
    assert d >= 1 ==> n * d >= n * 1;
    assert d <= -1 ==> n * d <= n * -1;
  }

  lemma ModOnce(a: nat, n: nat)
    requires n > 0
    ensures (a + n) % n == a % n
  {
    var q, r := a / n, a % n;
    var p, s := (a + n) / n, (a + n) % n;
    assert a == n * q + r && a + n == n * p + s;
    assert n * (p - q - 1) == n * p - n * q - n;
    QuotientUnique(n, p - q - 1);
  }

  lemma ModStep(m: nat, n: nat)
    requires n > 0 && m < 2 * n
    ensures m % n == if m < n then m else m - n
  {
    if m >= n {
      ModOnce(m - n, n);
    }
  }

  lemma {:induction false} ModSum(a: nat, b: nat, n: nat)
    requires n > 0
    ensures (a + b) % n == (a % n + b) % n
    decreases a
  {
    if a >= n {
      ModSum(a - n, b, n);
      ModOnce(a - n, n);
      ModOnce(a - n + b, n);
    } else {
      ModStep(a, n);
    }
  }

  /** Taking the divisor away once lowers the quotient by one. */
  lemma DivOnce(a: nat, n: nat)
    requires n > 0
    ensures a / n == if a < n then 0 else (a - n) / n + 1
  {
    if a >= n {
      var q, r := (a - n) / n, (a - n) % n;
      var p, s := a / n, a % n;
      assert a - n == n * q + r && a == n * p + s;
      assert n * (p - q - 1) == n * p - n * q - n;
      QuotientUnique(n, p - q - 1);
    }
  }
}
