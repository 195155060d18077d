/** Powers and quotients, for the digits of a number. */
module Numbers {
  function Power(base: nat, i: nat): nat {
    if i == 0 then 1 else base * Power(base, i - 1)
  }

  lemma {:induction false} PowerPositive(base: nat, i: nat)
    requires base > 0
    ensures Power(base, i) > 0
  {
    if i > 0 {
      PowerPositive(base, i - 1);
      Positive(base, Power(base, i - 1));
    }
  }

  lemma Positive(a: nat, b: nat)
    requires a > 0 && b > 0
    ensures a * b > 0
  {
  }

  lemma Monotone(a: nat, b: nat, d: nat)
    requires a <= b
    ensures d * a <= d * b
  {
    assert d * b == d * a + d * (b - a);
  }

  function Quotient(n: nat, d: nat): nat
    requires d > 0
  {
    n / d
  }

  lemma QuotientBy(n: nat)
    ensures Quotient(n, 1) == n && Quotient(n, 10) == n / 10 && Quotient(n, 128) == n / 128
  {
  }

  lemma QuotientBounds(n: nat, d: nat)
    requires d > 0
    ensures d * Quotient(n, d) <= n < d * (Quotient(n, d) + 1)
  {
  }

  lemma QuotientUnique(n: nat, d: nat, q: nat)
    requires d > 0 && d * q <= n < d * (q + 1)
    ensures Quotient(n, d) == q
  {
    var p := Quotient(n, d);
    QuotientBounds(n, d);
    hide Quotient;
    if p < q {
      Monotone(p + 1, q, d);
      assert false;
    } else if p > q {
      Monotone(q + 1, p, d);
      assert false;
    }
  }

  lemma Associative(a: nat, b: nat, c: nat)
    ensures a * (b * c) == a * b * c
  {
  }

  lemma Between(n: nat, a: nat, b: nat, m: nat, q: nat)
    requires a * m <= n < a * (m + 1) && b * q <= m < b * (q + 1)
    ensures a * b * q <= n < a * b * (q + 1)
  {
    Monotone(b * q, m, a);
    Monotone(m + 1, b * (q + 1), a);
    Associative(a, b, q);
    Associative(a, b, q + 1);
  }

  /** Dividing twice is dividing by the product. */
  lemma DivideTwice(n: nat, a: nat, b: nat)
    requires a > 0 && b > 0
    ensures a * b > 0 && Quotient(Quotient(n, a), b) == Quotient(n, a * b)
  {
    hide Quotient;
    var m := Quotient(n, a);
    Positive(a, b);
    QuotientBounds(n, a);
    QuotientBounds(m, b);
    Between(n, a, b, m, Quotient(m, b));
    QuotientUnique(n, a * b, Quotient(m, b));
  }
}
