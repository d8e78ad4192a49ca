/** The few facts about quotients that counting requests needs. */
module Division {

  lemma {:induction false} Distribute(a: int, b: int, d: int)
    ensures (a - b) * d == a * d - b * d
  {
  }

  lemma {:induction false} AtLeastOnce(a: int, d: nat)
    requires a >= 1
    ensures a * d >= d
  {
    Distribute(a, 1, d);
    assert (a - 1) * d >= 0;
  }

  lemma {:induction false} SmallerQuotient(q: int, r: nat, q': int, r': nat, d: nat)
    requires q * d + r == q' * d + r' && r < d && r' < d
    ensures q' >= q
  {
    if q' < q {
      Distribute(q, q', d);
      AtLeastOnce(q - q', d);
    }
  }

  lemma {:induction false} QuotientUnique(n: nat, d: nat, q: nat, r: nat)
    requires r < d && n == q * d + r
    ensures n / d == q
  {
    var q', r' := n / d, n % d;
    assert n == q' * d + r';
    SmallerQuotient(q, r, q', r', d);
    SmallerQuotient(q', r', q, r, d);
  }

  lemma {:induction false} QuotientBounds(n: nat, d: nat, q: nat)
    requires d > 0 && q * d <= n
    ensures q <= n / d
  {
    var q', r' := n / d, n % d;
    assert n == q' * d + r';
    if q' < q {
      Distribute(q, q', d);
      AtLeastOnce(q - q', d);
    }
  }
}
