/** Bytes, and the products of naturals that the radix and sampling proofs step through. */
module Numbers {
  newtype byte = b: int | 0 <= b < 256

  lemma {:induction false} Distribute(a: int, b: int, factor: nat)
    ensures (a + b) * factor == a * factor + b * factor
    ensures b >= 0 ==> b * factor >= 0
  {
  }

  lemma {:induction false} NextMultiple(a: int, b: int, factor: nat)
    requires a < b
    ensures a * factor + factor <= b * factor
  {
    Distribute(a, b - a, factor);
    Distribute(1, b - a - 1, factor);
  }

  lemma {:induction false} QuotientIs(n: nat, k: nat, q: nat)
    requires k >= 1 && q * k <= n < q * k + k
    ensures n / k == q
  {
    var p := n / k;
    assert p * k <= n < p * k + k;
    if p < q {
      NextMultiple(p, q, k);
    } else if q < p {
      NextMultiple(q, p, k);
    }
  }
}
