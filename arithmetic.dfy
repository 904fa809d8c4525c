/** Facts of natural-number arithmetic shared by the index computations of the model. */
module Arithmetic {

  lemma {:induction false} MulMonotone(a: nat, b: nat, p: nat)
    requires a <= b
    ensures a * p <= b * p
  {
    if a < b {
      MulMonotone(a, b - 1, p);
      assert b * p == (b - 1) * p + p;
    }
  }

  /** Quotient and remainder are the only ones: n == q * w + r with r < w fixes both. */
  lemma DivModUnique(n: nat, w: nat, q: nat, r: nat)
    requires r < w && n == q * w + r
    ensures n / w == q && n % w == r
  {
    var q', r' := n / w, n % w;
    assert n == q' * w + r';
    assert (q' + 1) * w == q' * w + w;
    assert (q + 1) * w == q * w + w;
    if q' < q {
      MulMonotone(q' + 1, q, w);
      assert false;
    } else if q' > q {
      MulMonotone(q + 1, q', w);
      assert false;
    }
  }

  lemma DivBelow(p: nat, w: nat, h: nat)
    requires w > 0 && p < w * h
    ensures p / w < h
  {
    var q := p / w;
    assert p == q * w + p % w;
    if q >= h {
      MulMonotone(h, q, w);
      assert false;
    }
  }
}
