/** The few facts about products and quotients the models need, each proved once. */
module Arith {

  lemma MulMono(a: int, b: int, w: nat)
    requires a <= b
    ensures a * w <= b * w
  {
  }

  lemma QuotientBound(k: int, w: nat, x: nat)
    requires w > 0 && k * w <= x
    ensures k <= x / w
  {
    if x / w + 1 <= k {
      MulMono(x / w + 1, k, w);
    }
  }

  lemma QuotientIs(q: nat, w: nat, x: nat)
    requires w > 0 && q * w <= x < q * w + w
    ensures x / w == q
  {
    QuotientBound(q, w, x);
    if q + 1 <= x / w {
      MulMono(q + 1, x / w, w);
    }
  }
}
