/** The few facts about Euclidean division the proofs need. */
module Arithmetic {

  lemma {:induction false} MultipleAtLeast(k: int, d: int)
    requires k >= 1 && d > 0
    ensures k * d >= d
  {
    if k > 1 {
      MultipleAtLeast(k - 1, d);
      assert k * d == (k - 1) * d + d;
    }
  }

  lemma NonzeroMultiple(k: int, d: int)
    requires d > 0 && k != 0
    ensures k * d >= d || k * d <= -d
  {
    if k >= 1 {
      MultipleAtLeast(k, d);
    } else {
      MultipleAtLeast(-k, d);
      assert k * d == -((-k) * d);
    }
  }

  /** Quotient and remainder are determined by n == q * d + r with 0 <= r < d. */
  lemma DivisionIsUnique(n: int, d: int, q: int, r: int)
    requires d > 0 && n == q * d + r && 0 <= r < d
    ensures n / d == q && n % d == r
  {
    assert n == (n / d) * d + n % d;
    assert (n / d - q) * d == r - n % d;
    if n / d != q {
      NonzeroMultiple(n / d - q, d);
    }
  }

  lemma DivisionStep(n: int, d: int)
    requires d > 0
    ensures n / d == (n - d) / d + 1 && n % d == (n - d) % d
  {
    var q, r := (n - d) / d, (n - d) % d;
    assert n - d == q * d + r;
    assert n == (q + 1) * d + r;
    DivisionIsUnique(n, d, q + 1, r);
  }
}
