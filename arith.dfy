/** Facts about products of naturals that the image-indexing proofs use, stated once so that
    the solver needs no nonlinear reasoning of its own. */
module Arith {
  /** Row `r` of a `w`-wide image ends within the image when all `h` rows do. */
  lemma {:induction false} RowWithin(r: nat, h: nat, w: nat)
    requires r < h
    ensures r * w + w <= h * w
    decreases h
  {
    if h > r + 1 {
      RowWithin(r, h - 1, w);
      assert (h - 1) * w + w == h * w;
    } else {
      assert (r + 1) * w == r * w + w;
    }
  }

  /** `(a + 1) * m` distributes. */
  lemma MulSucc(a: nat, m: nat)
    ensures (a + 1) * m == a * m + m
  {
  }

  /** `a * b` as repeated addition. The solver unfolds it one step at a time, so the padding
      proofs that use it stay linear; `MulIsProduct` ties it to `*`. */
  function Mul(a: nat, b: nat): nat
    decreases a
  {
    if a == 0 then 0 else Mul(a - 1, b) + b
  }

  /** Repeated addition is multiplication. */
  lemma {:induction false} MulIsProduct(a: nat, b: nat)
    ensures Mul(a, b) == a * b
    decreases a
  {
    if a > 0 {
      MulIsProduct(a - 1, b);
      MulSucc(a - 1, b);
    }
  }

  /** Row `r` of a `w`-wide image ends within the first `h` rows. */
  lemma {:induction false} MulRowWithin(r: nat, h: nat, w: nat)
    requires r < h
    ensures Mul(r, w) + w <= Mul(h, w)
    decreases h
  {
    if h > r + 1 {
      MulRowWithin(r, h - 1, w);
    }
  }
}
