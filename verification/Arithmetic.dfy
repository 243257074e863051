/** Powers of two, and quotient/remainder facts for indexing blocks of a power-of-two buffer. */
module Arithmetic {

  function Pow2(k: nat): (p: nat)
    ensures p >= 1
  {
    if k == 0 then 1 else 2 * Pow2(k - 1)
  }

  lemma {:induction false} Pow2Add(j: nat, k: nat)
    ensures Pow2(j + k) == Pow2(j) * Pow2(k)
  {
    if j > 0 {
      Pow2Add(j - 1, k);
      assert Pow2(j) * Pow2(k) == 2 * (Pow2(j - 1) * Pow2(k));
    }
  }

  /** The block of size `d` that position `p` lies in. */
  function Quot(p: nat, d: nat): (q: nat)
    requires d > 0
  {
    p / d
  }

  /** The offset of position `p` in its block. */
  function Rem(p: nat, d: nat): (r: nat)
    requires d > 0
    ensures r < d
  {
    p % d
  }

  lemma QuotRem(p: nat, d: nat)
    requires d > 0
    ensures p == Quot(p, d) * d + Rem(p, d)
    ensures Rem(p, d) <= p
  {
    assert Quot(p, d) * d >= 0;
  }

  /** Distinct multiples of `d` are at least `d` apart. */
  lemma MultiplesApart(q: int, c: int, d: int)
    requires d > 0
    ensures q > c ==> q * d >= c * d + d
  {
    if q > c {
      assert q * d == (q - c - 1) * d + c * d + d;
      assert (q - c - 1) * d >= 0;
    }
  }

  /** A decomposition into a multiple of `d` and a remainder is unique. */
  lemma UniqueDecomposition(d: int, q: int, r: int, q': int, r': int)
    requires 0 <= r < d && 0 <= r' < d && q * d + r == q' * d + r'
    ensures q == q' && r == r'
  {
    MultiplesApart(q, q', d);
    MultiplesApart(q', q, d);
  }

  lemma QuotRemUnique(p: nat, d: nat, q: nat, r: nat)
    requires r < d && p == q * d + r
    ensures Quot(p, d) == q && Rem(p, d) == r
  {
    hide Quot, Rem;
    QuotRem(p, d);
    UniqueDecomposition(d, q, r, Quot(p, d), Rem(p, d));
  }

  lemma QuotRemSmall(p: nat, d: nat)
    requires p < d
    ensures Quot(p, d) == 0 && Rem(p, d) == p
  {
    QuotRemUnique(p, d, 0, p);
  }

  lemma QuotRemOne(p: nat)
    ensures Quot(p, 1) == p && Rem(p, 1) == 0
  {
    QuotRemUnique(p, 1, p, 0);
  }

  /** Blocks of size `2 * h` against blocks of size `h`. */
  lemma HalfBlock(p: nat, h: nat)
    requires h > 0
    ensures Rem(p, 2 * h) < h ==> Quot(p, h) == 2 * Quot(p, 2 * h) && Rem(p, h) == Rem(p, 2 * h)
    ensures Rem(p, 2 * h) >= h ==> Quot(p, h) == 2 * Quot(p, 2 * h) + 1 && Rem(p, h) == Rem(p, 2 * h) - h
  {
    hide Quot, Rem;
    var q, r := Quot(p, 2 * h), Rem(p, 2 * h);
    QuotRem(p, 2 * h);
    if r < h {
      assert q * (2 * h) == (2 * q) * h;
      QuotRemUnique(p, h, 2 * q, r);
    } else {
      assert q * (2 * h) + h == (2 * q + 1) * h;
      QuotRemUnique(p, h, 2 * q + 1, r - h);
    }
  }

  lemma AddWithinBlock(p: nat, d: nat, a: nat)
    requires d > 0 && Rem(p, d) + a < d
    ensures Quot(p + a, d) == Quot(p, d) && Rem(p + a, d) == Rem(p, d) + a
  {
    hide Quot, Rem;
    QuotRem(p, d);
    QuotRemUnique(p + a, d, Quot(p, d), Rem(p, d) + a);
  }

  lemma SubWithinBlock(p: nat, d: nat, a: nat)
    requires d > 0 && a <= Rem(p, d)
    ensures a <= p && Quot(p - a, d) == Quot(p, d) && Rem(p - a, d) == Rem(p, d) - a
  {
    hide Quot, Rem;
    QuotRem(p, d);
    QuotRemUnique(p - a, d, Quot(p, d), Rem(p, d) - a);
  }

  lemma NextBlock(p: nat, d: nat)
    requires d > 0
    ensures Quot(p + d, d) == Quot(p, d) + 1 && Rem(p + d, d) == Rem(p, d)
  {
    hide Quot, Rem;
    QuotRem(p, d);
    assert (Quot(p, d) + 1) * d == Quot(p, d) * d + d;
    QuotRemUnique(p + d, d, Quot(p, d) + 1, Rem(p, d));
  }

  /** A position inside a whole number of blocks has its whole block inside. */
  lemma BlockInside(p: nat, d: nat, n: nat)
    requires d > 0 && Rem(n, d) == 0 && p < n
    ensures p - Rem(p, d) + d <= n
  {
    hide Quot, Rem;
    QuotRem(p, d);
    QuotRem(n, d);
    var q, c := Quot(p, d), Quot(n, d);
    MultiplesApart(c, q, d);
    MultiplesApart(q + 1, c, d);
    assert (q + 1) * d == q * d + d;
  }

  /** Two positions with equal offsets less than one block apart coincide. */
  lemma SameOffset(p: nat, q: nat, d: nat)
    requires d > 0 && Rem(p, d) == Rem(q, d) && p <= q < p + d
    ensures p == q
  {
    hide Quot, Rem;
    QuotRem(p, d);
    QuotRem(q, d);
    assert (Quot(q, d) - Quot(p, d)) * d == Quot(q, d) * d - Quot(p, d) * d;
    UniqueDecomposition(d, 0, q - p, Quot(q, d) - Quot(p, d), 0);
  }

  /** A power of two splits into whole blocks of any smaller power of two. */
  lemma WholeBlocks(m: nat, l: nat)
    requires l <= m
    ensures Rem(Pow2(m), Pow2(l)) == 0
  {
    hide Quot, Rem, Pow2;
    Pow2Add(m - l, l);
    QuotRemUnique(Pow2(m), Pow2(l), Pow2(m - l), 0);
  }
}
