/** The in-place radix-2 transform: bit reversal, butterfly stages and forward scaling. */
module Fft {
  import opened Arithmetic
  import opened ComplexNumbers
  import opened Fourier

  /** The low `r` bits of `b` in reverse order. */
  function Rev(r: nat, b: nat): nat {
    if r == 0 then 0 else Rev(r - 1, b / 2) + (if b % 2 == 1 then Pow2(r - 1) else 0)
  }

  lemma {:induction false} RevBound(r: nat, b: nat)
    ensures Rev(r, b) < Pow2(r)
  {
    if r > 0 { RevBound(r - 1, b / 2); }
  }

  /** Reading the same bits from the top: the highest bit comes out lowest. */
  lemma {:induction false} RevTop(r: nat, c: nat, top: bool)
    requires r >= 1 && c < Pow2(r - 1)
    ensures Rev(r, if top then c + Pow2(r - 1) else c) == 2 * Rev(r - 1, c) + (if top then 1 else 0)
  {
    var b := if top then c + Pow2(r - 1) else c;
    if r == 1 {
      assert Rev(0, b / 2) == 0;
    } else {
      assert Pow2(r - 1) == 2 * Pow2(r - 2);
      assert b / 2 == (if top then c / 2 + Pow2(r - 2) else c / 2) && b % 2 == c % 2;
      RevTop(r - 1, c / 2, top);
    }
  }

  /** Reversing twice is the identity. */
  lemma {:induction false} RevInvolution(r: nat, b: nat)
    requires b < Pow2(r)
    ensures Rev(r, Rev(r, b)) == b
  {
    if r > 0 {
      RevBound(r - 1, b / 2);
      RevTop(r, Rev(r - 1, b / 2), b % 2 == 1);
      RevInvolution(r - 1, b / 2);
    }
  }

  lemma {:induction false} RevAllOnes(r: nat)
    ensures Rev(r, Pow2(r) - 1) == Pow2(r) - 1
  {
    if r > 0 {
      assert (Pow2(r) - 1) / 2 == Pow2(r - 1) - 1 && (Pow2(r) - 1) % 2 == 1;
      RevAllOnes(r - 1);
    }
  }

  /** One turn of the carry loop: take the bit out of the reversed counter and go on with the next lower bit. */
  function CarryTurn(j: nat, k: nat): (nat, nat)
    requires k <= j
  {
    (j - k, k / 2)
  }

  /** Adding one to the reversed counter `j` with `k` its highest bit, for a counter that is not all ones. */
  method NextReversed(m: nat, i: nat, j0: nat) returns (j: nat)
    requires i + 1 < Pow2(m) && j0 == Rev(m, i)
    ensures j == Rev(m, i + 1)
  {
    j := j0;
    var k := Pow2(m) / 2;
    ghost var r: nat, b: nat := m, i;
    assert m > 0;
    assert k == Pow2(r - 1);
    while k <= j
      invariant 1 <= r <= m && k == Pow2(r - 1)
      invariant b + 1 < Pow2(r) && j == Rev(r, b)
      invariant Rev(r, b + 1) == Rev(m, i + 1)
      decreases k
    {
      RevBound(r - 1, b / 2);
      assert b % 2 == 1;
      assert (b + 1) / 2 == b / 2 + 1 && (b + 1) % 2 == 0;
      j := j - k;
      k := k / 2;
      r, b := r - 1, b / 2;
      assert r >= 1;
      assert k == Pow2(r - 1);
    }
    assert b % 2 == 0;
    assert (b + 1) / 2 == b / 2 && (b + 1) % 2 == 1;
    j := j + k;
  }

  /** `turns` turns of the carry loop from (j, k), as long as the guard holds. */
  ghost function CarryTurns(j: nat, k: nat, turns: nat): (nat, nat) {
    if turns == 0 || k > j then (j, k)
    else
      var (j', k') := CarryTurn(j, k);
      CarryTurns(j', k', turns - 1)
  }

  /** Why the outer loop must stop one short: from the all-ones counter the carry loop reaches a state it never leaves. */
  lemma {:induction false} AllOnesNeverCarries(m: nat, turns: nat)
    requires turns >= m
    ensures CarryTurns(Pow2(m) - 1, Pow2(m) / 2, turns) == (0, 0)
  {
    if m == 0 {
      if turns > 0 { AllOnesNeverCarries(0, turns - 1); }
    } else {
      var k := Pow2(m) / 2;
      assert k == Pow2(m - 1);
      assert CarryTurn(Pow2(m) - 1, k) == (Pow2(m - 1) - 1, Pow2(m - 1) / 2);
      AllOnesNeverCarries(m - 1, turns - 1);
    }
  }

  /** The permutation loop: afterwards slot `p` holds the sample of the reversed index. */
  method BitReverse(m: nat, buffer: array<Complex>)
    requires buffer.Length == Pow2(m)
    modifies buffer
    ensures forall p :: 0 <= p < buffer.Length ==> 0 <= Rev(m, p) < buffer.Length
    ensures forall p :: 0 <= p < buffer.Length ==> buffer[p] == old(buffer[Rev(m, p)])
  {
    hide Rev;
    var n := buffer.Length;
    forall p | 0 <= p < n
      ensures Rev(m, p) < n && Rev(m, Rev(m, p)) == p
    {
      RevBound(m, p);
      RevInvolution(m, p);
    }
    var i, j := 0, 0;
    assert Rev(m, 0) == 0 by { RevZero(m); }
    while i < n - 1
      invariant 0 <= i <= n - 1
      invariant j == Rev(m, i)
      invariant forall p :: 0 <= p < n ==>
        buffer[p] == if p < i || Rev(m, p) < i then old(buffer[Rev(m, p)]) else old(buffer[p])
    {
      if i < j {
        buffer[i], buffer[j] := buffer[j], buffer[i];
      }
      j := NextReversed(m, i, j);
      i := i + 1;
    }
    RevAllOnes(m);
  }

  lemma {:induction false} RevZero(r: nat)
    ensures Rev(r, 0) == 0
  {
    if r > 0 { RevZero(r - 1); }
  }

  /** The butterfly at position `p` of blocks of size `2 * h`: sum in the lower half, difference in the upper. */
  function Butterfly(a: seq<Complex>, h: nat, w: Complex, p: nat): Complex
    requires h > 0
  {
    var r := Rem(p, 2 * h);
    if r < h then Add(At(a, p), Mul(Pow(w, r), At(a, p + h)))
    else Sub(At(a, p - h), Mul(Pow(w, r - h), At(a, p)))
  }

  /** The position whose butterfly produces slot `p`. */
  function Lower(p: nat, h: nat): int
    requires h > 0
  {
    if Rem(p, 2 * h) < h then p else p - h
  }

  /** Whether the two inner loops have handled slot `p` on reaching (j, i). */
  predicate Handled(p: nat, h: nat, j: nat, i: nat)
    requires h > 0
  {
    var q := Lower(p, h);
    q >= 0 && (Rem(q, 2 * h) < j || (Rem(q, 2 * h) == j && q < i))
  }

  lemma LowerFacts(p: nat, h: nat)
    requires h > 0
    ensures Lower(p, h) >= 0
    ensures Rem(Lower(p, h), 2 * h) < h
  {
    hide Quot, Rem;
    if Rem(p, 2 * h) >= h {
      SubWithinBlock(p, 2 * h, h);
    }
  }

  /** Moving `i` one block up handles exactly the pair at `i`. */
  lemma HandledStep(p: nat, h: nat, j: nat, i: nat)
    requires h > 0 && j < h && Rem(i, 2 * h) == j
    ensures Handled(p, h, j, i + 2 * h) <==> Handled(p, h, j, i) || p == i || p == i + h
    ensures p == i || p == i + h ==> !Handled(p, h, j, i)
  {
    hide Quot, Rem;
    AddWithinBlock(i, 2 * h, h);
    LowerFacts(p, h);
    var q := Lower(p, h);
    if Rem(q, 2 * h) == j && i <= q < i + 2 * h {
      SameOffset(i, q, 2 * h);
    }
  }

  lemma HandledBounds(p: nat, h: nat)
    requires h > 0
    ensures !Handled(p, h, 0, 0) && Handled(p, h, h, h)
  {
    LowerFacts(p, h);
  }

  /** A row that has run past `p` has handled it exactly as the start of the next row sees it. */
  lemma HandledRow(p: nat, h: nat, j: nat, i: nat)
    requires h > 0 && p < i
    ensures Handled(p, h, j, i) <==> Handled(p, h, j + 1, j + 1)
  {
    hide Quot, Rem;
    LowerFacts(p, h);
    QuotRem(Lower(p, h), 2 * h);
  }

  lemma ButterflyAt(a: seq<Complex>, h: nat, w: Complex, i: nat)
    requires h > 0 && i + h < |a| && Rem(i, 2 * h) < h
    ensures var t := Mul(Pow(w, Rem(i, 2 * h)), a[i + h]);
      Butterfly(a, h, w, i) == Add(a[i], t) && Butterfly(a, h, w, i + h) == Sub(a[i], t)
  {
    hide Quot, Rem, Mul, Add, Sub;
    AddWithinBlock(i, 2 * h, h);
  }

  /** The two inner loops of one stage, run with `h == l1` and the stage's root `c`. */
  method Stage(buffer: array<Complex>, h: nat, c: Complex)
    requires h > 0 && Rem(buffer.Length, 2 * h) == 0
    modifies buffer
    ensures forall p :: 0 <= p < buffer.Length ==> buffer[p] == Butterfly(old(buffer[..]), h, c, p)
  {
    hide Mul, Add, Sub, Quot, Rem, Butterfly, Handled;
    var n := buffer.Length;
    ghost var a := buffer[..];
    var u := ONE;
    var j := 0;
    forall p | 0 <= p < n ensures !Handled(p, h, 0, 0) { HandledBounds(p, h); }
    while j < h
      invariant 0 <= j <= h
      invariant u == Pow(c, j)
      invariant forall p :: 0 <= p < n ==> buffer[p] == if Handled(p, h, j, j) then Butterfly(a, h, c, p) else a[p]
    {
      var i := j;
      QuotRemSmall(j, 2 * h);
      while i < n
        invariant j <= i && Rem(i, 2 * h) == j
        invariant forall p :: 0 <= p < n ==> buffer[p] == if Handled(p, h, j, i) then Butterfly(a, h, c, p) else a[p]
      {
        BlockInside(i, 2 * h, n);
        forall p: nat
          ensures Handled(p, h, j, i + 2 * h) <==> Handled(p, h, j, i) || p == i || p == i + h
          ensures p == i || p == i + h ==> !Handled(p, h, j, i)
        {
          HandledStep(p, h, j, i);
        }
        ButterflyAt(a, h, c, i);
        var t := Mul(u, buffer[i + h]);
        buffer[i + h] := Sub(buffer[i], t);
        buffer[i] := Add(buffer[i], t);
        NextBlock(i, 2 * h);
        i := i + 2 * h;
      }
      forall p | 0 <= p < n
        ensures Handled(p, h, j, i) <==> Handled(p, h, j + 1, j + 1)
      {
        HandledRow(p, h, j, i);
      }
      MulComm(u, c);
      u := Mul(u, c);
      j := j + 1;
    }
    forall p | 0 <= p < n ensures Handled(p, h, h, h) { HandledBounds(p, h); }
  }

  /** After `l` stages, block number p / 2^l holds the Fourier sums of its own decimated samples. */
  ghost predicate AfterStages(sqrt: real -> real, dir: int, x: seq<Complex>, a: seq<Complex>, m: nat, l: nat)
    requires l <= m
  {
    |a| == |x| == Pow2(m)
    && forall p :: 0 <= p < |a| ==> a[p] == BlockSum(sqrt, dir, x, m, l, p)
  }

  ghost function BlockSum(sqrt: real -> real, dir: int, x: seq<Complex>, m: nat, l: nat, p: nat): Complex
    requires l <= m
  {
    Strided(x, Root(sqrt, dir, l), Rev(m - l, Quot(p, Pow2(l))), Pow2(m - l), Pow2(l), Rem(p, Pow2(l)))
  }

  /** One butterfly combines the sums of two half blocks into the sum of the whole block. */
  lemma CombineHalves(sqrt: real -> real, dir: int, x: seq<Complex>, l: nat, s: nat, d: nat, r: nat)
    requires IsSqrt(sqrt) && r < Pow2(l)
    ensures var w, v, h := Root(sqrt, dir, l + 1), Root(sqrt, dir, l), Pow2(l);
      var even, odd := Strided(x, v, s, 2 * d, h, r), Strided(x, v, s + d, 2 * d, h, r);
      && Strided(x, w, s, d, 2 * h, r) == Add(even, Mul(Pow(w, r), odd))
      && Strided(x, w, s, d, 2 * h, r + h) == Sub(even, Mul(Pow(w, r), odd))
  {
    hide Mul, Add, Sub, Pow, Root, IsSqrt, Unit, Strided;
    var w, v, h := Root(sqrt, dir, l + 1), Root(sqrt, dir, l), Pow2(l);
    RootSquare(sqrt, dir, l + 1);
    StridedSplit(x, w, s, d, h, r);
    StridedSplit(x, w, s, d, h, r + h);
    RootFullTurn(sqrt, dir, l);
    StridedPeriodic(x, v, s, 2 * d, h, r, h);
    StridedPeriodic(x, v, s + d, 2 * d, h, r, h);
    RootHalfTurn(sqrt, dir, l + 1);
    PowAdd(w, r, h);
    AddMinus(Strided(x, v, s, 2 * d, h, r), Pow(w, r), Strided(x, v, s + d, 2 * d, h, r));
  }

  lemma AddMinus(a: Complex, p: Complex, b: Complex)
    ensures Add(a, Mul(Mul(p, Complex(-1.0, 0.0)), b)) == Sub(a, Mul(p, b))
  {
    assert Mul(p, Complex(-1.0, 0.0)) == Neg(p);
    assert Mul(Neg(p), b) == Neg(Mul(p, b));
  }

  /** The half blocks that one block is built from, in terms of reversed block numbers. */
  lemma BlockNumbers(m: nat, l: nat, p: nat)
    requires l < m && p < Pow2(m) && Rem(p, 2 * Pow2(l)) < Pow2(l)
    ensures var h, r, b := Pow2(l), Rem(p, 2 * Pow2(l)), Quot(p, 2 * Pow2(l));
      && p + h < Pow2(m)
      && Rem(p, h) == Rem(p + h, h) == r
      && Quot(p + h, 2 * h) == b && Rem(p + h, 2 * h) == r + h
      && Rev(m - l, Quot(p, h)) == Rev(m - l - 1, b)
      && Rev(m - l, Quot(p + h, h)) == Rev(m - l - 1, b) + Pow2(m - l - 1)
  {
    hide Quot, Rem;
    var h, b := Pow2(l), Quot(p, 2 * Pow2(l));
    WholeBlocks(m, l + 1);
    BlockInside(p, 2 * h, Pow2(m));
    HalfBlock(p, h);
    AddWithinBlock(p, 2 * h, h);
    HalfBlock(p + h, h);
    RevDouble(m - l, b);
  }

  lemma RevDouble(r: nat, b: nat)
    requires r > 0
    ensures Rev(r, 2 * b) == Rev(r - 1, b)
    ensures Rev(r, 2 * b + 1) == Rev(r - 1, b) + Pow2(r - 1)
  {
    assert (2 * b) / 2 == b && (2 * b + 1) / 2 == b;
  }

  /** A stage advances the invariant: one step of the induction that turns butterflies into Fourier sums. */
  lemma StageAdvances(sqrt: real -> real, dir: int, x: seq<Complex>, a: seq<Complex>, m: nat, l: nat, p: nat)
    requires IsSqrt(sqrt) && l < m && AfterStages(sqrt, dir, x, a, m, l) && p < Pow2(m)
    ensures Butterfly(a, Pow2(l), Root(sqrt, dir, l + 1), p) == BlockSum(sqrt, dir, x, m, l + 1, p)
  {
    hide Mul, Add, Sub, Pow, Root, IsSqrt, Strided, Rev, Quot, Rem;
    var h := Pow2(l);
    LowerFacts(p, h);
    var q: nat := Lower(p, h);
    if p != q { SubWithinBlock(p, 2 * h, h); }
    BlockNumbers(m, l, q);
    CombineHalves(sqrt, dir, x, l, Rev(m - l - 1, Quot(q, 2 * h)), Pow2(m - l - 1), Rem(q, 2 * h));
    assert a[q] == BlockSum(sqrt, dir, x, m, l, q);
    assert a[q + h] == BlockSum(sqrt, dir, x, m, l, q + h);
  }

  /** The whole transform: for every direction, size and input, the buffer ends up holding the Fourier sums. */
  method Transform(sqrt: real -> real, dir: int, m: nat, buffer: array<Complex>) returns (status: int)
    requires IsSqrt(sqrt) && buffer.Length == Pow2(m)
    modifies buffer
    ensures status == 1
    ensures buffer[..] == if dir == 1 then Forward(sqrt, m, old(buffer[..])) else Reverse(sqrt, dir, m, old(buffer[..]))
    ensures forall k :: 0 <= k < buffer.Length ==>
              (if dir == 1 then Scale(buffer.Length as real, buffer[k]) else buffer[k]) == Dft(old(buffer[..]), Root(sqrt, dir, m), k)
  {
    hide Mul, Add, Sub, Strided, IsSqrt, Rev, Dft, BlockSum, Butterfly, HalfAngle, ScaleAll, Fourier.Transform, Quot, Rem, Scale, Root, Forward, Reverse;
    ghost var x := buffer[..];
    NextRoot(sqrt, dir, 1);
    BitReverse(m, buffer);
    AfterBitReverse(sqrt, dir, x, buffer[..], m);
    var n := buffer.Length;
    var c := Complex(-1.0, 0.0);
    var l2 := 1;
    var l := 0;
    while l < m
      invariant 0 <= l <= m && l2 == Pow2(l)
      invariant c == Root(sqrt, dir, l + 1)
      invariant AfterStages(sqrt, dir, x, buffer[..], m, l)
    {
      var l1 := l2;
      l2 := 2 * l2;
      WholeBlocks(m, l + 1);
      ghost var a := buffer[..];
      Stage(buffer, l1, c);
      forall p | 0 <= p < n
        ensures buffer[p] == BlockSum(sqrt, dir, x, m, l + 1, p)
      {
        StageAdvances(sqrt, dir, x, a, m, l, p);
      }
      NextRoot(sqrt, dir, l + 1);
      c := HalfAngle(sqrt, dir, c);
      l := l + 1;
    }
    AllStages(sqrt, dir, x, buffer[..], m);
    if dir == 1 {
      DivideAll(buffer);
    }
    MeansSums(sqrt, dir, m, x, buffer[..]);
    return 1;
  }

  lemma NextRoot(sqrt: real -> real, dir: int, l: nat)
    requires l >= 1
    ensures Root(sqrt, dir, 1) == Complex(-1.0, 0.0)
    ensures Root(sqrt, dir, l + 1) == HalfAngle(sqrt, dir, Root(sqrt, dir, l))
  {
    hide HalfAngle;
  }

  /** Forward the sums come divided by their number, otherwise as they are. */
  lemma MeansSums(sqrt: real -> real, dir: int, m: nat, x: seq<Complex>, y: seq<Complex>)
    requires |x| == Pow2(m)
    requires var sums := Fourier.Transform(x, Root(sqrt, dir, m));
      y == if dir == 1 then ScaleAll(1.0 / |x| as real, sums) else sums
    ensures y == if dir == 1 then Forward(sqrt, m, x) else Reverse(sqrt, dir, m, x)
    ensures forall k :: 0 <= k < |x| ==>
              (if dir == 1 then Scale(|x| as real, y[k]) else y[k]) == Dft(x, Root(sqrt, dir, m), k)
  {
    hide Dft, Scale, Root;
    if dir == 1 {
      forall k | 0 <= k < |x|
        ensures Scale(|x| as real, y[k]) == Dft(x, Root(sqrt, 1, m), k)
      {
        TimesThenDivided(|x| as real, Dft(x, Root(sqrt, 1, m), k));
      }
    }
  }

  /** The scaling loop of the forward transform. */
  method DivideAll(buffer: array<Complex>)
    requires buffer.Length > 0
    modifies buffer
    ensures buffer[..] == ScaleAll(1.0 / buffer.Length as real, old(buffer[..]))
  {
    hide Scale;
    var n := buffer.Length;
    var i := 0;
    while i < n
      invariant 0 <= i <= n
      invariant forall p :: 0 <= p < n ==>
        buffer[p] == if p < i then Scale(1.0 / n as real, old(buffer[p])) else old(buffer[p])
    {
      DivideIsScale(n as real, buffer[i]);
      buffer[i] := Complex(buffer[i].re / n as real, buffer[i].im / n as real);
      i := i + 1;
    }
  }

  lemma DivideIsScale(n: real, a: Complex)
    requires n > 0.0
    ensures Complex(a.re / n, a.im / n) == Scale(1.0 / n, a)
  {
    assert (1.0 / n) * n == 1.0;
    assert (a.re / n) * n == a.re && (a.im / n) * n == a.im;
    assert (1.0 / n) * a.re == (1.0 / n) * ((a.re / n) * n) == ((1.0 / n) * n) * (a.re / n);
    assert (1.0 / n) * a.im == (1.0 / n) * ((a.im / n) * n) == ((1.0 / n) * n) * (a.im / n);
  }

  /** Before any stage every block is a single sample. */
  lemma AfterBitReverse(sqrt: real -> real, dir: int, x: seq<Complex>, a: seq<Complex>, m: nat)
    requires |a| == |x| == Pow2(m)
    requires forall p :: 0 <= p < |a| ==> 0 <= Rev(m, p) < |x|
    requires forall p :: 0 <= p < |a| ==> a[p] == x[Rev(m, p)]
    ensures AfterStages(sqrt, dir, x, a, m, 0)
  {
    hide Mul, Rev, Quot, Rem;
    forall p | 0 <= p < |a|
      ensures a[p] == BlockSum(sqrt, dir, x, m, 0, p)
    {
      QuotRemOne(p);
      OneSample(x, Root(sqrt, dir, 0), Rev(m, p), Pow2(m));
    }
  }

  lemma OneSample(x: seq<Complex>, w: Complex, s: nat, d: nat)
    requires s < |x|
    ensures Strided(x, w, s, d, 1, 0) == x[s]
  {
    var f := (t: nat) => Term(x, w, s, d, 0, t);
    assert Sum(1, f) == Add(Sum(0, f), f(0)) == Add(ZERO, f(0));
    assert s + 0 * d == s;
    assert f(0) == Mul(x[s], Weight(w, 0, 0));
    assert Weight(w, 0, 0) == ONE;
    MulOne(x[s]);
  }

  /** After all stages the one remaining block is the whole transform. */
  lemma AllStages(sqrt: real -> real, dir: int, x: seq<Complex>, a: seq<Complex>, m: nat)
    requires AfterStages(sqrt, dir, x, a, m, m)
    ensures a == Fourier.Transform(x, Root(sqrt, dir, m))
  {
    hide Mul, Dft, Root, Strided, Quot, Rem;
    forall p | 0 <= p < |a|
      ensures a[p] == Dft(x, Root(sqrt, dir, m), p)
    {
      QuotRemSmall(p, Pow2(m));
      StridedIsDft(x, Root(sqrt, dir, m), p);
    }
  }
}
