/** The discrete Fourier sum over the roots of unity that the half-angle recurrence builds. */
module Fourier {
  import opened Arithmetic
  import opened ComplexNumbers

  /** What the C library promises of `sqrt`, in exact arithmetic. */
  ghost predicate IsSqrt(sqrt: real -> real) {
    forall x: real :: x >= 0.0 ==> sqrt(x) >= 0.0 && sqrt(x) * sqrt(x) == x
  }

  /** One half-angle step; only `dir == 1`, the forward transform, turns clockwise. */
  function HalfAngle(sqrt: real -> real, dir: int, c: Complex): Complex {
    var s := sqrt((1.0 - c.re) / 2.0);
    Complex(sqrt((1.0 + c.re) / 2.0), if dir == 1 then -s else s)
  }

  /** The 2^l-th root of unity of the recurrence: 1, -1, then repeated half angles. */
  function Root(sqrt: real -> real, dir: int, l: nat): Complex {
    if l == 0 then ONE
    else if l == 1 then Complex(-1.0, 0.0)
    else HalfAngle(sqrt, dir, Root(sqrt, dir, l - 1))
  }

  /** On the unit circle, on the side of the real axis that `dir` chooses. */
  predicate Unit(dir: int, c: Complex) {
    && c.re * c.re + c.im * c.im == 1.0
    && (if dir == 1 then c.im <= 0.0 else c.im >= 0.0)
  }

  lemma ZeroProduct(p: real, q: real)
    requires p * q == 0.0
    ensures p == 0.0 || q == 0.0
  {}

  lemma EqualSquares(z: real, y: real)
    requires z >= 0.0 && y >= 0.0 && z * z == y * y
    ensures z == y
  {
    assert (z - y) * (z + y) == 0.0;
    ZeroProduct(z - y, z + y);
  }

  lemma RootOfProduct(p: real, q: real, y: real)
    requires p >= 0.0 && q >= 0.0 && y >= 0.0
    requires (p * p) * (q * q) == y * y
    ensures p * q == y
  {
    assert (p * q) * (p * q) == (p * p) * (q * q);
    EqualSquares(p * q, y);
  }

  lemma SquareGrows(x: real)
    ensures x > 1.0 || x < -1.0 ==> x * x > 1.0
  {
    if x > 1.0 {
      assert x * x > x;
    } else if x < -1.0 {
      assert (-x) * (-x) > -x;
    }
  }

  lemma UnitRange(x: real, y: real)
    requires x * x + y * y == 1.0
    ensures -1.0 <= x <= 1.0
  {
    assert y * y >= 0.0;
    SquareGrows(x);
  }

  /** The product of the two half-angle squares. */
  lemma HalfAngleProduct(x: real, y: real)
    requires x * x + y * y == 1.0
    ensures ((1.0 + x) / 2.0) * ((1.0 - x) / 2.0) == (y / 2.0) * (y / 2.0)
  {
    assert (1.0 + x) * (1.0 - x) == 1.0 - x * x == y * y;
  }

  /** From a unit point on the proper side, one half-angle step gives its square root on that side. */
  lemma HalfAngleStep(sqrt: real -> real, dir: int, c: Complex)
    requires IsSqrt(sqrt) && Unit(dir, c)
    ensures var h := HalfAngle(sqrt, dir, c);
      Unit(dir, h) && h.re >= 0.0 && Mul(h, h) == c
  {
    hide Mul;
    var y := if dir == 1 then -c.im else c.im;
    UnitRange(c.re, c.im);
    var p, q := sqrt((1.0 + c.re) / 2.0), sqrt((1.0 - c.re) / 2.0);
    HalfAngleOf(p, q, c.re, y);
  }

  lemma HalfAngleOf(p: real, q: real, x: real, y: real)
    requires x * x + y * y == 1.0 && y >= 0.0
    requires p >= 0.0 && p * p == (1.0 + x) / 2.0
    requires q >= 0.0 && q * q == (1.0 - x) / 2.0
    ensures Mul(Complex(p, q), Complex(p, q)) == Complex(x, y)
    ensures Mul(Complex(p, -q), Complex(p, -q)) == Complex(x, -y)
    ensures p * p + q * q == p * p + (-q) * (-q) == 1.0
  {
    hide Mul;
    HalfAngleProduct(x, y);
    RootOfProduct(p, q, y / 2.0);
    SquareFrom(p, q, x, y);
  }

  lemma SquareFrom(p: real, q: real, x: real, y: real)
    requires p * p == (1.0 + x) / 2.0 && q * q == (1.0 - x) / 2.0 && p * q == y / 2.0
    ensures Mul(Complex(p, q), Complex(p, q)) == Complex(x, y)
    ensures Mul(Complex(p, -q), Complex(p, -q)) == Complex(x, -y)
    ensures p * p + q * q == p * p + (-q) * (-q) == 1.0
  {}

  lemma SmallRoots(dir: int)
    ensures Unit(dir, ONE) && Unit(dir, Complex(-1.0, 0.0))
    ensures Mul(Complex(-1.0, 0.0), Complex(-1.0, 0.0)) == ONE
  {}

  /** Every root is a unit point on the proper side and squares to the root before it. */
  lemma {:induction false} RootSquare(sqrt: real -> real, dir: int, l: nat)
    requires IsSqrt(sqrt)
    ensures Unit(dir, Root(sqrt, dir, l))
    ensures l >= 2 ==> Root(sqrt, dir, l).re >= 0.0
    ensures l >= 1 ==> Mul(Root(sqrt, dir, l), Root(sqrt, dir, l)) == Root(sqrt, dir, l - 1)
  {
    hide Unit, HalfAngle, IsSqrt, Mul;
    SmallRoots(dir);
    if l >= 2 {
      RootSquare(sqrt, dir, l - 1);
      HalfAngleStep(sqrt, dir, Root(sqrt, dir, l - 1));
    }
  }

  /** Half a turn: the root is primitive. */
  lemma {:induction false} RootHalfTurn(sqrt: real -> real, dir: int, l: nat)
    requires IsSqrt(sqrt) && l >= 1
    ensures Pow(Root(sqrt, dir, l), Pow2(l - 1)) == Complex(-1.0, 0.0)
  {
    var w := Root(sqrt, dir, l);
    if l == 1 {
      assert Pow(w, 1) == Mul(w, Pow(w, 0));
    } else {
      hide Mul, Unit, IsSqrt;
      RootSquare(sqrt, dir, l);
      RootHalfTurn(sqrt, dir, l - 1);
      PowTwo(w);
      PowMul(w, 2, Pow2(l - 2));
    }
  }

  /** The fourth root is -i in the forward direction and i in any other. */
  lemma FourthRoot(sqrt: real -> real, dir: int)
    requires IsSqrt(sqrt)
    ensures Root(sqrt, dir, 2) == Complex(0.0, if dir == 1 then -1.0 else 1.0)
  {
    assert Root(sqrt, dir, 1) == Complex(-1.0, 0.0);
    assert (1.0 - -1.0) / 2.0 == 1.0 && (1.0 + -1.0) / 2.0 == 0.0;
    EqualSquares(sqrt(1.0), 1.0);
    EqualSquares(sqrt(0.0), 0.0);
  }

  lemma PowTwo(w: Complex)
    ensures Pow(w, 2) == Mul(w, w)
  {
    hide Mul;
    assert Pow(w, 2) == Mul(w, Pow(w, 1)) == Mul(w, Mul(w, Pow(w, 0)));
    MulOne(w);
  }

  lemma RootFullTurn(sqrt: real -> real, dir: int, l: nat)
    requires IsSqrt(sqrt)
    ensures Pow(Root(sqrt, dir, l), Pow2(l)) == ONE
  {
    var w := Root(sqrt, dir, l);
    if l == 0 {
      PowOne(1);
    } else {
      assert Mul(Complex(-1.0, 0.0), Complex(-1.0, 0.0)) == ONE;
      hide Mul, Unit, IsSqrt;
      RootHalfTurn(sqrt, dir, l);
      PowAdd(w, Pow2(l - 1), Pow2(l - 1));
    }
  }

  /** The reverse root is the conjugate, hence the inverse, of the forward root. */
  lemma {:induction false} RootConjugate(sqrt: real -> real, dir: int, l: nat)
    requires IsSqrt(sqrt) && dir != 1
    ensures Root(sqrt, dir, l) == Conj(Root(sqrt, 1, l))
    ensures Mul(Root(sqrt, dir, l), Root(sqrt, 1, l)) == ONE
  {
    hide Mul, IsSqrt;
    if l >= 2 {
      RootConjugate(sqrt, dir, l - 1);
    }
    RootSquare(sqrt, 1, l);
    UnitInverse(Root(sqrt, 1, l));
  }

  lemma UnitInverse(c: Complex)
    requires c.re * c.re + c.im * c.im == 1.0
    ensures Mul(Conj(c), c) == ONE
  {}

  /** Sequence lookup, zero outside. */
  function At(x: seq<Complex>, i: int): Complex {
    if 0 <= i < |x| then x[i] else ZERO
  }

  /** The weight of sample `t` at frequency `k`. */
  function Weight(w: Complex, k: nat, t: nat): Complex {
    Pow(w, k * t)
  }

  /** One term of a Fourier sum over the samples at `s`, `s + d`, `s + 2 * d`, ... */
  function Term(x: seq<Complex>, w: Complex, s: nat, d: nat, k: nat, t: nat): Complex {
    Mul(At(x, s + t * d), Weight(w, k, t))
  }

  /** The Fourier sum of the first `n` of those samples at frequency `k`. */
  function Strided(x: seq<Complex>, w: Complex, s: nat, d: nat, n: nat, k: nat): Complex {
    Sum(n, (t: nat) => Term(x, w, s, d, k, t))
  }

  /** The discrete Fourier sum: the transform's definition. */
  function Dft(x: seq<Complex>, w: Complex, k: nat): Complex {
    Sum(|x|, (t: nat) => Mul(At(x, t), Weight(w, k, t)))
  }

  lemma StridedIsDft(x: seq<Complex>, w: Complex, k: nat)
    ensures Strided(x, w, 0, 1, |x|, k) == Dft(x, w, k)
  {
    hide Mul, Weight, At, Sum;
    SumCong(|x|, (t: nat) => Term(x, w, 0, 1, k, t), (t: nat) => Mul(At(x, t), Weight(w, k, t)));
  }

  lemma SplitIndex(s: nat, d: nat, t: nat)
    ensures s + (2 * t) * d == s + t * (2 * d)
    ensures s + (2 * t + 1) * d == (s + d) + t * (2 * d)
    ensures d * (2 * t + 1) == d + 2 * (d * t)
  {}

  lemma EvenWeight(w: Complex, k: nat, t: nat)
    ensures Weight(w, k, 2 * t) == Weight(Mul(w, w), k, t)
  {
    hide Mul, Pow;
    PowTwo(w);
    PowMul(w, 2, k * t);
    assert k * (2 * t) == 2 * (k * t);
  }

  lemma OddWeight(w: Complex, k: nat, t: nat)
    ensures Weight(w, k, 2 * t + 1) == Mul(Pow(w, k), Weight(Mul(w, w), k, t))
  {
    hide Mul, Pow;
    var e := k * t;
    SplitIndex(0, k, t);
    PowTwo(w);
    PowMul(w, 2, e);
    PowAdd(w, k, 2 * e);
  }

  lemma EvenTerm(x: seq<Complex>, w: Complex, s: nat, d: nat, k: nat, t: nat)
    ensures Term(x, w, s, d, k, 2 * t) == Term(x, Mul(w, w), s, 2 * d, k, t)
  {
    hide Mul, Weight, At;
    EvenWeight(w, k, t);
    SplitIndex(s, d, t);
  }

  lemma OddTerm(x: seq<Complex>, w: Complex, s: nat, d: nat, k: nat, t: nat)
    ensures Term(x, w, s, d, k, 2 * t + 1) == Mul(Pow(w, k), Term(x, Mul(w, w), s + d, 2 * d, k, t))
  {
    hide Mul, Weight, At, Pow;
    OddWeight(w, k, t);
    SplitIndex(s, d, t);
    MulSwap(At(x, (s + d) + t * (2 * d)), Pow(w, k), Weight(Mul(w, w), k, t));
  }

  /** Decimation in time: a sum of `2 * n` samples from its even and odd halves. */
  lemma StridedSplit(x: seq<Complex>, w: Complex, s: nat, d: nat, n: nat, k: nat)
    ensures Strided(x, w, s, d, 2 * n, k)
         == Add(Strided(x, Mul(w, w), s, 2 * d, n, k),
                Mul(Pow(w, k), Strided(x, Mul(w, w), s + d, 2 * d, n, k)))
  {
    hide Mul, Pow, Sum, Add, Term;
    var f := (t: nat) => Term(x, w, s, d, k, t);
    var even := (t: nat) => Term(x, Mul(w, w), s, 2 * d, k, t);
    var odd := (t: nat) => Term(x, Mul(w, w), s + d, 2 * d, k, t);
    SumParity(n, f);
    forall t: nat ensures f(2 * t) == even(t) { EvenTerm(x, w, s, d, k, t); }
    SumCong(n, (t: nat) => f(2 * t), even);
    forall t: nat ensures f(2 * t + 1) == Mul(Pow(w, k), odd(t)) { OddTerm(x, w, s, d, k, t); }
    SumCong(n, (t: nat) => f(2 * t + 1), (t: nat) => Mul(Pow(w, k), odd(t)));
    SumMul(n, odd, Pow(w, k));
  }

  /** Shifting the frequency by a full turn changes nothing. */
  lemma StridedPeriodic(x: seq<Complex>, w: Complex, s: nat, d: nat, n: nat, k: nat, turn: nat)
    requires Pow(w, turn) == ONE
    ensures Strided(x, w, s, d, n, k + turn) == Strided(x, w, s, d, n, k)
  {
    hide Mul, Weight, At, Sum;
    forall t: nat
      ensures Term(x, w, s, d, k + turn, t) == Term(x, w, s, d, k, t)
    {
      WeightPeriodic(w, k, turn, t);
    }
    SumCong(n, (t: nat) => Term(x, w, s, d, k + turn, t), (t: nat) => Term(x, w, s, d, k, t));
  }

  lemma WeightPeriodic(w: Complex, k: nat, turn: nat, t: nat)
    requires Pow(w, turn) == ONE
    ensures Weight(w, k + turn, t) == Weight(w, k, t)
  {
    hide Mul, Pow;
    MulOne(Pow(w, k * t));
    PowAdd(w, k * t, turn * t);
    PowMul(w, turn, t);
    PowOne(t);
    assert (k + turn) * t == k * t + turn * t;
  }

  /** 1 + w^d + w^(2 d) + ... , `n` terms. */
  function PowSum(w: Complex, d: nat, n: nat): Complex {
    Sum(n, (k: nat) => Weight(w, d, k))
  }

  lemma PowSumSplit(w: Complex, d: nat, n: nat)
    ensures PowSum(w, d, 2 * n) == Add(PowSum(Mul(w, w), d, n), Mul(Pow(w, d), PowSum(Mul(w, w), d, n)))
  {
    hide Mul, Pow, Sum, Add, Weight;
    var f := (k: nat) => Weight(w, d, k);
    var g := (k: nat) => Weight(Mul(w, w), d, k);
    SumParity(n, f);
    forall k: nat ensures f(2 * k) == g(k) { EvenWeight(w, d, k); }
    SumCong(n, (k: nat) => f(2 * k), g);
    forall k: nat ensures f(2 * k + 1) == Mul(Pow(w, d), g(k)) { OddWeight(w, d, k); }
    SumCong(n, (k: nat) => f(2 * k + 1), (k: nat) => Mul(Pow(w, d), g(k)));
    SumMul(n, g, Pow(w, d));
  }

  lemma PowSumPeriodic(w: Complex, d: nat, n: nat, turn: nat)
    requires Pow(w, turn) == ONE
    ensures PowSum(w, d + turn, n) == PowSum(w, d, n)
  {
    hide Sum, Weight;
    forall k: nat
      ensures Weight(w, d + turn, k) == Weight(w, d, k)
    {
      WeightPeriodic(w, d, turn, k);
    }
    SumCong(n, (k: nat) => Weight(w, d + turn, k), (k: nat) => Weight(w, d, k));
  }

  /** Orthogonality: the powers of a nontrivial step around the circle cancel. */
  lemma {:induction false} RootOrthogonal(sqrt: real -> real, dir: int, l: nat, d: nat)
    requires IsSqrt(sqrt) && 0 < d < Pow2(l)
    ensures PowSum(Root(sqrt, dir, l), d, Pow2(l)) == ZERO
  {
    hide Mul, Pow, PowSum, IsSqrt, Root, Unit;
    var w, v, h := Root(sqrt, dir, l), Root(sqrt, dir, l - 1), Pow2(l - 1);
    RootSquare(sqrt, dir, l);
    PowSumSplit(w, d, h);
    var rest := PowSum(v, d, h);
    if d == h {
      RootHalfTurn(sqrt, dir, l);
      MulMinusOne(rest);
    } else {
      if d < h {
        RootOrthogonal(sqrt, dir, l - 1, d);
      } else {
        RootOrthogonal(sqrt, dir, l - 1, d - h);
        RootFullTurn(sqrt, dir, l - 1);
        PowSumPeriodic(v, d - h, h, h);
      }
      MulZero(Pow(w, d));
    }
  }

  lemma MulMinusOne(a: Complex)
    ensures Add(a, Mul(Complex(-1.0, 0.0), a)) == ZERO
  {}

  lemma MulZero(a: Complex)
    ensures Mul(a, ZERO) == ZERO == Mul(ZERO, a)
  {}

  /** The transform at every frequency. */
  function Transform(x: seq<Complex>, w: Complex): (y: seq<Complex>)
    ensures |y| == |x|
  {
    seq(|x|, (k: nat) => Dft(x, w, k))
  }

  function ScaleAll(r: real, x: seq<Complex>): (y: seq<Complex>)
    ensures |y| == |x|
  {
    seq(|x|, i requires 0 <= i < |x| => Scale(r, x[i]))
  }

  /** What the forward call computes: the sums over the clockwise root, divided by the length. */
  function Forward(sqrt: real -> real, m: nat, x: seq<Complex>): (y: seq<Complex>)
    requires |x| == Pow2(m)
    ensures |y| == |x|
  {
    ScaleAll(1.0 / |x| as real, Transform(x, Root(sqrt, 1, m)))
  }

  /** What any other direction computes: the plain sums over the counter-clockwise root. */
  function Reverse(sqrt: real -> real, dir: int, m: nat, x: seq<Complex>): (y: seq<Complex>)
    ensures |y| == |x|
  {
    Transform(x, Root(sqrt, dir, m))
  }

  /** In figures, for four samples and the frequency of one turn. */
  lemma FourPoints(sqrt: real -> real, dir: int, x: seq<Complex>)
    requires IsSqrt(sqrt) && |x| == 4 && dir != 1
    ensures Pow2(2) == 4
    ensures Scale(4.0, Forward(sqrt, 2, x)[1])
         == Complex(x[0].re + x[1].im - x[2].re - x[3].im, x[0].im - x[1].re - x[2].im + x[3].re)
    ensures Reverse(sqrt, dir, 2, x)[1]
         == Complex(x[0].re - x[1].im - x[2].re + x[3].im, x[0].im + x[1].re - x[2].im - x[3].re)
  {
    hide Root, IsSqrt, Dft;
    FourthRoot(sqrt, 1);
    FourthRoot(sqrt, dir);
    OneTurn(x, Root(sqrt, 1, 2));
    OneTurn(x, Root(sqrt, dir, 2));
    assert Pow2(1) == 2;
    TimesThenDivided(4.0, Dft(x, Root(sqrt, 1, 2), 1));
  }

  lemma TimesThenDivided(n: real, a: Complex)
    requires n > 0.0
    ensures Scale(n, Scale(1.0 / n, a)) == a
  {
    assert n * (1.0 / n) == 1.0;
    assert n * (1.0 / n * a.re) == (n * (1.0 / n)) * a.re && n * (1.0 / n * a.im) == (n * (1.0 / n)) * a.im;
  }

  /** The sum of four samples over a quarter turn each. */
  lemma OneTurn(x: seq<Complex>, w: Complex)
    requires |x| == 4 && (w == Complex(0.0, -1.0) || w == Complex(0.0, 1.0))
    ensures Dft(x, w, 1)
         == if w.im == 1.0 then Complex(x[0].re - x[1].im - x[2].re + x[3].im, x[0].im + x[1].re - x[2].im - x[3].re)
            else Complex(x[0].re + x[1].im - x[2].re - x[3].im, x[0].im - x[1].re - x[2].im + x[3].re)
  {
    hide Dft, Mul, Add;
    Turns(w);
    QuarterOf(x, w, [ONE, w, Complex(-1.0, 0.0), Complex(0.0, -w.im)]);
    if w.im == 1.0 { PartsAdd(x, Complex(0.0, 1.0), Complex(0.0, -1.0)); } else { PartsAdd(x, Complex(0.0, -1.0), Complex(0.0, 1.0)); }
  }

  lemma Turns(w: Complex)
    requires w == Complex(0.0, -1.0) || w == Complex(0.0, 1.0)
    ensures Mul(w, ONE) == w && Mul(w, w) == Complex(-1.0, 0.0) && Mul(w, Complex(-1.0, 0.0)) == Complex(0.0, -w.im)
  {
    hide Mul;
    MulImaginary(w.im, 1.0, 0.0);
    MulImaginary(w.im, 0.0, w.im);
    MulImaginary(w.im, -1.0, 0.0);
  }

  lemma MulImaginary(t: real, a: real, b: real)
    requires t == 1.0 || t == -1.0
    ensures Mul(Complex(0.0, t), Complex(a, b)) == if t == 1.0 then Complex(-b, a) else Complex(b, -a)
  {
  }

  lemma PartsAdd(x: seq<Complex>, w: Complex, v: Complex)
    requires |x| == 4
    requires (w == Complex(0.0, -1.0) && v == Complex(0.0, 1.0)) || (w == Complex(0.0, 1.0) && v == Complex(0.0, -1.0))
    ensures Add(Add(Add(Mul(x[0], ONE), Mul(x[1], w)), Mul(x[2], Complex(-1.0, 0.0))), Mul(x[3], v))
         == if w.im == 1.0 then Complex(x[0].re - x[1].im - x[2].re + x[3].im, x[0].im + x[1].re - x[2].im - x[3].re)
            else Complex(x[0].re + x[1].im - x[2].re - x[3].im, x[0].im - x[1].re - x[2].im + x[3].re)
  {
  }

  lemma QuarterOf(x: seq<Complex>, w: Complex, p: seq<Complex>)
    requires |x| == |p| == 4 && p[0] == ONE && p[1] == Mul(w, p[0]) && p[2] == Mul(w, p[1]) && p[3] == Mul(w, p[2])
    ensures Dft(x, w, 1) == Add(Add(Add(Mul(x[0], p[0]), Mul(x[1], p[1])), Mul(x[2], p[2])), Mul(x[3], p[3]))
  {
    hide Mul, Weight, Dft, Add;
    forall t: nat | t < 4 ensures Weight(w, 1, t) == p[t] { QuarterTurns(w, p, t); }
    QuarterSum(x, w, p);
  }

  lemma QuarterSum(x: seq<Complex>, w: Complex, p: seq<Complex>)
    requires |x| == |p| == 4 && forall t: nat :: t < 4 ==> Weight(w, 1, t) == p[t]
    ensures Dft(x, w, 1) == Add(Add(Add(Mul(x[0], p[0]), Mul(x[1], p[1])), Mul(x[2], p[2])), Mul(x[3], p[3]))
  {
    hide Mul, Weight, Sum, Add;
    SumFour((t: nat) => Mul(At(x, t), Weight(w, 1, t)));
  }

  lemma SumFour(f: nat -> Complex)
    ensures Sum(4, f) == Add(Add(Add(f(0), f(1)), f(2)), f(3))
  {
    assert Sum(0, f) == ZERO;
    assert Sum(1, f) == f(0);
    assert Sum(3, f) == Add(Sum(2, f), f(2));
  }

  lemma {:induction false} QuarterTurns(w: Complex, p: seq<Complex>, t: nat)
    requires |p| == 4 && t < 4 && p[0] == ONE && forall i :: 1 <= i < 4 ==> p[i] == Mul(w, p[i - 1])
    ensures Weight(w, 1, t) == p[t]
  {
    hide Mul;
    if t > 0 { QuarterTurns(w, p, t - 1); }
  }

  lemma PowCancel(v: Complex, w: Complex, a: nat, b: nat)
    requires Mul(v, w) == ONE
    ensures Mul(Pow(w, a + b), Pow(v, b)) == Pow(w, a)
  {
    hide Mul, Pow;
    PowAdd(w, a, b);
    PowProduct(v, w, b);
    PowOne(b);
    MulAssoc(Pow(w, a), Pow(w, b), Pow(v, b));
    MulComm(Pow(w, b), Pow(v, b));
    MulOne(Pow(w, a));
  }

  /** The product of a weight and an inverse weight is a weight at the difference of the frequencies. */
  lemma WeightCancel(v: Complex, w: Complex, t: nat, j: nat, k: nat)
    requires Mul(v, w) == ONE
    ensures Mul(Weight(w, k, t), Weight(v, j, k)) == if t >= j then Weight(w, t - j, k) else Weight(v, j - t, k)
  {
    hide Mul, Pow;
    if t >= j {
      assert k * t == (t - j) * k + j * k;
      PowCancel(v, w, (t - j) * k, j * k);
    } else {
      assert j * k == (j - t) * k + k * t;
      MulComm(v, w);
      PowCancel(w, v, (j - t) * k, k * t);
      MulComm(Pow(w, k * t), Pow(v, j * k));
    }
  }

  /** Sums of weights cancel unless the step is trivial. */
  ghost predicate Orthogonal(w: Complex, n: nat) {
    forall d: nat :: 0 < d < n ==> PowSum(w, d, n) == ZERO
  }

  lemma KernelSum(v: Complex, w: Complex, n: nat, t: nat, j: nat)
    requires Mul(v, w) == ONE && Orthogonal(v, n) && Orthogonal(w, n) && t < n && j < n
    ensures Sum(n, (k: nat) => Mul(Weight(w, k, t), Weight(v, j, k))) == if t == j then Scale(n as real, ONE) else ZERO
  {
    hide Mul, Weight, Sum, Scale;
    var f := (k: nat) => Mul(Weight(w, k, t), Weight(v, j, k));
    forall k: nat
      ensures f(k) == if t >= j then Weight(w, t - j, k) else Weight(v, j - t, k)
    {
      WeightCancel(v, w, t, j, k);
    }
    if t >= j {
      SumCong(n, f, (k: nat) => Weight(w, t - j, k));
      assert Sum(n, f) == PowSum(w, t - j, n);
      if t == j {
        forall k: nat ensures Weight(w, 0, k) == ONE { WeightZero(w, k); }
        SumConst(n, (k: nat) => Weight(w, t - j, k), ONE);
      }
    } else {
      SumCong(n, f, (k: nat) => Weight(v, j - t, k));
      assert Sum(n, f) == PowSum(v, j - t, n);
    }
  }

  lemma WeightZero(w: Complex, k: nat)
    ensures Weight(w, 0, k) == ONE
  {
    assert 0 * k == 0;
  }

  /** Transforming with a root and then with its inverse multiplies every sample by the length. */
  lemma TransformInverts(x: seq<Complex>, v: Complex, w: Complex, j: nat)
    requires Mul(v, w) == ONE && Orthogonal(v, |x|) && Orthogonal(w, |x|) && j < |x|
    ensures Dft(Transform(x, w), v, j) == Scale(|x| as real, x[j])
  {
    hide Mul, Weight, Sum, Orthogonal, Scale, At;
    var n := |x|;
    var y := Transform(x, w);
    var f := (k: nat, t: nat) => Mul(At(x, t), Mul(Weight(w, k, t), Weight(v, j, k)));
    forall k: nat | k < n
      ensures Mul(At(y, k), Weight(v, j, k)) == Sum(n, (t: nat) => f(k, t))
    {
      InnerSum(x, v, w, j, k);
      SumCong(n, (t: nat) => Mul(At(x, t), Mul(Weight(w, k, t), Weight(v, j, k))), (t: nat) => f(k, t));
    }
    SumCong(n, (k: nat) => Mul(At(y, k), Weight(v, j, k)), (k: nat) => Sum(n, (t: nat) => f(k, t)));
    SumSwap(n, n, f);
    var column := (t: nat) => Sum(n, (k: nat) => f(k, t));
    forall t: nat | t < n
      ensures column(t) == if t == j then Scale(n as real, x[j]) else ZERO
    {
      ColumnSum(x, v, w, j, t);
      SumCong(n, (k: nat) => Mul(At(x, t), Mul(Weight(w, k, t), Weight(v, j, k))), (k: nat) => f(k, t));
    }
    SumSingle(n, column, j);
  }

  lemma InnerSum(x: seq<Complex>, v: Complex, w: Complex, j: nat, k: nat)
    requires k < |x|
    ensures Mul(At(Transform(x, w), k), Weight(v, j, k))
         == Sum(|x|, (t: nat) => Mul(At(x, t), Mul(Weight(w, k, t), Weight(v, j, k))))
  {
    hide Mul, Weight, Sum;
    var u := Weight(v, j, k);
    var g := (t: nat) => Mul(At(x, t), Weight(w, k, t));
    assert At(Transform(x, w), k) == Sum(|x|, g);
    MulComm(Sum(|x|, g), u);
    SumMul(|x|, g, u);
    forall t: nat
      ensures Mul(u, g(t)) == Mul(At(x, t), Mul(Weight(w, k, t), u))
    {
      MulSwap(u, At(x, t), Weight(w, k, t));
      MulComm(u, Weight(w, k, t));
    }
    SumCong(|x|, (t: nat) => Mul(u, g(t)), (t: nat) => Mul(At(x, t), Mul(Weight(w, k, t), Weight(v, j, k))));
  }

  lemma ColumnSum(x: seq<Complex>, v: Complex, w: Complex, j: nat, t: nat)
    requires Mul(v, w) == ONE && Orthogonal(v, |x|) && Orthogonal(w, |x|) && j < |x| && t < |x|
    ensures Sum(|x|, (k: nat) => Mul(At(x, t), Mul(Weight(w, k, t), Weight(v, j, k))))
         == if t == j then Scale(|x| as real, x[j]) else ZERO
  {
    hide Mul, Weight, Sum, Orthogonal, Scale;
    var kernel := (k: nat) => Mul(Weight(w, k, t), Weight(v, j, k));
    SumMul(|x|, kernel, At(x, t));
    SumCong(|x|, (k: nat) => Mul(At(x, t), kernel(k)), (k: nat) => Mul(At(x, t), Mul(Weight(w, k, t), Weight(v, j, k))));
    KernelSum(v, w, |x|, t, j);
    if t == j {
      MulScale(|x| as real, x[j]);
    } else {
      MulZero(x[t]);
    }
  }

  lemma MulScale(r: real, a: Complex)
    ensures Mul(a, Scale(r, ONE)) == Scale(r, a)
  {}

  lemma ScaleMul(r: real, a: Complex, b: Complex)
    ensures Mul(Scale(r, a), b) == Scale(r, Mul(a, b))
  {}

  lemma {:induction false} SumScale(n: nat, f: nat -> Complex, r: real)
    ensures Sum(n, (t: nat) => Scale(r, f(t))) == Scale(r, Sum(n, f))
  {
    if n > 0 { SumScale(n - 1, f, r); }
  }

  /** The transform is homogeneous. */
  lemma DftScale(x: seq<Complex>, w: Complex, r: real, k: nat)
    ensures Dft(ScaleAll(r, x), w, k) == Scale(r, Dft(x, w, k))
  {
    hide Mul, Weight, Sum, Scale;
    var f := (t: nat) => Mul(At(x, t), Weight(w, k, t));
    forall t: nat | t < |x|
      ensures Mul(At(ScaleAll(r, x), t), Weight(w, k, t)) == Scale(r, f(t))
    {
      ScaleMul(r, x[t], Weight(w, k, t));
    }
    SumCong(|x|, (t: nat) => Mul(At(ScaleAll(r, x), t), Weight(w, k, t)), (t: nat) => Scale(r, f(t)));
    SumScale(|x|, f, r);
  }

  lemma ScaleInverse(n: real, a: Complex)
    requires n > 0.0
    ensures Scale(1.0 / n, Scale(n, a)) == a
  {
    assert (1.0 / n) * n == 1.0;
    assert (1.0 / n) * (n * a.re) == ((1.0 / n) * n) * a.re;
    assert (1.0 / n) * (n * a.im) == ((1.0 / n) * n) * a.im;
  }

  lemma RootsInvert(sqrt: real -> real, dir: int, m: nat)
    requires IsSqrt(sqrt) && dir != 1
    ensures Mul(Root(sqrt, dir, m), Root(sqrt, 1, m)) == ONE == Mul(Root(sqrt, 1, m), Root(sqrt, dir, m))
    ensures Orthogonal(Root(sqrt, dir, m), Pow2(m)) && Orthogonal(Root(sqrt, 1, m), Pow2(m))
  {
    hide Mul, Root, IsSqrt, PowSum;
    RootConjugate(sqrt, dir, m);
    MulComm(Root(sqrt, dir, m), Root(sqrt, 1, m));
    forall d: nat | 0 < d < Pow2(m)
      ensures PowSum(Root(sqrt, dir, m), d, Pow2(m)) == ZERO == PowSum(Root(sqrt, 1, m), d, Pow2(m))
    {
      RootOrthogonal(sqrt, dir, m, d);
      RootOrthogonal(sqrt, 1, m, d);
    }
  }

  /** Round trip: the reverse transform undoes the forward one, for every length and every input. */
  lemma ReverseUndoesForward(sqrt: real -> real, dir: int, m: nat, x: seq<Complex>)
    requires IsSqrt(sqrt) && dir != 1 && |x| == Pow2(m)
    ensures Reverse(sqrt, dir, m, Forward(sqrt, m, x)) == x
  {
    hide Mul, Root, IsSqrt, Dft, Scale, Orthogonal;
    RootsInvert(sqrt, dir, m);
    var v, w, n := Root(sqrt, dir, m), Root(sqrt, 1, m), |x| as real;
    forall j | 0 <= j < |x|
      ensures Dft(Forward(sqrt, m, x), v, j) == x[j]
    {
      DftScale(Transform(x, w), v, 1.0 / n, j);
      TransformInverts(x, v, w, j);
      ScaleInverse(n, x[j]);
    }
  }

  /** And the other way round. */
  lemma ForwardUndoesReverse(sqrt: real -> real, dir: int, m: nat, x: seq<Complex>)
    requires IsSqrt(sqrt) && dir != 1 && |x| == Pow2(m)
    ensures Forward(sqrt, m, Reverse(sqrt, dir, m, x)) == x
  {
    hide Mul, Root, IsSqrt, Dft, Scale, Orthogonal;
    RootsInvert(sqrt, dir, m);
    var v, w, n := Root(sqrt, dir, m), Root(sqrt, 1, m), |x| as real;
    forall j | 0 <= j < |x|
      ensures Forward(sqrt, m, Reverse(sqrt, dir, m, x))[j] == x[j]
    {
      TransformInverts(x, w, v, j);
      ScaleInverse(n, x[j]);
    }
  }
}
