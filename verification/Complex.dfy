/** Exact complex arithmetic, powers and finite sums: the algebra the transform is stated in. */
module ComplexNumbers {

  datatype Complex = Complex(re: real, im: real)

  const ZERO := Complex(0.0, 0.0)
  const ONE := Complex(1.0, 0.0)

  function Add(a: Complex, b: Complex): Complex {
    Complex(a.re + b.re, a.im + b.im)
  }

  function Sub(a: Complex, b: Complex): Complex {
    Complex(a.re - b.re, a.im - b.im)
  }

  function Neg(a: Complex): Complex {
    Complex(-a.re, -a.im)
  }

  function Mul(a: Complex, b: Complex): Complex {
    Complex(a.re * b.re - a.im * b.im, a.re * b.im + a.im * b.re)
  }

  function Conj(a: Complex): Complex {
    Complex(a.re, -a.im)
  }

  function Scale(r: real, a: Complex): Complex {
    Complex(r * a.re, r * a.im)
  }

  lemma MulComm(a: Complex, b: Complex)
    ensures Mul(a, b) == Mul(b, a)
  {}

  lemma MulAssoc(a: Complex, b: Complex, c: Complex)
    ensures Mul(Mul(a, b), c) == Mul(a, Mul(b, c))
  {}

  lemma MulDist(a: Complex, b: Complex, c: Complex)
    ensures Mul(a, Add(b, c)) == Add(Mul(a, b), Mul(a, c))
  {}

  lemma MulSwap(a: Complex, p: Complex, q: Complex)
    ensures Mul(a, Mul(p, q)) == Mul(p, Mul(a, q))
  {
    MulAssoc(a, p, q);
    MulComm(a, p);
    MulAssoc(p, a, q);
  }

  lemma MulOne(a: Complex)
    ensures Mul(a, ONE) == a == Mul(ONE, a)
  {}

  function Pow(w: Complex, k: nat): Complex {
    if k == 0 then ONE else Mul(w, Pow(w, k - 1))
  }

  lemma {:induction false} PowAdd(w: Complex, j: nat, k: nat)
    ensures Pow(w, j + k) == Mul(Pow(w, j), Pow(w, k))
  {
    if j > 0 {
      PowAdd(w, j - 1, k);
      MulAssoc(w, Pow(w, j - 1), Pow(w, k));
    }
  }

  lemma {:induction false} PowMul(w: Complex, j: nat, k: nat)
    ensures Pow(w, j * k) == Pow(Pow(w, j), k)
  {
    hide Mul;
    if k > 0 {
      var rest := j * (k - 1);
      assert j * k == j + rest;
      PowAdd(w, j, rest);
      PowMul(w, j, k - 1);
    }
  }

  lemma {:induction false} PowOne(k: nat)
    ensures Pow(ONE, k) == ONE
  {
    hide Mul;
    if k > 0 {
      PowOne(k - 1);
      MulOne(ONE);
    }
  }

  /** Powers of a product, which for `v == Conj(w)` on the unit circle collapse to one. */
  lemma {:induction false} PowProduct(v: Complex, w: Complex, k: nat)
    ensures Mul(Pow(v, k), Pow(w, k)) == Pow(Mul(v, w), k)
  {
    if k > 0 {
      var p, q := Pow(v, k - 1), Pow(w, k - 1);
      calc {
        Mul(Mul(v, p), Mul(w, q));
        { MulAssoc(Mul(v, p), w, q); }
        Mul(Mul(Mul(v, p), w), q);
        { MulAssoc(v, p, w); MulComm(p, w); MulAssoc(v, w, p); }
        Mul(Mul(Mul(v, w), p), q);
        { MulAssoc(Mul(v, w), p, q); }
        Mul(Mul(v, w), Mul(p, q));
      }
      PowProduct(v, w, k - 1);
    }
  }

  /** f(0) + f(1) + ... + f(n - 1). */
  function Sum(n: nat, f: nat -> Complex): Complex {
    if n == 0 then ZERO else Add(Sum(n - 1, f), f(n - 1))
  }

  lemma {:induction false} SumCong(n: nat, f: nat -> Complex, g: nat -> Complex)
    requires forall t: nat :: t < n ==> f(t) == g(t)
    ensures Sum(n, f) == Sum(n, g)
  {
    if n > 0 { SumCong(n - 1, f, g); }
  }

  lemma {:induction false} SumMul(n: nat, f: nat -> Complex, c: Complex)
    ensures Mul(c, Sum(n, f)) == Sum(n, (t: nat) => Mul(c, f(t)))
  {
    if n > 0 {
      SumMul(n - 1, f, c);
      MulDist(c, Sum(n - 1, f), f(n - 1));
    }
  }

  lemma {:induction false} SumAdd(n: nat, f: nat -> Complex, g: nat -> Complex)
    ensures Sum(n, (t: nat) => Add(f(t), g(t))) == Add(Sum(n, f), Sum(n, g))
  {
    if n > 0 { SumAdd(n - 1, f, g); }
  }

  /** Exchanging the order of a double sum. */
  lemma {:induction false} SumSwap(n: nat, m: nat, f: (nat, nat) -> Complex)
    ensures Sum(n, (k: nat) => Sum(m, (t: nat) => f(k, t))) == Sum(m, (t: nat) => Sum(n, (k: nat) => f(k, t)))
  {
    if n == 0 {
      SumZero(m, (t: nat) => Sum(n, (k: nat) => f(k, t)));
    } else {
      SumSwap(n - 1, m, f);
      var inner := (t: nat) => Sum(n - 1, (k: nat) => f(k, t));
      var last := (t: nat) => f(n - 1, t);
      SumAdd(m, inner, last);
      SumCong(m, (t: nat) => Add(inner(t), last(t)), (t: nat) => Sum(n, (k: nat) => f(k, t)));
    }
  }

  lemma {:induction false} SumZero(n: nat, f: nat -> Complex)
    requires forall t: nat :: t < n ==> f(t) == ZERO
    ensures Sum(n, f) == ZERO
  {
    if n > 0 { SumZero(n - 1, f); }
  }

  /** Only one term differs from zero. */
  lemma {:induction false} SumSingle(n: nat, f: nat -> Complex, j: nat)
    requires j < n
    requires forall t: nat :: t < n && t != j ==> f(t) == ZERO
    ensures Sum(n, f) == f(j)
  {
    if n - 1 == j {
      SumZero(n - 1, f);
    } else {
      SumSingle(n - 1, f, j);
    }
  }

  lemma SumNone(f: nat -> Complex)
    ensures Sum(0, f) == ZERO == Add(ZERO, ZERO)
  {
  }

  lemma AddPairs(a: Complex, b: Complex, c: Complex, d: Complex)
    ensures Add(Add(Add(a, b), c), d) == Add(Add(a, c), Add(b, d))
  {
  }

  lemma SumLast(n: nat, f: nat -> Complex)
    requires n > 0
    ensures Sum(n, f) == Add(Sum(n - 1, f), f(n - 1))
  {
  }

  /** Splitting an even number of terms by parity of the index. */
  lemma {:induction false} SumParity(n: nat, f: nat -> Complex)
    ensures Sum(2 * n, f) == Add(Sum(n, (t: nat) => f(2 * t)), Sum(n, (t: nat) => f(2 * t + 1)))
  {
    hide Sum, Add;
    var even, odd := (t: nat) => f(2 * t), (t: nat) => f(2 * t + 1);
    if n == 0 {
      SumNone(f);
      SumNone(even);
      SumNone(odd);
    } else {
      SumParity(n - 1, f);
      SumLast(2 * n, f);
      SumLast(2 * n - 1, f);
      SumLast(n, even);
      SumLast(n, odd);
      assert even(n - 1) == f(2 * n - 2) && odd(n - 1) == f(2 * n - 1);
      AddPairs(Sum(n - 1, even), Sum(n - 1, odd), f(2 * n - 2), f(2 * n - 1));
    }
  }

  lemma {:induction false} SumConst(n: nat, f: nat -> Complex, c: Complex)
    requires forall t: nat :: t < n ==> f(t) == c
    ensures Sum(n, f) == Scale(n as real, c)
  {
    hide Scale;
    ScaleStep(n, c);
    if n > 0 { SumConst(n - 1, f, c); }
  }

  lemma ScaleStep(n: nat, c: Complex)
    ensures Scale(0.0, c) == ZERO
    ensures n > 0 ==> Scale(n as real, c) == Add(Scale((n - 1) as real, c), c)
  {
    if n > 0 {
      var x := (n - 1) as real;
      assert n as real == x + 1.0;
      assert (x + 1.0) * c.re == x * c.re + c.re && (x + 1.0) * c.im == x * c.im + c.im;
    }
  }
}
