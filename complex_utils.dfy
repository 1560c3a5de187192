/**
 * The algebraic part of src/Complex/Utils.php: magnitude squared, conjugate,
 * negative, the four arithmetic operations and their real/imaginary scalar
 * forms, inverse, the Smith-style principal square root and the square root
 * of a real number.
 *
 * Floats are exact reals. `abs2` and `abs` return a float and `areEqual` a
 * boolean; the other functions here build their result with `complex($r, $i)` (`sub`
 * through `add`), which is `Complex::new($r, $i)` on two numbers, that is
 * `Complex(r, i)` (lemma MathComplex.NewOfNumbers). PHP's `\sqrt` is libm's and is not
 * modelled: the operations that need it take it as the parameter `rt`, and
 * `IsSqrt(rt)` says that it is the exact non-negative square root.
 */
module ComplexUtils {
  import opened Wrappers
  import opened MathComplex

  /** The `\DivisionByZeroError` thrown by `div` and `inverse`. */
  datatype MathError = DivisionByZero

  const One: Complex := Complex(1.0, 0.0)

  // ---------------------------------------------------------------------------
  // The real square root

  /** `rt(x)` is a non-negative number whose square is `x`. */
  ghost predicate RootOf(rt: real -> real, x: real)
  {
    0.0 <= rt(x) && rt(x) * rt(x) == x
  }

  /** `rt` is the exact non-negative square root on the non-negative reals. */
  ghost predicate IsSqrt(rt: real -> real)
  {
    forall x :: 0.0 <= x ==> RootOf(rt, x)
  }

  /** What IsSqrt says at one argument; proofs call it for each root they use. */
  lemma Root(rt: real -> real, x: real)
    requires IsSqrt(rt)
    requires 0.0 <= x
    ensures 0.0 <= rt(x) && rt(x) * rt(x) == x
  {
    assert RootOf(rt, x);
  }

  /** A non-negative number whose square is `x` is the square root of `x`. */
  lemma SqrtUnique(rt: real -> real, x: real, u: real)
    requires IsSqrt(rt)
    requires 0.0 <= u && u * u == x
    ensures rt(x) == u
  {
    Root(rt, x);
    var v := rt(x);
    assert (v - u) * (v + u) == 0.0;
    if v + u == 0.0 {
      assert v == 0.0 && u == 0.0;
    } else {
      assert v - u == ((v - u) * (v + u)) / (v + u);
    }
  }

  /** The square root is 0 exactly at 0. */
  lemma SqrtZeroIff(rt: real -> real, x: real)
    requires IsSqrt(rt)
    requires 0.0 <= x
    ensures rt(x) == 0.0 <==> x == 0.0
  {
    Root(rt, x);
    if x == 0.0 {
      SqrtUnique(rt, x, 0.0);
    }
  }

  /** PHP's global `\abs` on a float. */
  function RealAbs(x: real): (r: real)
    ensures 0.0 <= r && (r == x || r == -x)
  {
    if x < 0.0 then -x else x
  }

  /** |a|^2 == a^2. */
  lemma RealAbsSquared(a: real)
    ensures RealAbs(a) * RealAbs(a) == a * a
  {
    if a < 0.0 {
      assert RealAbs(a) == -a;
      assert (-a) * (-a) == a * a;
    }
  }

  // ---------------------------------------------------------------------------
  // Magnitude, conjugate, negative

  /** A product of two positive numbers, named `r`, is positive. */
  lemma ProductPositive(x: real, y: real, r: real)
    requires r == x * y
    requires 0.0 < x && 0.0 < y
    ensures 0.0 < r
  {
  }

  /** A square, named `p`, is non-negative, and 0 only for 0. */
  lemma SquareFacts(a: real, p: real)
    requires p == a * a
    ensures 0.0 <= p
    ensures p == 0.0 <==> a == 0.0
  {
    if 0.0 < a {
      ProductPositive(a, a, p);
    } else if a < 0.0 {
      ProductPositive(-a, -a, p);
    }
  }

  /** A sum of two squares is non-negative, and 0 only when both terms are. */
  lemma SumOfSquares(a: real, b: real)
    ensures 0.0 <= a * a + b * b
    ensures a * a + b * b == 0.0 <==> a == 0.0 && b == 0.0
  {
    var p, q := a * a, b * b;
    SquareFacts(a, p);
    SquareFacts(b, q);
  }

  /** `abs2`: the squared magnitude, never negative and 0 only at 0 + 0i. */
  function Abs2(z: Complex): (r: real)
    ensures 0.0 <= r
    ensures r == 0.0 <==> z == Zero
  {
    SumOfSquares(z.re, z.im);
    z.re * z.re + z.im * z.im
  }

  /** `abs`, as `inverse` uses it: the square root of `abs2`. */
  function Abs(z: Complex, rt: real -> real): real
  {
    rt(Abs2(z))
  }

  /** The magnitude is a non-negative square root of `abs2`, and 0 only at 0 + 0i. */
  lemma AbsSquared(z: Complex, rt: real -> real)
    requires IsSqrt(rt)
    ensures 0.0 <= Abs(z, rt) && Abs(z, rt) * Abs(z, rt) == Abs2(z)
    ensures Abs(z, rt) == 0.0 <==> z == Zero
  {
    var n := Abs2(z);
    Root(rt, n);
    SqrtZeroIff(rt, n);
  }

  /** `conjugate`. */
  function Conjugate(z: Complex): Complex
  {
    Complex(z.re, -z.im)
  }

  /** `negative`. */
  function Negative(z: Complex): Complex
  {
    Complex(-z.re, -z.im)
  }

  /** Conjugation is an involution, keeps `abs2`, and z * conj(z) is abs2(z) + 0i. */
  lemma ConjugateProperties(z: Complex)
    ensures Conjugate(Conjugate(z)) == z
    ensures Abs2(Conjugate(z)) == Abs2(z)
    ensures Mult(z, Conjugate(z)) == Complex(Abs2(z), 0.0)
  {
  }

  /** Negation is an involution and the additive inverse. */
  lemma NegativeProperties(z: Complex)
    ensures Negative(Negative(z)) == z
    ensures Add(z, Negative(z)) == Zero
    ensures Abs2(Negative(z)) == Abs2(z)
  {
  }

  // ---------------------------------------------------------------------------
  // Equality, sum, difference, product

  /** `areEqual`: exact equality of both components, no tolerance. */
  function AreEqual(a: Complex, b: Complex): (r: bool)
    ensures r <==> a == b
  {
    a.re == b.re && a.im == b.im
  }

  /** `add`. */
  function Add(a: Complex, b: Complex): Complex
  {
    Complex(a.re + b.re, a.im + b.im)
  }

  /** `sub`, written as the source writes it: `add(a, negative(b))`. */
  function Sub(a: Complex, b: Complex): Complex
  {
    Add(a, Negative(b))
  }

  /** `mult`. */
  function Mult(a: Complex, b: Complex): Complex
  {
    Complex(a.re * b.re - a.im * b.im, a.re * b.im + b.re * a.im)
  }

  /** Addition is commutative and associative with identity 0 + 0i. */
  lemma AddLaws(a: Complex, b: Complex, c: Complex)
    ensures Add(a, b) == Add(b, a)
    ensures Add(Add(a, b), c) == Add(a, Add(b, c))
    ensures Add(a, Zero) == a
  {
  }

  /** Subtraction undoes addition, and a - a is 0 + 0i. */
  lemma SubLaws(a: Complex, b: Complex)
    ensures Add(Sub(a, b), b) == a
    ensures Sub(Add(a, b), b) == a
    ensures Sub(a, a) == Zero
  {
  }

  /** Multiplication is commutative and associative with identity 1 + 0i, and distributes over addition. */
  lemma MultLaws(a: Complex, b: Complex, c: Complex)
    ensures Mult(a, b) == Mult(b, a)
    ensures Mult(Mult(a, b), c) == Mult(a, Mult(b, c))
    ensures Mult(a, One) == a
    ensures Mult(a, Add(b, c)) == Add(Mult(a, b), Mult(a, c))
  {
  }

  /** A product is 0 + 0i only when a factor is: no zero divisors. */
  lemma NoZeroDivisors(d: Complex, e: Complex)
    requires Mult(d, e) == Zero
    requires e != Zero
    ensures d == Zero
  {
    var p, q, a, b := d.re, d.im, e.re, e.im;
    var n := Abs2(e);
    assert p * a - q * b == 0.0 && p * b + a * q == 0.0;
    assert p * n == a * (p * a - q * b) + b * (p * b + a * q);
    assert q * n == a * (p * b + a * q) - b * (p * a - q * b);
    assert n != 0.0;
    assert p * n == 0.0 && q * n == 0.0;
  }

  // ---------------------------------------------------------------------------
  // Products with a real or an imaginary scalar

  /** `multReal`: z * r for a real r. */
  function MultReal(z: Complex, r: real): Complex
  {
    Complex(z.re * r, z.im * r)
  }

  /** `multIm`: z * (r*i) for a real r. */
  function MultIm(z: Complex, r: real): Complex
  {
    Complex(-z.im * r, z.re * r)
  }

  /** Both scalar forms are `mult` with the scalar embedded as a complex number. */
  lemma ScalarMultIsMult(z: Complex, r: real)
    ensures MultReal(z, r) == Mult(z, Complex(r, 0.0))
    ensures MultIm(z, r) == Mult(z, Complex(0.0, r))
  {
  }

  // ---------------------------------------------------------------------------
  // Division and inverse

  /** A nonzero factor cancels. */
  lemma Cancel(x: real, y: real, n: real)
    requires n != 0.0
    requires x * n == y * n
    ensures x == y
  {
    assert (x - y) * n == 0.0;
  }

  /** `div(a, b)`: fails with DivisionByZero exactly when c^2 + d^2 is 0, i.e. b is 0 + 0i. */
  function Div(a: Complex, b: Complex): (r: Result<Complex, MathError>)
    ensures r.Failure? <==> b == Zero
    ensures r.Failure? ==> r.error == DivisionByZero
  {
    var div := b.re * b.re + b.im * b.im;
    SumOfSquares(b.re, b.im);
    if div == 0.0 then
      Failure(DivisionByZero)
    else
      Success(Complex((a.re * b.re + a.im * b.im) / div, (a.im * b.re - a.re * b.im) / div))
  }

  /** Multiplication undoes division: (a / b) * b == a for every nonzero b. */
  lemma DivThenMult(a: Complex, b: Complex)
    requires b != Zero
    ensures Div(a, b).Success? && Mult(Div(a, b).value, b) == a
  {
    var n := Abs2(b);
    var q := Div(a, b).value;
    var c, d := b.re, b.im;
    assert q.re * n == a.re * c + a.im * d;
    assert q.im * n == a.im * c - a.re * d;
    assert (q.re * c - q.im * d) * n == (q.re * n) * c - (q.im * n) * d;
    assert (q.re * c - q.im * d) * n == a.re * n;
    assert (q.re * d + c * q.im) * n == (q.re * n) * d + c * (q.im * n);
    assert (q.re * d + c * q.im) * n == a.im * n;
  }

  /** Division undoes multiplication: (a * b) / b == a for every nonzero b. */
  lemma MultThenDiv(a: Complex, b: Complex)
    requires b != Zero
    ensures Div(Mult(a, b), b) == Success(a)
  {
    var n := Abs2(b);
    var p := Mult(a, b);
    var q := Div(p, b).value;
    var c, d := b.re, b.im;
    assert q.re * n == p.re * c + p.im * d;
    assert p.re * c + p.im * d == a.re * n;
    Cancel(q.re, a.re, n);
    assert q.im * n == p.im * c - p.re * d;
    assert p.im * c - p.re * d == a.im * n;
    Cancel(q.im, a.im, n);
  }

  /**
   * `inverse`: DivisionByZero when the magnitude is 0, else
   * (re * t * t, -im * t * t) with t = 1 / |z|.
   */
  function Inverse(z: Complex, rt: real -> real): Result<Complex, MathError>
  {
    var abs := Abs(z, rt);
    if abs == 0.0 then
      Failure(DivisionByZero)
    else
      var temp := 1.0 / abs;
      Success(Complex(z.re * temp * temp, -z.im * temp * temp))
  }

  /** With an exact square root, `inverse` fails exactly at 0 + 0i. */
  lemma InverseFailsIffZero(z: Complex, rt: real -> real)
    requires IsSqrt(rt)
    ensures Inverse(z, rt).Failure? <==> z == Zero
  {
    AbsSquared(z, rt);
  }

  /** z * inverse(z) == 1 + 0i for every nonzero z. */
  lemma InverseIsMultInverse(z: Complex, rt: real -> real)
    requires IsSqrt(rt)
    requires z != Zero
    ensures Inverse(z, rt).Success? && Mult(z, Inverse(z, rt).value) == One
  {
    AbsSquared(z, rt);
    var abs := Abs(z, rt);
    var t := 1.0 / abs;
    assert t * abs == 1.0;
    assert t * t * Abs2(z) == (t * abs) * (t * abs);
    var w := Inverse(z, rt).value;
    assert z.re * w.re - z.im * w.im == Abs2(z) * (t * t);
    assert z.re * w.im + w.re * z.im == 0.0;
  }

  /** Dividing by b is multiplying by inverse(b). */
  lemma DivIsMultByInverse(a: Complex, b: Complex, rt: real -> real)
    requires IsSqrt(rt)
    requires b != Zero
    ensures Inverse(b, rt).Success? && Div(a, b) == Success(Mult(a, Inverse(b, rt).value))
  {
    AbsSquared(b, rt);
    var abs := Abs(b, rt);
    var n := Abs2(b);
    var t := 1.0 / abs;
    assert t * abs == 1.0;
    assert t * t * n == (t * abs) * (t * abs) == 1.0;
    var q := Div(a, b).value;
    var m := Mult(a, Inverse(b, rt).value);
    assert m.re == (a.re * b.re + a.im * b.im) * (t * t);
    assert m.im == (a.im * b.re - a.re * b.im) * (t * t);
    assert q.re * n == a.re * b.re + a.im * b.im;
    assert q.im * n == a.im * b.re - a.re * b.im;
    assert m.re * n == (a.re * b.re + a.im * b.im) * (t * t * n);
    Cancel(m.re, q.re, n);
    assert m.im * n == (a.im * b.re - a.re * b.im) * (t * t * n);
    Cancel(m.im, q.im, n);
  }

  // ---------------------------------------------------------------------------
  // Square roots

  /**
   * One branch of the scale of `sqrt`: sqrt(b) * sqrt((lead + sqrt(1 + t^2)) / 2),
   * where b is the larger of |re| and |im|, t the smaller divided by b, and
   * lead is 1 or t. It is positive, so the divisions by 2w that follow are
   * defined.
   */
  function Scale(b: real, lead: real, t: real, rt: real -> real): (w: real)
    requires IsSqrt(rt)
    requires 0.0 < b && 0.0 <= lead
    ensures 0.0 < w
  {
    var tt := t * t;
    SquareFacts(t, tt);
    Root(rt, 1.0 + tt);
    var r1 := rt(1.0 + tt);
    SquareFacts(r1, r1 * r1);
    var inner := 0.5 * (lead + r1);
    Root(rt, b);
    Root(rt, inner);
    var u := rt(b);
    var v := rt(inner);
    SquareFacts(u, u * u);
    SquareFacts(v, v * v);
    ProductPositive(u, v, u * v);
    u * v
  }

  /** The scale `w` of `sqrt` for x = |re|, y = |im|, not both 0: the larger of the two is factored out. */
  function SmithScale(x: real, y: real, rt: real -> real): (w: real)
    requires IsSqrt(rt)
    requires 0.0 <= x && 0.0 <= y && !(x == 0.0 && y == 0.0)
    ensures 0.0 < w
  {
    if x >= y then
      Scale(x, 1.0, y / x, rt)
    else
      assert 0.0 <= x / y;
      Scale(y, x / y, x / y, rt)
  }

  /** Factoring the larger part out: b * sqrt(1 + t^2) is sqrt(b^2 + s^2) when t = s/b. */
  lemma ScaledMagnitude(rt: real -> real, b: real, s: real, t: real)
    requires IsSqrt(rt)
    requires 0.0 < b && b * t == s
    ensures b * rt(1.0 + t * t) == rt(b * b + s * s)
  {
    var tt := t * t;
    SquareFacts(t, tt);
    Root(rt, 1.0 + tt);
    var u := rt(1.0 + tt);
    assert (b * u) * (b * u) == (b * b) * (u * u);
    assert (b * b) * (1.0 + tt) == b * b + (b * t) * (b * t);
    SqrtUnique(rt, b * b + s * s, b * u);
  }

  /** The square of a product of two square roots. */
  lemma RootProductSquared(rt: real -> real, a: real, b: real)
    requires IsSqrt(rt)
    requires 0.0 <= a && 0.0 <= b
    ensures (rt(a) * rt(b)) * (rt(a) * rt(b)) == a * b
  {
    Root(rt, a);
    Root(rt, b);
    assert (rt(a) * rt(b)) * (rt(a) * rt(b)) == (rt(a) * rt(a)) * (rt(b) * rt(b));
  }

  /** w^2 for one branch is b times the inner term. */
  lemma ScaleSquared(b: real, lead: real, t: real, rt: real -> real)
    requires IsSqrt(rt)
    requires 0.0 < b && 0.0 <= lead
    ensures Scale(b, lead, t, rt) * Scale(b, lead, t, rt) == 0.5 * (b * lead + b * rt(1.0 + t * t))
  {
    var tt := t * t;
    SquareFacts(t, tt);
    Root(rt, 1.0 + tt);
    var inner := 0.5 * (lead + rt(1.0 + tt));
    RootProductSquared(rt, b, inner);
    assert b * inner == 0.5 * (b * lead + b * rt(1.0 + tt));
  }

  /** The scale when |re| >= |im|, t = y/x: w^2 == (x + |z|) / 2. */
  lemma WideScaleSquared(x: real, y: real, t: real, rt: real -> real)
    requires IsSqrt(rt)
    requires 0.0 < x && x * t == y
    ensures Scale(x, 1.0, t, rt) * Scale(x, 1.0, t, rt) == 0.5 * (x + rt(x * x + y * y))
  {
    ScaleSquared(x, 1.0, t, rt);
    ScaledMagnitude(rt, x, y, t);
  }

  /** The scale when |re| < |im|, t = x/y: w^2 == (x + |z|) / 2 as well. */
  lemma TallScaleSquared(x: real, y: real, t: real, rt: real -> real)
    requires IsSqrt(rt)
    requires 0.0 < y && 0.0 <= t && y * t == x
    ensures Scale(y, t, t, rt) * Scale(y, t, t, rt) == 0.5 * (x + rt(x * x + y * y))
  {
    ScaleSquared(y, t, t, rt);
    ScaledMagnitude(rt, y, x, t);
    var m := x * x + y * y;
    assert y * y + x * x == m;
  }

  /** s / b times b is s, and not negative when s is not. */
  lemma Quotient(s: real, b: real)
    requires 0.0 < b
    ensures b * (s / b) == s
    ensures 0.0 <= s / b <==> 0.0 <= s
  {
  }

  /** Both branches of the scale give w^2 == (x + |z|) / 2, |z| the magnitude sqrt(x^2 + y^2). */
  lemma SmithScaleSquared(x: real, y: real, rt: real -> real)
    requires IsSqrt(rt)
    requires 0.0 <= x && 0.0 <= y && !(x == 0.0 && y == 0.0)
    ensures SmithScale(x, y, rt) * SmithScale(x, y, rt) == 0.5 * (x + rt(x * x + y * y))
  {
    if x >= y {
      Quotient(y, x);
      WideScaleSquared(x, y, y / x, rt);
    } else {
      Quotient(x, y);
      assert SmithScale(x, y, rt) == Scale(y, x / y, x / y, rt);
      TallScaleSquared(x, y, x / y, rt);
    }
  }

  /**
   * `sqrt`: 0 + 0i directly for 0 + 0i; otherwise the scale `w` becomes the
   * real part (re >= 0) or, with the sign of im, the imaginary part (re < 0),
   * and the other part is im / 2w. The real part is never negative, and the
   * imaginary part is non-negative exactly when the input's is.
   */
  function Sqrt(z: Complex, rt: real -> real): (s: Complex)
    requires IsSqrt(rt)
    ensures z == Zero ==> s == Zero
    ensures 0.0 <= s.re
    ensures 0.0 <= s.im <==> 0.0 <= z.im
  {
    var x := RealAbs(z.re);
    var y := RealAbs(z.im);
    if x == 0.0 && y == 0.0 then
      Complex(0.0, 0.0)
    else
      var w := SmithScale(x, y, rt);
      if z.re >= 0.0 then
        Quotient(z.im, 2.0 * w);
        Complex(w, z.im / (2.0 * w))
      else
        var i := if z.im >= 0.0 then w else -w;
        Complex(z.im / (2.0 * i), i)
  }

  /**
   * The algebra behind both branches of `sqrt`: when w^2 == (re + m) / 2 and
   * m^2 == re^2 + im^2, the number w + i*(im / 2w) squares to re + i*im.
   */
  lemma HalfAngle(re: real, im: real, w: real, m: real)
    requires w != 0.0
    requires m * m == re * re + im * im
    requires w * w == 0.5 * (re + m)
    ensures w * w - (im / (2.0 * w)) * (im / (2.0 * w)) == re
    ensures w * (im / (2.0 * w)) + w * (im / (2.0 * w)) == im
  {
    var i := im / (2.0 * w);
    assert 2.0 * w * i == im;
    var ww := w * w;
    SquareFacts(w, ww);
    var ii := i * i;
    assert ii * (4.0 * ww) == im * im;
    assert im * im == (m - re) * (2.0 * ww);
    Cancel(2.0 * ii, m - re, 2.0 * ww);
  }

  /** The re >= 0 branch of `sqrt`: w + i*(im / 2w) squares to z when w^2 == (re + |z|) / 2. */
  lemma SquareOfRealBranch(z: Complex, w: real, m: real)
    requires w != 0.0
    requires m * m == z.re * z.re + z.im * z.im
    requires w * w == 0.5 * (z.re + m)
    ensures Mult(Complex(w, z.im / (2.0 * w)), Complex(w, z.im / (2.0 * w))) == z
  {
    HalfAngle(z.re, z.im, w, m);
  }

  /** The re < 0 branch of `sqrt`: (im / 2i) + i*i squares to z when i == w or i == -w and w^2 == (|z| - re) / 2. */
  lemma SquareOfImaginaryBranch(z: Complex, w: real, i: real, m: real)
    requires w != 0.0 && (i == w || i == -w)
    requires m * m == z.re * z.re + z.im * z.im
    requires w * w == 0.5 * (-z.re + m)
    ensures Mult(Complex(z.im / (2.0 * i), i), Complex(z.im / (2.0 * i), i)) == z
  {
    assert i * i == w * w;
    assert m * m == (-z.re) * (-z.re) + z.im * z.im;
    HalfAngle(-z.re, z.im, i, m);
  }

  /**
   * Away from 0 + 0i the magnitude m == |z| satisfies m^2 == re^2 + im^2,
   * and the scale w of `sqrt` satisfies w^2 == (|re| + m) / 2.
   */
  lemma ScaleFacts(z: Complex, rt: real -> real, w: real, m: real)
    requires IsSqrt(rt)
    requires z != Zero
    requires w == SmithScale(RealAbs(z.re), RealAbs(z.im), rt)
    requires m == Abs(z, rt)
    ensures m * m == z.re * z.re + z.im * z.im
    ensures w * w == 0.5 * (RealAbs(z.re) + m)
  {
    AbsSquared(z, rt);
    var x, y := RealAbs(z.re), RealAbs(z.im);
    assert z.re != 0.0 || z.im != 0.0;
    assert m == rt(x * x + y * y) by {
      RealAbsSquared(z.re);
      RealAbsSquared(z.im);
      assert x * x + y * y == Abs2(z);
    }
    SmithScaleSquared(x, y, rt);
  }


  /** `sqrt` squares back to z when re >= 0. */
  lemma SqrtSquaredRealBranch(z: Complex, rt: real -> real)
    requires IsSqrt(rt)
    requires z != Zero && z.re >= 0.0
    ensures Mult(Sqrt(z, rt), Sqrt(z, rt)) == z
  {
    var w := SmithScale(RealAbs(z.re), RealAbs(z.im), rt);
    ScaleFacts(z, rt, w, Abs(z, rt));
    SquareOfRealBranch(z, w, Abs(z, rt));
    assert Sqrt(z, rt) == Complex(w, z.im / (2.0 * w));
  }

  /** `sqrt` squares back to z when re < 0. */
  lemma SqrtSquaredImaginaryBranch(z: Complex, rt: real -> real)
    requires IsSqrt(rt)
    requires z.re < 0.0
    ensures Mult(Sqrt(z, rt), Sqrt(z, rt)) == z
  {
    var w := SmithScale(RealAbs(z.re), RealAbs(z.im), rt);
    ScaleFacts(z, rt, w, Abs(z, rt));
    var i := if z.im >= 0.0 then w else -w;
    SquareOfImaginaryBranch(z, w, i, Abs(z, rt));
    assert Sqrt(z, rt) == Complex(z.im / (2.0 * i), i);
  }

  /** The square of `sqrt(z)` is z. */
  lemma SqrtSquared(z: Complex, rt: real -> real)
    requires IsSqrt(rt)
    ensures Mult(Sqrt(z, rt), Sqrt(z, rt)) == z
  {
    if z.re < 0.0 {
      SqrtSquaredImaginaryBranch(z, rt);
    } else if z != Zero {
      SqrtSquaredRealBranch(z, rt);
    }
  }

  /** The principal branch: positive real part, or real part 0 and imaginary part non-negative. */
  predicate IsPrincipal(w: Complex)
  {
    w.re > 0.0 || (w.re == 0.0 && w.im >= 0.0)
  }

  /** `sqrt` lands on the principal branch. */
  lemma SqrtIsPrincipal(z: Complex, rt: real -> real)
    requires IsSqrt(rt)
    ensures IsPrincipal(Sqrt(z, rt))
  {
    var x := RealAbs(z.re);
    var y := RealAbs(z.im);
    if !(x == 0.0 && y == 0.0) {
      var w := SmithScale(x, y, rt);
      var s := Sqrt(z, rt);
      if z.re < 0.0 && s.re == 0.0 {
        var i := if z.im >= 0.0 then w else -w;
        assert s.re == z.im / (2.0 * i);
        assert z.im == 0.0;
      }
    }
  }

  /** Two principal numbers with the same square are equal. */
  lemma PrincipalRootsAgree(u: Complex, w: Complex)
    requires IsPrincipal(u) && IsPrincipal(w)
    requires Mult(u, u) == Mult(w, w)
    ensures u == w
  {
    var d := Sub(u, w);
    var e := Add(u, w);
    assert Mult(d, e).re == Mult(u, u).re - Mult(w, w).re;
    assert Mult(d, e).im == Mult(u, u).im - Mult(w, w).im;
    if e == Zero {
      assert u.re == -w.re && u.im == -w.im;
    } else {
      NoZeroDivisors(d, e);
    }
  }

  /** `sqrt(z)` is THE principal square root: every principal w with w * w == z is it. */
  lemma SqrtIsTheRoot(z: Complex, w: Complex, rt: real -> real)
    requires IsSqrt(rt)
    requires IsPrincipal(w) && Mult(w, w) == z
    ensures w == Sqrt(z, rt)
  {
    SqrtSquared(z, rt);
    SqrtIsPrincipal(z, rt);
    PrincipalRootsAgree(w, Sqrt(z, rt));
  }

  /** `sqrtReal`: (sqrt(x), 0) for x >= 0 and (0, sqrt(-x)) for x < 0. */
  function SqrtReal(x: real, rt: real -> real): (s: Complex)
    ensures x >= 0.0 ==> s.im == 0.0
    ensures x < 0.0 ==> s.re == 0.0
  {
    if x >= 0.0 then Complex(rt(x), 0.0) else Complex(0.0, rt(-x))
  }

  /** The square of `sqrtReal(x)` is x + 0i, and `sqrtReal(x)` is `sqrt(x + 0i)`. */
  lemma SqrtRealIsSqrt(x: real, rt: real -> real)
    requires IsSqrt(rt)
    ensures Mult(SqrtReal(x, rt), SqrtReal(x, rt)) == Complex(x, 0.0)
    ensures SqrtReal(x, rt) == Sqrt(Complex(x, 0.0), rt)
  {
    var s := SqrtReal(x, rt);
    if x >= 0.0 {
      Root(rt, x);
      var u := rt(x);
      assert s == Complex(u, 0.0);
      assert Mult(s, s) == Complex(u * u, 0.0);
    } else {
      Root(rt, -x);
      var v := rt(-x);
      assert s == Complex(0.0, v);
      assert Mult(s, s) == Complex(-(v * v), 0.0);
    }
    assert IsPrincipal(s);
    SqrtIsTheRoot(Complex(x, 0.0), s, rt);
  }
}
