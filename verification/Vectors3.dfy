/** Three-component vectors.  The square root is a function argument with the defining property of the
    exact root (IsSqrt). */
module Vectors3 {
  import opened Reals

  datatype Vec3 = Vec3(x: real, y: real, z: real) {

    function Plus(v: Vec3): Vec3 {
      Vec3(x + v.x, y + v.y, z + v.z)
    }

    function Minus(v: Vec3): Vec3 {
      Vec3(x - v.x, y - v.y, z - v.z)
    }

    function Scaled(a: real): Vec3 {
      Vec3(a * x, a * y, a * z)
    }

    function Dot(v: Vec3): real {
      x * v.x + y * v.y + z * v.z
    }

    function Cross(v: Vec3): Vec3 {
      Vec3(y * v.z - z * v.y, z * v.x - x * v.z, x * v.y - y * v.x)
    }

    function NormSq(): (r: real)
      ensures r >= 0.0
    {
      SumOfSquares(x, y, z);
      Dot(this)
    }
  }

  const ZERO3 := Vec3(0.0, 0.0, 0.0)

  lemma SumOfSquares(a: real, b: real, c: real)
    ensures a * a + b * b + c * c >= 0.0
  {
  }

  /** f computes the non-negative square root of every non-negative number. */
  ghost predicate IsSqrt(f: real -> real) {
    forall a: real {:trigger f(a)} :: a >= 0.0 ==> f(a) >= 0.0 && f(a) * f(a) == a
  }

  function Norm(v: Vec3, sqrt: real -> real): real {
    sqrt(v.NormSq())
  }

  predicate IsNorm(v: Vec3, n: real) {
    n >= 0.0 && n * n == v.NormSq()
  }

  lemma NormIsNorm(v: Vec3, sqrt: real -> real)
    requires IsSqrt(sqrt)
    ensures IsNorm(v, Norm(v, sqrt))
  {
  }

  /** v lies in the ball of radius r. */
  predicate Within(v: Vec3, r: real) {
    r >= 0.0 && v.NormSq() <= r * r
  }

  lemma SquareMonotone(a: real, b: real)
    requires 0.0 <= a && 0.0 <= b
    ensures a <= b <==> a * a <= b * b
  {
    if a <= b {
      ProductMonotone(a, b, a, b);
    } else {
      ProductSign(a - b, a + b, (a - b) * (a + b));
      assert (a - b) * (a + b) == a * a - b * b;
    }
  }

  lemma NormUnique(v: Vec3, m: real, n: real)
    requires IsNorm(v, m) && IsNorm(v, n)
    ensures m == n
  {
    SquareMonotone(m, n);
    SquareMonotone(n, m);
  }

  lemma NormOfZero(sqrt: real -> real)
    requires IsSqrt(sqrt)
    ensures Norm(ZERO3, sqrt) == 0.0
  {
    NormIsNorm(ZERO3, sqrt);
    NormUnique(ZERO3, Norm(ZERO3, sqrt), 0.0);
  }

  /** Lagrange's identity, hence the Cauchy-Schwarz inequality. */
  lemma CauchySchwarz(u: Vec3, v: Vec3)
    ensures u.Dot(v) * u.Dot(v) + u.Cross(v).NormSq() == u.NormSq() * v.NormSq()
    ensures u.Dot(v) * u.Dot(v) <= u.NormSq() * v.NormSq()
  {
    Lagrange(u.x, u.y, u.z, v.x, v.y, v.z);
  }

  lemma Lagrange(a: real, b: real, c: real, d: real, e: real, f: real)
    ensures (a * d + b * e + c * f) * (a * d + b * e + c * f)
          + ((b * f - c * e) * (b * f - c * e) + (c * d - a * f) * (c * d - a * f) + (a * e - b * d) * (a * e - b * d))
         == (a * a + b * b + c * c) * (d * d + e * e + f * f)
  {
  }

  /** The triangle inequality for balls. */
  lemma WithinSum(u: Vec3, v: Vec3, r: real, s: real)
    requires Within(u, r) && Within(v, s)
    ensures Within(u.Plus(v), r + s)
  {
    CauchySchwarz(u, v);
    var d, p, q := u.Dot(v), u.NormSq(), v.NormSq();
    ProductMonotone(p, r * r, q, s * s);
    assert d * d <= (r * s) * (r * s) by {
      assert (r * r) * (s * s) == (r * s) * (r * s);
    }
    assert r * s >= 0.0;
    if d > r * s {
      SquareMonotone(d, r * s);
      assert false;
    }
    assert u.Plus(v).NormSq() == p + 2.0 * d + q by { SquareOfSum(u, v); }
    assert (r + s) * (r + s) == r * r + 2.0 * (r * s) + s * s;
  }

  lemma SquareOfSum(u: Vec3, v: Vec3)
    ensures u.Plus(v).NormSq() == u.NormSq() + 2.0 * u.Dot(v) + v.NormSq()
  {
  }

  lemma DotIsSum3(u: Vec3, v: Vec3)
    ensures u.Dot(v) == Sum3(u.x, v.x, u.y, v.y, u.z, v.z)
    ensures u.NormSq() == u.Dot(u) == Sum3(u.x, u.x, u.y, u.y, u.z, u.z)
  {
  }

  lemma NormInSquares(v: Vec3)
    ensures v.NormSq() == Square(v.x) + Square(v.y) + Square(v.z)
  {
  }

  lemma ZeroOnlyAtZero(v: Vec3)
    requires v.NormSq() == 0.0
    ensures v == ZERO3
  {
    NormInSquares(v);
    hide Square, Vec3.NormSq;
    assert Square(v.x) >= 0.0 && Square(v.y) >= 0.0 && Square(v.z) >= 0.0;
  }

  lemma WithinScaled(v: Vec3, r: real, k: real, s: real)
    requires Within(v, r) && s == Abs(k) * r
    ensures Within(v.Scaled(k), s)
  {
    ScaledNormSq(v, k);
    ScaledBound(v.NormSq(), r, k, v.Scaled(k).NormSq());
  }

  lemma ScaledBound(n: real, r: real, k: real, m: real)
    requires 0.0 <= n <= r * r && r >= 0.0 && m == (k * k) * n
    ensures Abs(k) * r >= 0.0 && m <= (Abs(k) * r) * (Abs(k) * r)
  {
    AbsProducts(k, r);
    ProductSign(k, k, k * k);
    ProductMonotone(k * k, k * k, n, r * r);
  }

  lemma ScaledNormSq(v: Vec3, k: real)
    ensures v.Scaled(k).NormSq() == (k * k) * v.NormSq()
  {
  }

  lemma AbsProducts(k: real, r: real)
    ensures (Abs(k) * r) * (Abs(k) * r) == (k * k) * (r * r)
    ensures r >= 0.0 ==> Abs(k) * r >= 0.0
  {
    var a := Abs(k);
    assert a * a == k * k;
    assert (a * r) * (a * r) == (a * a) * (r * r);
    ProductSign(a, r, a * r);
  }

  /** Balls are convex. */
  lemma WithinBlend(u: Vec3, v: Vec3, r: real, k: real)
    requires Within(u, r) && Within(v, r) && 0.0 <= k <= 1.0
    ensures Within(u.Plus(v.Minus(u).Scaled(k)), r)
  {
    hide Within, Vec3.Plus, Vec3.Minus, Vec3.Scaled;
    var p, q := (1.0 - k) * r, k * r;
    WithinScaled(u, r, 1.0 - k, p);
    WithinScaled(v, r, k, q);
    RadiiAdd(k, r, p, q);
    BlendIsSum(u, v, k);
    SumWithin(u.Scaled(1.0 - k), v.Scaled(k), p, q, r);
  }

  lemma RadiiAdd(k: real, r: real, p: real, q: real)
    requires p == (1.0 - k) * r && q == k * r
    ensures p + q == r
  {
  }

  lemma SumWithin(u: Vec3, v: Vec3, p: real, q: real, r: real)
    requires Within(u, p) && Within(v, q) && p + q == r
    ensures Within(u.Plus(v), r)
  {
    hide Within, Vec3.Plus;
    WithinSum(u, v, p, q);
  }

  lemma BlendIsSum(u: Vec3, v: Vec3, k: real)
    ensures u.Plus(v.Minus(u).Scaled(k)) == u.Scaled(1.0 - k).Plus(v.Scaled(k))
  {
    ScaledDifference(u, v, k);
    ScaledRest(u, k);
    hide Vec3.Minus, Vec3.Scaled;
  }

  lemma ScaledDifference(u: Vec3, v: Vec3, k: real)
    ensures v.Minus(u).Scaled(k) == v.Scaled(k).Minus(u.Scaled(k))
    ensures v.Scaled(k).Minus(u.Scaled(k)).x == v.Scaled(k).x - u.Scaled(k).x
    ensures v.Scaled(k).Minus(u.Scaled(k)).y == v.Scaled(k).y - u.Scaled(k).y
    ensures v.Scaled(k).Minus(u.Scaled(k)).z == v.Scaled(k).z - u.Scaled(k).z
  {
  }

  lemma ScaledRest(u: Vec3, k: real)
    ensures u.Scaled(1.0 - k).x == u.x - u.Scaled(k).x
    ensures u.Scaled(1.0 - k).y == u.y - u.Scaled(k).y
    ensures u.Scaled(1.0 - k).z == u.z - u.Scaled(k).z
  {
  }

  /** A box lies in a ball whose squared radius is three times that of its half side. */
  lemma BoxInBall(v: Vec3, side: real, r: real)
    requires Abs(v.x) <= side && Abs(v.y) <= side && Abs(v.z) <= side
    requires r >= 0.0 && r * r == 3.0 * Square(side)
    ensures Within(v, r)
  {
    SquareInside(v.x, side);
    SquareInside(v.y, side);
    SquareInside(v.z, side);
    NormInSquares(v);
    hide Square, Vec3.NormSq;
  }

  lemma SquareInside(x: real, side: real)
    requires Abs(x) <= side
    ensures Square(x) <= Square(side)
  {
    SquareMonotone(Abs(x), side);
  }

  lemma RootProducts(root: real, side: real, r: real)
    requires root * root == 3.0 && root >= 0.0 && side >= 0.0 && r == root * side
    ensures r >= 0.0 && r * r == 3.0 * Square(side)
  {
    ProductSign(root, side, r);
    assert r * r == (root * root) * (side * side);
  }
}
