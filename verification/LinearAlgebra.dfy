/** Vectors and matrices over the reals, enough linear algebra for the attitude filter
    and the wheel allocator.  Matrices are compared through their action on vectors. */
module LinearAlgebra {
  import opened Reals

  type Vec = seq<real>
  type Matrix = seq<seq<real>>

  // ---------- Vectors ----------

  function Dot(x: Vec, y: Vec): real
    requires |x| == |y|
  {
    if x == [] then 0.0 else x[0] * y[0] + Dot(x[1..], y[1..])
  }

  function Plus(x: Vec, y: Vec): (r: Vec)
    requires |x| == |y|
    ensures |r| == |x|
  {
    seq(|x|, i requires 0 <= i < |x| => x[i] + y[i])
  }

  function Minus(x: Vec, y: Vec): (r: Vec)
    requires |x| == |y|
    ensures |r| == |x|
  {
    seq(|x|, i requires 0 <= i < |x| => x[i] - y[i])
  }

  function Scale(a: real, x: Vec): (r: Vec)
    ensures |r| == |x|
  {
    seq(|x|, i requires 0 <= i < |x| => a * x[i])
  }

  function Zeros(n: nat): (r: Vec)
    ensures |r| == n
  {
    seq(n, i => 0.0)
  }

  /** The k-th unit vector. */
  function Unit(n: nat, k: nat): (r: Vec)
    requires k < n
    ensures |r| == n
  {
    seq(n, i => if i == k then 1.0 else 0.0)
  }

  function NormSq(x: Vec): real {
    Dot(x, x)
  }

  lemma {:induction false} DotSymmetric(x: Vec, y: Vec)
    requires |x| == |y|
    ensures Dot(x, y) == Dot(y, x)
  {
    if x != [] { DotSymmetric(x[1..], y[1..]); }
  }

  lemma {:induction false} DotPlus(x: Vec, y: Vec, z: Vec)
    requires |x| == |y| == |z|
    ensures Dot(x, Plus(y, z)) == Dot(x, y) + Dot(x, z)
  {
    if x != [] {
      assert Plus(y, z)[1..] == Plus(y[1..], z[1..]);
      DotPlus(x[1..], y[1..], z[1..]);
    }
  }

  lemma ScaleTail(a: real, x: Vec)
    requires x != []
    ensures Scale(a, x)[1..] == Scale(a, x[1..])
  {
    var tail := Scale(a, x[1..]);
    forall i | 0 <= i < |tail| ensures Scale(a, x)[1..][i] == tail[i] {
      assert Scale(a, x)[i + 1] == a * x[i + 1];
    }
  }

  lemma {:induction false} DotScale(a: real, x: Vec, y: Vec)
    requires |x| == |y|
    ensures Dot(x, Scale(a, y)) == a * Dot(x, y)
  {
    if x != [] {
      ScaleTail(a, y);
      DotScale(a, x[1..], y[1..]);
      assert x[0] * (a * y[0]) == a * (x[0] * y[0]);
    }
  }

  lemma DotPlusLeft(x: Vec, y: Vec, z: Vec)
    requires |x| == |y| == |z|
    ensures Dot(Plus(x, y), z) == Dot(x, z) + Dot(y, z)
  {
    DotSymmetric(Plus(x, y), z);
    DotPlus(z, x, y);
    DotSymmetric(x, z);
    DotSymmetric(y, z);
  }

  lemma DotMinusLeft(x: Vec, y: Vec, z: Vec)
    requires |x| == |y| == |z|
    ensures Dot(Minus(x, y), z) == Dot(x, z) - Dot(y, z)
  {
    DotSymmetric(Minus(x, y), z);
    DotMinus(z, x, y);
    DotSymmetric(x, z);
    DotSymmetric(y, z);
  }

  lemma {:induction false} DotScaleLeft(a: real, x: Vec, y: Vec)
    requires |x| == |y|
    ensures Dot(Scale(a, x), y) == a * Dot(x, y)
  {
    if x != [] {
      ScaleTail(a, x);
      DotScaleLeft(a, x[1..], y[1..]);
      assert (a * x[0]) * y[0] == a * (x[0] * y[0]);
    }
  }

  lemma {:induction false} DotMinus(x: Vec, y: Vec, z: Vec)
    requires |x| == |y| == |z|
    ensures Dot(x, Minus(y, z)) == Dot(x, y) - Dot(x, z)
  {
    if x != [] {
      assert Minus(y, z)[1..] == Minus(y[1..], z[1..]);
      DotMinus(x[1..], y[1..], z[1..]);
    }
  }

  lemma {:induction false} DotZeros(x: Vec)
    ensures Dot(x, Zeros(|x|)) == 0.0
  {
    if x != [] {
      assert Zeros(|x|)[1..] == Zeros(|x[1..]|);
      DotZeros(x[1..]);
    }
  }

  lemma {:induction false} DotUnit(x: Vec, k: nat)
    requires k < |x|
    ensures Dot(x, Unit(|x|, k)) == x[k]
  {
    var e := Unit(|x|, k);
    if k == 0 {
      assert e[1..] == Zeros(|x[1..]|);
      DotZeros(x[1..]);
    } else {
      assert e[1..] == Unit(|x[1..]|, k - 1);
      DotUnit(x[1..], k - 1);
    }
  }

  lemma SquarePlus(a: real, rest: real)
    requires rest >= 0.0
    ensures a * a + rest >= 0.0
    ensures a != 0.0 || rest > 0.0 ==> a * a + rest > 0.0
  {
    assert Square(a) + rest >= 0.0;
  }

  lemma {:induction false} NormSqNonNegative(x: Vec)
    ensures NormSq(x) >= 0.0
    ensures x != Zeros(|x|) ==> NormSq(x) > 0.0
  {
    if x != [] {
      NormSqNonNegative(x[1..]);
      SquarePlus(x[0], NormSq(x[1..]));
      if x[0] == 0.0 && x[1..] == Zeros(|x[1..]|) {
        assert x == [x[0]] + x[1..];
        assert x == Zeros(|x|);
      }
    }
  }

  /** A vector is determined by its products with all vectors. */
  lemma DotDetermines(x: Vec, y: Vec)
    requires |x| == |y|
    requires forall z: Vec {:trigger Dot(z, x)} {:trigger Dot(z, y)} :: |z| == |x| ==> Dot(z, x) == Dot(z, y)
    ensures x == y
  {
    forall i | 0 <= i < |x| ensures x[i] == y[i] {
      var e := Unit(|x|, i);
      assert Dot(e, x) == Dot(e, y);
      DotUnit(x, i);
      DotUnit(y, i);
      DotSymmetric(e, x);
      DotSymmetric(e, y);
    }
  }

  // ---------- Matrices ----------

  /** A is an m by n matrix. */
  predicate Shape(A: Matrix, m: nat, n: nat) {
    |A| == m && m > 0 && n > 0 && forall i :: 0 <= i < m ==> |A[i]| == n
  }

  function Cols(A: Matrix): nat
  {
    if |A| == 0 then 0 else |A[0]|
  }

  predicate Rectangular(A: Matrix) {
    |A| > 0 && Shape(A, |A|, Cols(A))
  }

  function Column(A: Matrix, j: nat): (r: Vec)
    requires forall i :: 0 <= i < |A| ==> j < |A[i]|
    ensures |r| == |A|
  {
    seq(|A|, i requires 0 <= i < |A| => A[i][j])
  }

  function Apply(A: Matrix, x: Vec): (r: Vec)
    requires Shape(A, |A|, |x|)
    ensures |r| == |A|
  {
    Products(A, x)
  }

  /** The products of the rows of A with x; A may have no rows. */
  function Products(A: Matrix, x: Vec): (r: Vec)
    requires forall i :: 0 <= i < |A| ==> |A[i]| == |x|
    ensures |r| == |A|
  {
    seq(|A|, i requires 0 <= i < |A| => Dot(A[i], x))
  }

  function Transpose(A: Matrix): (r: Matrix)
    requires Rectangular(A)
    ensures Shape(r, Cols(A), |A|)
  {
    seq(Cols(A), j requires 0 <= j < Cols(A) => Column(A, j))
  }

  /** The row vector a times the matrix B. */
  function RowTimes(a: Vec, B: Matrix, n: nat): (r: Vec)
    requires |a| == |B| && forall k :: 0 <= k < |B| ==> |B[k]| == n
    ensures |r| == n
  {
    seq(n, j requires 0 <= j < n => Dot(a, Column(B, j)))
  }

  function Mul(A: Matrix, B: Matrix): (r: Matrix)
    requires Rectangular(A) && Rectangular(B) && Cols(A) == |B|
    ensures Shape(r, |A|, Cols(B))
  {
    seq(|A|, i requires 0 <= i < |A| => RowTimes(A[i], B, Cols(B)))
  }

  function Add(A: Matrix, B: Matrix): (r: Matrix)
    requires Rectangular(A) && Shape(B, |A|, Cols(A))
    ensures Shape(r, |A|, Cols(A))
  {
    seq(|A|, i requires 0 <= i < |A| => Plus(A[i], B[i]))
  }

  function Sub(A: Matrix, B: Matrix): (r: Matrix)
    requires Rectangular(A) && Shape(B, |A|, Cols(A))
    ensures Shape(r, |A|, Cols(A))
  {
    seq(|A|, i requires 0 <= i < |A| => Minus(A[i], B[i]))
  }

  function ScaleM(a: real, A: Matrix): (r: Matrix)
    requires Rectangular(A)
    ensures Shape(r, |A|, Cols(A))
  {
    seq(|A|, i requires 0 <= i < |A| => Scale(a, A[i]))
  }

  function Identity(n: nat): (r: Matrix)
    requires n > 0
    ensures Shape(r, n, n)
  {
    seq(n, i requires 0 <= i < n => Unit(n, i))
  }

  // ---------- Matrices acting on vectors ----------

  /** A row vector times a matrix, peeled at the first row of the matrix. */
  lemma RowTimesStep(a: Vec, B: Matrix, n: nat)
    requires |a| == |B| > 0 && forall k :: 0 <= k < |B| ==> |B[k]| == n
    ensures RowTimes(a, B, n) == Plus(Scale(a[0], B[0]), RowTimes(a[1..], B[1..], n))
  {
    forall j | 0 <= j < n
      ensures Dot(a, Column(B, j)) == a[0] * B[0][j] + Dot(a[1..], Column(B[1..], j))
    {
      assert Column(B, j)[1..] == Column(B[1..], j);
    }
    var step := Plus(Scale(a[0], B[0]), RowTimes(a[1..], B[1..], n));
    forall j | 0 <= j < n ensures RowTimes(a, B, n)[j] == step[j] {
      assert Scale(a[0], B[0])[j] == a[0] * B[0][j];
    }
  }

  lemma DotScaledRow(c: real, b: Vec, x: Vec, rest: Vec)
    requires |b| == |x| == |rest|
    ensures Dot(Plus(Scale(c, b), rest), x) == c * Dot(b, x) + Dot(rest, x)
  {
    DotPlusLeft(Scale(c, b), rest, x);
    DotScaleLeft(c, b, x);
  }

  lemma ProductsTail(B: Matrix, x: Vec)
    requires |B| > 0 && forall k :: 0 <= k < |B| ==> |B[k]| == |x|
    ensures Products(B, x)[1..] == Products(B[1..], x)
  {
  }

  lemma {:induction false} DotRowTimes(a: Vec, B: Matrix, x: Vec)
    requires |a| == |B| && forall k :: 0 <= k < |B| ==> |B[k]| == |x|
    ensures Dot(RowTimes(a, B, |x|), x) == Dot(a, Products(B, x))
    decreases |a|
  {
    if |a| == 0 {
      assert RowTimes(a, B, |x|) == Zeros(|x|);
      DotZeros(x);
      DotSymmetric(x, Zeros(|x|));
    } else {
      RowTimesStep(a, B, |x|);
      DotScaledRow(a[0], B[0], x, RowTimes(a[1..], B[1..], |x|));
      ProductsTail(B, x);
      DotRowTimes(a[1..], B[1..], x);
    }
  }

  lemma ApplyMul(A: Matrix, B: Matrix, x: Vec)
    requires Rectangular(A) && Shape(B, Cols(A), |x|)
    ensures Apply(Mul(A, B), x) == Apply(A, Apply(B, x))
  {
    forall i | 0 <= i < |A| ensures Apply(Mul(A, B), x)[i] == Apply(A, Apply(B, x))[i] {
      DotRowTimes(A[i], B, x);
    }
  }

  lemma ApplyAdd(A: Matrix, B: Matrix, x: Vec)
    requires Shape(A, |A|, |x|) && Shape(B, |A|, |x|)
    ensures Apply(Add(A, B), x) == Plus(Apply(A, x), Apply(B, x))
  {
    forall i | 0 <= i < |A| ensures Dot(Plus(A[i], B[i]), x) == Dot(A[i], x) + Dot(B[i], x) {
      DotPlusLeft(A[i], B[i], x);
    }
  }

  lemma ApplySub(A: Matrix, B: Matrix, x: Vec)
    requires Shape(A, |A|, |x|) && Shape(B, |A|, |x|)
    ensures Apply(Sub(A, B), x) == Minus(Apply(A, x), Apply(B, x))
  {
    forall i | 0 <= i < |A| ensures Dot(Minus(A[i], B[i]), x) == Dot(A[i], x) - Dot(B[i], x) {
      DotMinusLeft(A[i], B[i], x);
    }
  }

  lemma ApplyScaleM(a: real, A: Matrix, x: Vec)
    requires Shape(A, |A|, |x|)
    ensures Apply(ScaleM(a, A), x) == Scale(a, Apply(A, x))
  {
    forall i | 0 <= i < |A| ensures Dot(Scale(a, A[i]), x) == a * Dot(A[i], x) {
      DotScaleLeft(a, A[i], x);
    }
    forall i | 0 <= i < |A| ensures Apply(ScaleM(a, A), x)[i] == Scale(a, Apply(A, x))[i] {
      assert Apply(ScaleM(a, A), x)[i] == Dot(Scale(a, A[i]), x);
    }
  }

  lemma ApplyIdentity(x: Vec)
    requires |x| > 0
    ensures Apply(Identity(|x|), x) == x
  {
    forall i | 0 <= i < |x| ensures Dot(Unit(|x|, i), x) == x[i] {
      DotUnit(x, i);
      DotSymmetric(Unit(|x|, i), x);
    }
  }

  lemma ApplyPlus(A: Matrix, x: Vec, y: Vec)
    requires |x| == |y| && Shape(A, |A|, |x|)
    ensures Apply(A, Plus(x, y)) == Plus(Apply(A, x), Apply(A, y))
  {
    forall i | 0 <= i < |A| ensures Dot(A[i], Plus(x, y)) == Dot(A[i], x) + Dot(A[i], y) {
      DotPlus(A[i], x, y);
    }
  }

  lemma ApplyMinus(A: Matrix, x: Vec, y: Vec)
    requires |x| == |y| && Shape(A, |A|, |x|)
    ensures Apply(A, Minus(x, y)) == Minus(Apply(A, x), Apply(A, y))
  {
    forall i | 0 <= i < |A| ensures Dot(A[i], Minus(x, y)) == Dot(A[i], x) - Dot(A[i], y) {
      DotMinus(A[i], x, y);
    }
  }

  lemma ApplyToZero(A: Matrix, n: nat)
    requires Shape(A, |A|, n)
    ensures Apply(A, Zeros(n)) == Zeros(|A|)
  {
    forall i | 0 <= i < |A| ensures Apply(A, Zeros(n))[i] == 0.0 {
      DotZeros(A[i]);
    }
  }

  /** The transpose is the adjoint: x . A y = (A^T x) . y. */
  lemma Adjoint(A: Matrix, x: Vec, y: Vec)
    requires Shape(A, |x|, |y|)
    ensures Dot(x, Apply(A, y)) == Dot(Apply(Transpose(A), x), y)
  {
    DotRowTimes(x, A, y);
    forall j | 0 <= j < |y| ensures RowTimes(x, A, |y|)[j] == Apply(Transpose(A), x)[j] {
      DotSymmetric(x, Column(A, j));
    }
    assert RowTimes(x, A, |y|) == Apply(Transpose(A), x);
  }

  /** A matrix is determined by its action. */
  lemma ActionDetermines(A: Matrix, B: Matrix, n: nat)
    requires Shape(A, |A|, n) && Shape(B, |A|, n)
    requires forall x: Vec {:trigger Apply(A, x)} {:trigger Apply(B, x)} :: |x| == n ==> Apply(A, x) == Apply(B, x)
    ensures A == B
  {
    forall i | 0 <= i < |A| ensures A[i] == B[i] {
      forall j | 0 <= j < n ensures A[i][j] == B[i][j] {
        var e := Unit(n, j);
        assert Apply(A, e)[i] == Apply(B, e)[i];
        DotUnit(A[i], j);
        DotUnit(B[i], j);
      }
    }
  }

  // ---------- Quadratic forms ----------

  /** The bilinear form x^T P y. */
  function Form(P: Matrix, x: Vec, y: Vec): real
    requires Shape(P, |x|, |y|)
  {
    Dot(x, Apply(P, y))
  }

  ghost predicate Symmetric(P: Matrix, n: nat) {
    Shape(P, n, n) && forall i, j :: 0 <= i < n && 0 <= j < n ==> P[i][j] == P[j][i]
  }

  /** Symmetric positive semidefinite. */
  ghost predicate Psd(P: Matrix, n: nat) {
    Symmetric(P, n) && forall x: Vec {:trigger Form(P, x, x)} :: |x| == n ==> Form(P, x, x) >= 0.0
  }

  /** Symmetric positive definite. */
  ghost predicate PosDef(P: Matrix, n: nat) {
    Symmetric(P, n) && forall x: Vec {:trigger Form(P, x, x)} :: |x| == n && x != Zeros(n) ==> Form(P, x, x) > 0.0
  }

  lemma SymmetricForm(P: Matrix, n: nat, x: Vec, y: Vec)
    requires Symmetric(P, n) && |x| == |y| == n
    ensures Form(P, x, y) == Form(P, y, x)
  {
    assert Transpose(P) == P by {
      forall i | 0 <= i < n ensures Transpose(P)[i] == P[i] {
        assert Column(P, i) == P[i];
      }
    }
    Adjoint(P, x, y);
    DotSymmetric(Apply(P, x), y);
  }

  lemma SymmetricFromForm(P: Matrix, n: nat)
    requires Shape(P, n, n)
    requires forall x: Vec, y: Vec {:trigger Form(P, x, y)} :: |x| == n && |y| == n ==> Form(P, x, y) == Form(P, y, x)
    ensures Symmetric(P, n)
  {
    forall i, j | 0 <= i < n && 0 <= j < n ensures P[i][j] == P[j][i] {
      FormOfUnits(P, n, i, j);
      FormOfUnits(P, n, j, i);
      assert Form(P, Unit(n, i), Unit(n, j)) == Form(P, Unit(n, j), Unit(n, i));
    }
  }

  lemma FormOfUnits(P: Matrix, n: nat, i: nat, j: nat)
    requires Shape(P, n, n) && i < n && j < n
    ensures Form(P, Unit(n, i), Unit(n, j)) == P[i][j]
  {
    var y := Apply(P, Unit(n, j));
    DotUnit(P[i], j);
    DotSymmetric(Unit(n, i), y);
    DotUnit(y, i);
  }

  lemma FormAdd(A: Matrix, B: Matrix, x: Vec, y: Vec)
    requires Shape(A, |x|, |y|) && Shape(B, |x|, |y|)
    ensures Form(Add(A, B), x, y) == Form(A, x, y) + Form(B, x, y)
  {
    ApplyAdd(A, B, y);
    DotPlus(x, Apply(A, y), Apply(B, y));
  }

  /** (A P A^T) as a form is P on the pulled-back vectors. */
  lemma FormCongruence(A: Matrix, P: Matrix, x: Vec, y: Vec)
    requires |x| == |y| && Shape(A, |x|, Cols(A)) && Shape(P, Cols(A), Cols(A))
    ensures Form(Mul(Mul(A, P), Transpose(A)), x, y) == Form(P, Apply(Transpose(A), x), Apply(Transpose(A), y))
  {
    var z := Apply(Transpose(A), y);
    ApplyMul(Mul(A, P), Transpose(A), y);
    ApplyMul(A, P, z);
    Adjoint(A, x, Apply(P, z));
  }

  /** A congruence A P A^T of a semidefinite matrix is semidefinite. */
  lemma CongruencePsd(A: Matrix, P: Matrix, n: nat)
    requires Shape(A, n, Cols(A)) && Psd(P, Cols(A))
    ensures Psd(Mul(Mul(A, P), Transpose(A)), n)
  {
    var C := Mul(Mul(A, P), Transpose(A));
    forall x: Vec, y: Vec {:trigger Form(C, x, y)} | |x| == n && |y| == n
      ensures Form(C, x, y) == Form(P, Apply(Transpose(A), x), Apply(Transpose(A), y))
      ensures Form(C, x, y) == Form(C, y, x)
    {
      FormCongruence(A, P, x, y);
      FormCongruence(A, P, y, x);
      SymmetricForm(P, Cols(A), Apply(Transpose(A), x), Apply(Transpose(A), y));
    }
    SymmetricFromForm(C, n);
  }

  lemma AddPsd(A: Matrix, B: Matrix, n: nat)
    requires Psd(A, n) && Psd(B, n)
    ensures Psd(Add(A, B), n)
  {
    forall x: Vec {:trigger Form(Add(A, B), x, x)} | |x| == n ensures Form(Add(A, B), x, x) >= 0.0 {
      FormAdd(A, B, x, x);
    }
  }

  lemma ScaledIdentityForm(a: real, x: Vec)
    requires |x| > 0
    ensures Form(ScaleM(a, Identity(|x|)), x, x) == a * NormSq(x)
  {
    ApplyScaleM(a, Identity(|x|), x);
    ApplyIdentity(x);
    DotScale(a, x, x);
  }

  lemma ScaledIdentityPosDef(a: real, n: nat)
    requires a > 0.0 && n > 0
    ensures PosDef(ScaleM(a, Identity(n)), n)
  {
    var A := ScaleM(a, Identity(n));
    forall x: Vec | |x| == n && x != Zeros(n) ensures Form(A, x, x) > 0.0 {
      ScaledIdentityForm(a, x);
      NormSqNonNegative(x);
      ProductSign(a, NormSq(x), Form(A, x, x));
    }
  }

  lemma PosDefIsPsd(P: Matrix, n: nat)
    requires PosDef(P, n)
    ensures Psd(P, n)
  {
    forall x: Vec | |x| == n ensures Form(P, x, x) >= 0.0 {
      if x == Zeros(n) {
        DotZeros(Apply(P, x));
        DotSymmetric(x, Apply(P, x));
      }
    }
  }
}
