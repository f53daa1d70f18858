/** The inverse of a 3 by 3 matrix through its adjugate, and why a positive definite matrix
    always has one.  The polynomial identities are lemmas about numbers; Times, Cross2 and
    Sum3 name the products so that the lemmas about matrices need no arithmetic. */
module Inverse3 {
  import opened LinearAlgebra
  import opened Reals

  function Cross2(a: real, b: real, c: real, d: real): real {
    a * b - c * d
  }

  /** The determinant of ((a b c) (d e f) (g h i)). */
  function Det9(a: real, b: real, c: real, d: real, e: real, f: real, g: real, h: real, i: real): real {
    Sum3(a, Cross2(e, i, f, h), -b, Cross2(d, i, f, g), c, Cross2(d, h, e, g))
  }

  function Det(S: Matrix): real
    requires Shape(S, 3, 3)
  {
    Det9(S[0][0], S[0][1], S[0][2], S[1][0], S[1][1], S[1][2], S[2][0], S[2][1], S[2][2])
  }

  /** The successor in the cycle 0, 1, 2. */
  function Next(i: nat): (r: nat)
    requires i < 3
    ensures r < 3
  {
    if i == 2 then 0 else i + 1
  }

  /** The cofactor of S at row i and column j. */
  function Cofactor(S: Matrix, i: nat, j: nat): real
    requires Shape(S, 3, 3) && i < 3 && j < 3
  {
    var p, q, u, v := Next(i), Next(Next(i)), Next(j), Next(Next(j));
    Cross2(S[p][u], S[q][v], S[p][v], S[q][u])
  }

  function Adjugate(S: Matrix): (r: Matrix)
    requires Shape(S, 3, 3)
    ensures Shape(r, 3, 3)
    ensures forall i, j :: 0 <= i < 3 && 0 <= j < 3 ==> r[i][j] == Cofactor(S, j, i)
  {
    seq(3, i requires 0 <= i < 3 => seq(3, j requires 0 <= j < 3 => Cofactor(S, j, i)))
  }

  function Inverse(S: Matrix): (r: Matrix)
    requires Shape(S, 3, 3) && Det(S) != 0.0
    ensures Shape(r, 3, 3)
  {
    ScaleM(1.0 / Det(S), Adjugate(S))
  }

  // ---------- Identities between numbers ----------

  lemma Det9Cycle(a: real, b: real, c: real, d: real, e: real, f: real, g: real, h: real, i: real)
    ensures Det9(a, b, c, d, e, f, g, h, i) == Det9(b, c, a, e, f, d, h, i, g) == Det9(c, a, b, f, d, e, i, g, h)
    ensures Det9(a, b, c, d, e, f, g, h, i) == Det9(d, e, f, g, h, i, a, b, c) == Det9(g, h, i, a, b, c, d, e, f)
  {
  }

  /** The first row of the adjugate, applied to the image of (x y z). */
  lemma AdjugateRowIdentity(a: real, b: real, c: real, d: real, e: real, f: real, g: real, h: real, i: real,
                            x: real, y: real, z: real)
    ensures Sum3(Cross2(e, i, f, h), Sum3(a, x, b, y, c, z), Cross2(h, c, i, b), Sum3(d, x, e, y, f, z),
                 Cross2(b, f, c, e), Sum3(g, x, h, y, i, z))
         == Times(Det9(a, b, c, d, e, f, g, h, i), x)
  {
  }

  /** The first row of the matrix, applied to the adjugate's image of (x y z). */
  lemma AdjugateColumnIdentity(a: real, b: real, c: real, d: real, e: real, f: real, g: real, h: real, i: real,
                               x: real, y: real, z: real)
    ensures Sum3(a, Sum3(Cross2(e, i, f, h), x, Cross2(h, c, i, b), y, Cross2(b, f, c, e), z),
                 b, Sum3(Cross2(f, g, d, i), x, Cross2(i, a, g, c), y, Cross2(c, d, a, f), z),
                 c, Sum3(Cross2(d, h, e, g), x, Cross2(g, b, h, a), y, Cross2(a, e, b, d), z))
         == Times(Det9(a, b, c, d, e, f, g, h, i), x)
  {
    var u := (e * i - f * h) * x + (h * c - i * b) * y + (b * f - c * e) * z;
    var v := (f * g - d * i) * x + (i * a - g * c) * y + (c * d - a * f) * z;
    var w := (d * h - e * g) * x + (g * b - h * a) * y + (a * e - b * d) * z;
    calc {
      Sum3(a, Sum3(Cross2(e, i, f, h), x, Cross2(h, c, i, b), y, Cross2(b, f, c, e), z),
           b, Sum3(Cross2(f, g, d, i), x, Cross2(i, a, g, c), y, Cross2(c, d, a, f), z),
           c, Sum3(Cross2(d, h, e, g), x, Cross2(g, b, h, a), y, Cross2(a, e, b, d), z));
      Sum3(a, u, b, v, c, w);
      a * u + b * v + c * w;
      (a * (e * i - f * h) - b * (d * i - f * g) + c * (d * h - e * g)) * x;
      Times(Det9(a, b, c, d, e, f, g, h, i), x);
    }
  }

  // ---------- The adjugate ----------

  lemma Dot3(x: Vec, y: Vec)
    requires |x| == |y| == 3
    ensures Dot(x, y) == Sum3(x[0], y[0], x[1], y[1], x[2], y[2])
  {
    assert x[1..][1..] == x[2..] && y[1..][1..] == y[2..];
    assert Dot(x[2..], y[2..]) == x[2] * y[2];
    assert Dot(x[1..], y[1..]) == x[1] * y[1] + Dot(x[2..], y[2..]);
  }

  /** Any entry of a product, summed from any starting index of the cycle. */
  lemma ApplyAt(A: Matrix, x: Vec, r: nat, i: nat)
    requires Shape(A, 3, 3) && |x| == 3 && r < 3 && i < 3
    ensures var j, k := Next(i), Next(Next(i)); Apply(A, x)[r] == Sum3(A[r][i], x[i], A[r][j], x[j], A[r][k], x[k])
  {
    Dot3(A[r], x);
    Sum3Cycle(A[r][0], x[0], A[r][1], x[1], A[r][2], x[2]);
  }

  lemma DetCycle(S: Matrix, i: nat)
    requires Shape(S, 3, 3) && i < 3
    ensures var j, k := Next(i), Next(Next(i));
            Det(S) == Det9(S[0][i], S[0][j], S[0][k], S[1][i], S[1][j], S[1][k], S[2][i], S[2][j], S[2][k])
    ensures var j, k := Next(i), Next(Next(i));
            Det(S) == Det9(S[i][0], S[i][1], S[i][2], S[j][0], S[j][1], S[j][2], S[k][0], S[k][1], S[k][2])
  {
    Det9Cycle(S[0][0], S[0][1], S[0][2], S[1][0], S[1][1], S[1][2], S[2][0], S[2][1], S[2][2]);
  }

  lemma AdjugateRow(S: Matrix, y: Vec, i: nat)
    requires Shape(S, 3, 3) && |y| == 3 && i < 3
    ensures Apply(Adjugate(S), Apply(S, y))[i] == Times(Det(S), y[i])
  {
    var j, k := Next(i), Next(Next(i));
    ApplyAt(S, y, 0, i);
    ApplyAt(S, y, 1, i);
    ApplyAt(S, y, 2, i);
    ApplyAt(Adjugate(S), Apply(S, y), i, 0);
    DetCycle(S, i);
    AdjugateRowIdentity(S[0][i], S[0][j], S[0][k], S[1][i], S[1][j], S[1][k], S[2][i], S[2][j], S[2][k],
                        y[i], y[j], y[k]);
  }

  lemma AdjugateColumn(S: Matrix, y: Vec, i: nat)
    requires Shape(S, 3, 3) && |y| == 3 && i < 3
    ensures Apply(S, Apply(Adjugate(S), y))[i] == Times(Det(S), y[i])
  {
    var A, j, k := Adjugate(S), Next(i), Next(Next(i));
    ApplyAt(A, y, 0, i);
    ApplyAt(A, y, 1, i);
    ApplyAt(A, y, 2, i);
    ApplyAt(S, Apply(A, y), i, 0);
    DetCycle(S, i);
    AdjugateColumnIdentity(S[i][0], S[i][1], S[i][2], S[j][0], S[j][1], S[j][2], S[k][0], S[k][1], S[k][2],
                           y[i], y[j], y[k]);
  }

  lemma ScaledVector(r: Vec, c: real, y: Vec)
    requires |r| == |y| && forall i :: 0 <= i < |y| ==> r[i] == Times(c, y[i])
    ensures r == Scale(c, y)
  {
    forall i | 0 <= i < |y| ensures r[i] == Scale(c, y)[i] {
    }
  }

  /** The adjugate undoes S up to the factor det(S), on either side. */
  lemma AdjugateAction(S: Matrix, y: Vec)
    requires Shape(S, 3, 3) && |y| == 3
    ensures Apply(Adjugate(S), Apply(S, y)) == Scale(Det(S), y)
    ensures Apply(S, Apply(Adjugate(S), y)) == Scale(Det(S), y)
  {
    forall i | 0 <= i < 3
      ensures Apply(Adjugate(S), Apply(S, y))[i] == Times(Det(S), y[i])
      ensures Apply(S, Apply(Adjugate(S), y))[i] == Times(Det(S), y[i])
    {
      AdjugateRow(S, y, i);
      AdjugateColumn(S, y, i);
    }
    ScaledVector(Apply(Adjugate(S), Apply(S, y)), Det(S), y);
    ScaledVector(Apply(S, Apply(Adjugate(S), y)), Det(S), y);
  }

  // ---------- The inverse ----------

  lemma UndoScale(d: real, y: Vec)
    requires d != 0.0
    ensures Scale(1.0 / d, Scale(d, y)) == y
  {
    forall i | 0 <= i < |y| ensures Scale(1.0 / d, Scale(d, y))[i] == y[i] {
      assert (1.0 / d) * (d * y[i]) == y[i];
    }
  }

  lemma ApplyScale(A: Matrix, c: real, x: Vec)
    requires Shape(A, |A|, |x|)
    ensures Apply(A, Scale(c, x)) == Scale(c, Apply(A, x))
  {
    forall i | 0 <= i < |A| ensures Apply(A, Scale(c, x))[i] == Scale(c, Apply(A, x))[i] {
      DotScale(c, A[i], x);
    }
  }

  /** Inverse(S) is a two-sided inverse of S. */
  lemma InverseAction(S: Matrix, y: Vec)
    requires Shape(S, 3, 3) && Det(S) != 0.0 && |y| == 3
    ensures Apply(Inverse(S), Apply(S, y)) == y
    ensures Apply(S, Apply(Inverse(S), y)) == y
  {
    var A, c := Adjugate(S), 1.0 / Det(S);
    AdjugateAction(S, y);
    UndoScale(Det(S), y);
    ApplyScaleM(c, A, Apply(S, y));
    ApplyScaleM(c, A, y);
    ApplyScale(S, c, Apply(A, y));
  }

  // ---------- Positive definite matrices ----------

  lemma FormPositive(S: Matrix, v: Vec, k: nat, m: real, a: real)
    requires PosDef(S, |v|) && k < |v| && v[k] != 0.0
    requires a > 0.0 && Form(S, v, v) == Times(m, a)
    ensures m > 0.0
  {
  }

  /** The leading 2 by 2 minor of a positive definite matrix is positive: it shows at (b, -a, 0). */
  lemma LeadingMinorPositive(S: Matrix)
    requires PosDef(S, 3)
    ensures Cofactor(S, 2, 2) > 0.0
  {
    var a, b, d := S[0][0], S[0][1], S[1][1];
    FormOfUnits(S, 3, 0, 0);
    assert Unit(3, 0)[0] != Zeros(3)[0];
    assert a > 0.0;
    var v: Vec := [b, -a, 0.0];
    FormAtKernelVector(S, v);
    FormPositive(S, v, 1, Cross2(a, d, b, b), a);
  }

  lemma FormAtKernelVector(S: Matrix, v: Vec)
    requires Symmetric(S, 3) && v == [S[0][1], -S[0][0], 0.0]
    ensures Form(S, v, v) == Times(Cross2(S[0][0], S[1][1], S[0][1], S[0][1]), S[0][0])
  {
    var a, b, d := S[0][0], S[0][1], S[1][1];
    var Sv := Apply(S, v);
    ApplyAt(S, v, 0, 0);
    ApplyAt(S, v, 1, 0);
    Dot3(v, Sv);
    KernelVectorNumbers(a, b, d, S[0][2], S[1][2], Sv[2]);
  }

  lemma KernelVectorNumbers(a: real, b: real, d: real, r: real, s: real, t: real)
    ensures Sum3(b, Sum3(a, b, b, -a, r, 0.0), -a, Sum3(b, b, d, -a, s, 0.0), 0.0, t)
         == Times(Cross2(a, d, b, b), a)
  {
  }

  lemma FormOfImage(S: Matrix, v: Vec, u: Vec, d: real)
    requires Shape(S, |v|, |v|) && |u| == |v| && Apply(S, v) == Scale(d, u)
    ensures Form(S, v, v) == Times(d, Dot(v, u))
  {
    DotScale(d, v, u);
  }

  /** A positive definite matrix has a positive determinant: it maps the last column of its
      adjugate, whose last entry is the leading minor, to det times the last unit vector. */
  lemma PosDefInvertible(S: Matrix)
    requires PosDef(S, 3)
    ensures Det(S) > 0.0
  {
    var u := Unit(3, 2);
    var v := Apply(Adjugate(S), u);
    assert v[2] == Cofactor(S, 2, 2) by { DotUnit(Adjugate(S)[2], 2); }
    LeadingMinorPositive(S);
    DotUnit(v, 2);
    assert Form(S, v, v) == Times(Det(S), Dot(v, u)) by {
      AdjugateAction(S, u);
      FormOfImage(S, v, u, Det(S));
    }
    FormPositive(S, v, 2, Det(S), Dot(v, u));
  }
}
