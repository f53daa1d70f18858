/** The measurement update of a Kalman filter with observation matrix H (m by n), for any gain:
    what the Joseph form does to the covariance, and what is special about the optimal gain. */
module Kalman {
  import opened LinearAlgebra

  /** H P H^T + R. */
  function InnovationCovariance(P: Matrix, H: Matrix, R: Matrix): (S: Matrix)
    requires Rectangular(H) && Shape(P, Cols(H), Cols(H)) && Shape(R, |H|, |H|)
    ensures Shape(S, |H|, |H|)
  {
    Add(Mul(Mul(H, P), Transpose(H)), R)
  }

  /** I - L H. */
  function Residual(L: Matrix, H: Matrix): (r: Matrix)
    requires Rectangular(H) && Shape(L, Cols(H), |H|)
    ensures Shape(r, Cols(H), Cols(H))
  {
    Sub(Identity(Cols(H)), Mul(L, H))
  }

  /** (I - L H) P (I - L H)^T + L R L^T. */
  function Joseph(P: Matrix, H: Matrix, R: Matrix, L: Matrix): (r: Matrix)
    requires Rectangular(H) && Shape(P, Cols(H), Cols(H)) && Shape(R, |H|, |H|) && Shape(L, Cols(H), |H|)
    ensures Shape(r, Cols(H), Cols(H))
  {
    Add(Mul(Mul(Residual(L, H), P), Transpose(Residual(L, H))), Mul(Mul(L, R), Transpose(L)))
  }

  /** W undoes S from the left. */
  ghost predicate LeftInverse(W: Matrix, S: Matrix, m: nat) {
    Shape(W, m, m) && Shape(S, m, m) && forall y: Vec {:trigger Apply(S, y)} :: |y| == m ==> Apply(W, Apply(S, y)) == y
  }

  /** P H^T W: the Kalman gain when W is the inverse of the innovation covariance. */
  function Gain(P: Matrix, H: Matrix, W: Matrix): (K: Matrix)
    requires Rectangular(H) && Shape(P, Cols(H), Cols(H)) && Shape(W, |H|, |H|)
    ensures Shape(K, Cols(H), |H|)
  {
    Mul(Mul(P, Transpose(H)), W)
  }

  lemma AdjointRight(A: Matrix, y: Vec, x: Vec)
    requires Shape(A, |x|, |y|)
    ensures Dot(Apply(A, y), x) == Dot(y, Apply(Transpose(A), x))
  {
    Adjoint(A, x, y);
    DotSymmetric(x, Apply(A, y));
    DotSymmetric(Apply(Transpose(A), x), y);
  }

  /** The innovation covariance is positive definite as soon as R is. */
  lemma InnovationPosDef(P: Matrix, H: Matrix, R: Matrix)
    requires Rectangular(H) && Psd(P, Cols(H)) && PosDef(R, |H|)
    ensures PosDef(InnovationCovariance(P, H, R), |H|)
  {
    var m, S := |H|, InnovationCovariance(P, H, R);
    forall x: Vec, y: Vec | |x| == m && |y| == m
      ensures Form(S, x, y) == Form(P, Apply(Transpose(H), x), Apply(Transpose(H), y)) + Form(R, x, y)
      ensures Form(S, x, y) == Form(S, y, x)
    {
      InnovationForm(P, H, R, x, y);
      InnovationForm(P, H, R, y, x);
      SymmetricForm(P, Cols(H), Apply(Transpose(H), x), Apply(Transpose(H), y));
      SymmetricForm(R, m, x, y);
    }
    SymmetricFromForm(S, m);
  }

  lemma InnovationForm(P: Matrix, H: Matrix, R: Matrix, x: Vec, y: Vec)
    requires Rectangular(H) && Shape(P, Cols(H), Cols(H)) && Shape(R, |H|, |H|) && |x| == |y| == |H|
    ensures Form(InnovationCovariance(P, H, R), x, y)
         == Form(P, Apply(Transpose(H), x), Apply(Transpose(H), y)) + Form(R, x, y)
  {
    FormAdd(Mul(Mul(H, P), Transpose(H)), R, x, y);
    FormCongruence(H, P, x, y);
  }

  /** (I - L H)^T x = x - H^T L^T x. */
  lemma ResidualTranspose(L: Matrix, H: Matrix, x: Vec)
    requires Rectangular(H) && Shape(L, Cols(H), |H|) && |x| == Cols(H)
    ensures Apply(Transpose(Residual(L, H)), x) == Minus(x, Apply(Transpose(H), Apply(Transpose(L), x)))
  {
    var A, y := Residual(L, H), Apply(Transpose(L), x);
    forall z: Vec | |z| == |x|
      ensures Dot(z, Apply(Transpose(A), x)) == Dot(z, Minus(x, Apply(Transpose(H), y)))
    {
      AdjointRight(A, z, x);
      ApplySub(Identity(|x|), Mul(L, H), z);
      ApplyIdentity(z);
      ApplyMul(L, H, z);
      DotMinusLeft(z, Apply(L, Apply(H, z)), x);
      AdjointRight(L, Apply(H, z), x);
      AdjointRight(H, z, y);
      DotMinus(z, x, Apply(Transpose(H), y));
    }
    DotDetermines(Apply(Transpose(A), x), Minus(x, Apply(Transpose(H), y)));
  }

  lemma FormOfDifference(P: Matrix, n: nat, x: Vec, b: Vec)
    requires Symmetric(P, n) && |x| == |b| == n
    ensures Form(P, Minus(x, b), Minus(x, b)) == Form(P, x, x) - 2.0 * Form(P, b, x) + Form(P, b, b)
  {
    ApplyMinus(P, x, b);
    DotMinus(Minus(x, b), Apply(P, x), Apply(P, b));
    DotMinusLeft(x, b, Apply(P, x));
    DotMinusLeft(x, b, Apply(P, b));
    SymmetricForm(P, n, x, b);
  }

  /** The variance after an update with any gain L, along x, with y = L^T x. */
  lemma JosephForm(P: Matrix, H: Matrix, R: Matrix, L: Matrix, x: Vec)
    requires Rectangular(H) && Symmetric(P, Cols(H)) && Shape(R, |H|, |H|) && Shape(L, Cols(H), |H|) && |x| == Cols(H)
    ensures var y := Apply(Transpose(L), x);
            Form(Joseph(P, H, R, L), x, x) ==
            Form(P, x, x) - 2.0 * Dot(y, Apply(H, Apply(P, x))) + Form(InnovationCovariance(P, H, R), y, y)
  {
    var A, y := Residual(L, H), Apply(Transpose(L), x);
    var b := Apply(Transpose(H), y);
    FormAdd(Mul(Mul(A, P), Transpose(A)), Mul(Mul(L, R), Transpose(L)), x, x);
    FormCongruence(A, P, x, x);
    FormCongruence(L, R, x, x);
    ResidualTranspose(L, H, x);
    FormOfDifference(P, |x|, x, b);
    InnovationForm(P, H, R, y, y);
    Adjoint(H, y, Apply(P, x));
  }

  /** The normal equation of the gain: S K^T x = H P x. */
  lemma GainEquation(P: Matrix, H: Matrix, R: Matrix, W: Matrix, x: Vec)
    requires Rectangular(H) && Psd(P, Cols(H)) && PosDef(R, |H|) && |x| == Cols(H)
    requires LeftInverse(W, InnovationCovariance(P, H, R), |H|)
    ensures Apply(InnovationCovariance(P, H, R), Apply(Transpose(Gain(P, H, W)), x)) == Apply(H, Apply(P, x))
  {
    var S, K := InnovationCovariance(P, H, R), Gain(P, H, W);
    var lhs, rhs := Apply(S, Apply(Transpose(K), x)), Apply(H, Apply(P, x));
    InnovationPosDef(P, H, R);
    forall z: Vec | |z| == |H| ensures Dot(z, lhs) == Dot(z, rhs) {
      SymmetricForm(S, |H|, z, Apply(Transpose(K), x));
      DotSymmetric(Apply(Transpose(K), x), Apply(S, z));
      AdjointRight(K, Apply(S, z), x);
      ApplyMul(Mul(P, Transpose(H)), W, Apply(S, z));
      ApplyMul(P, Transpose(H), z);
      var b := Apply(Transpose(H), z);
      DotSymmetric(Apply(P, b), x);
      SymmetricForm(P, |x|, x, b);
      Adjoint(H, z, Apply(P, x));
    }
    DotDetermines(lhs, rhs);
  }

  /** Along every direction the optimal gain removes exactly the variance K S K^T. */
  lemma OptimalForm(P: Matrix, H: Matrix, R: Matrix, W: Matrix, x: Vec)
    requires Rectangular(H) && Psd(P, Cols(H)) && PosDef(R, |H|) && |x| == Cols(H)
    requires LeftInverse(W, InnovationCovariance(P, H, R), |H|)
    ensures var K, S := Gain(P, H, W), InnovationCovariance(P, H, R); var y := Apply(Transpose(K), x);
            Form(Joseph(P, H, R, K), x, x) == Form(P, x, x) - Form(S, y, y)
  {
    JosephForm(P, H, R, Gain(P, H, W), x);
    GainEquation(P, H, R, W, x);
  }

  /** No other gain leaves less variance, along any direction: the Kalman gain is optimal. */
  lemma GainIsOptimal(P: Matrix, H: Matrix, R: Matrix, W: Matrix, L: Matrix, x: Vec)
    requires Rectangular(H) && Psd(P, Cols(H)) && PosDef(R, |H|) && Shape(L, Cols(H), |H|) && |x| == Cols(H)
    requires LeftInverse(W, InnovationCovariance(P, H, R), |H|)
    ensures Form(Joseph(P, H, R, Gain(P, H, W)), x, x) <= Form(Joseph(P, H, R, L), x, x)
  {
    var K, S := Gain(P, H, W), InnovationCovariance(P, H, R);
    var y, best := Apply(Transpose(L), x), Apply(Transpose(K), x);
    OptimalForm(P, H, R, W, x);
    JosephForm(P, H, R, L, x);
    GainEquation(P, H, R, W, x);
    InnovationPosDef(P, H, R);
    PosDefIsPsd(S, |H|);
    FormOfDifference(S, |H|, best, y);
    assert Form(S, Minus(best, y), Minus(best, y)) >= 0.0;
  }

  /** K S K^T. */
  function Removed(P: Matrix, H: Matrix, R: Matrix, K: Matrix): (r: Matrix)
    requires Rectangular(H) && Shape(P, Cols(H), Cols(H)) && Shape(R, |H|, |H|) && Shape(K, Cols(H), |H|)
    ensures Shape(r, Cols(H), Cols(H))
  {
    Mul(Mul(K, InnovationCovariance(P, H, R)), Transpose(K))
  }

  /** P x - K H P x. */
  function Updated(P: Matrix, H: Matrix, K: Matrix, x: Vec): (r: Vec)
    requires Rectangular(H) && Shape(P, Cols(H), Cols(H)) && Shape(K, Cols(H), |H|) && |x| == Cols(H)
    ensures |r| == |x|
  {
    Minus(Apply(P, x), Apply(K, Apply(H, Apply(P, x))))
  }

  /** P - K S K^T. */
  function Reduced(P: Matrix, H: Matrix, R: Matrix, K: Matrix): (r: Matrix)
    requires Rectangular(H) && Shape(P, Cols(H), Cols(H)) && Shape(R, |H|, |H|) && Shape(K, Cols(H), |H|)
    ensures Shape(r, Cols(H), Cols(H))
  {
    Sub(P, Removed(P, H, R, K))
  }

  /** (I - K H) P. */
  function ShortForm(P: Matrix, H: Matrix, K: Matrix): (r: Matrix)
    requires Rectangular(H) && Shape(P, Cols(H), Cols(H)) && Shape(K, Cols(H), |H|)
    ensures Shape(r, Cols(H), Cols(H))
  {
    Mul(Residual(K, H), P)
  }

  /** With the Kalman gain K the Joseph form collapses to P - K S K^T and to (I - K H) P. */
  lemma JosephCollapses(P: Matrix, H: Matrix, R: Matrix, W: Matrix, K: Matrix)
    requires Rectangular(H) && Psd(P, Cols(H)) && PosDef(R, |H|)
    requires LeftInverse(W, InnovationCovariance(P, H, R), |H|) && K == Gain(P, H, W)
    ensures Joseph(P, H, R, K) == Reduced(P, H, R, K)
    ensures Joseph(P, H, R, K) == ShortForm(P, H, K)
  {
    CollapsedActions(P, H, R, W, K);
    ActionDetermines(Joseph(P, H, R, K), Reduced(P, H, R, K), Cols(H));
    ActionDetermines(Joseph(P, H, R, K), ShortForm(P, H, K), Cols(H));
  }

  lemma CollapsedActions(P: Matrix, H: Matrix, R: Matrix, W: Matrix, K: Matrix)
    requires Rectangular(H) && Psd(P, Cols(H)) && PosDef(R, |H|)
    requires LeftInverse(W, InnovationCovariance(P, H, R), |H|) && K == Gain(P, H, W)
    ensures forall x: Vec {:trigger Apply(Joseph(P, H, R, K), x)} :: |x| == Cols(H) ==>
              Apply(Joseph(P, H, R, K), x) == Apply(Reduced(P, H, R, K), x) == Apply(ShortForm(P, H, K), x)
  {
    forall x: Vec {:trigger Apply(Joseph(P, H, R, K), x)} | |x| == Cols(H)
      ensures Apply(Joseph(P, H, R, K), x) == Apply(Reduced(P, H, R, K), x) == Apply(ShortForm(P, H, K), x)
    {
      JosephAction(P, H, R, W, K, x);
      ReducedAction(P, H, R, W, K, x);
      ApplyMul(Residual(K, H), P, x);
      ResidualAction(K, H, Apply(P, x));
    }
  }

  lemma ReducedAction(P: Matrix, H: Matrix, R: Matrix, W: Matrix, K: Matrix, x: Vec)
    requires Rectangular(H) && Psd(P, Cols(H)) && PosDef(R, |H|) && |x| == Cols(H)
    requires LeftInverse(W, InnovationCovariance(P, H, R), |H|) && K == Gain(P, H, W)
    ensures Apply(Reduced(P, H, R, K), x) == Updated(P, H, K, x)
  {
    var S := InnovationCovariance(P, H, R);
    GainEquation(P, H, R, W, x);
    ApplySub(P, Removed(P, H, R, K), x);
    ApplyMul(Mul(K, S), Transpose(K), x);
    ApplyMul(K, S, Apply(Transpose(K), x));
  }

  lemma ResidualAction(L: Matrix, H: Matrix, z: Vec)
    requires Rectangular(H) && Shape(L, Cols(H), |H|) && |z| == Cols(H)
    ensures Apply(Residual(L, H), z) == Minus(z, Apply(L, Apply(H, z)))
  {
    ApplySub(Identity(|z|), Mul(L, H), z);
    ApplyIdentity(z);
    ApplyMul(L, H, z);
  }

  lemma JosephAction(P: Matrix, H: Matrix, R: Matrix, W: Matrix, K: Matrix, x: Vec)
    requires Rectangular(H) && Psd(P, Cols(H)) && PosDef(R, |H|) && |x| == Cols(H)
    requires LeftInverse(W, InnovationCovariance(P, H, R), |H|) && K == Gain(P, H, W)
    ensures Apply(Joseph(P, H, R, K), x) == Updated(P, H, K, x)
  {
    var S := InnovationCovariance(P, H, R);
    var A, y, Px := Residual(K, H), Apply(Transpose(K), x), Apply(P, x);
    var b := Apply(Transpose(H), y);
    var Pb := Apply(P, b);
    ApplyAdd(Mul(Mul(A, P), Transpose(A)), Mul(Mul(K, R), Transpose(K)), x);
    ApplyMul(Mul(A, P), Transpose(A), x);
    ResidualTranspose(K, H, x);
    ApplyMul(A, P, Minus(x, b));
    ApplyMinus(P, x, b);
    ResidualAction(K, H, Minus(Px, Pb));
    ApplyMinus(H, Px, Pb);
    ApplyMinus(K, Apply(H, Px), Apply(H, Pb));
    ApplyMul(Mul(K, R), Transpose(K), x);
    ApplyMul(K, R, y);
    // K (H P H^T + R) y = K H P b + K R y, and it equals P H^T y = P b.
    InnovationAction(P, H, R, y);
    ApplyPlus(K, Apply(H, Pb), Apply(R, y));
    ApplyMul(Mul(P, Transpose(H)), W, Apply(S, y));
    ApplyMul(P, Transpose(H), y);
    assert Plus(Apply(K, Apply(H, Pb)), Apply(K, Apply(R, y))) == Pb;
    CancelGain(Px, Pb, Apply(K, Apply(H, Px)), Apply(K, Apply(H, Pb)), Apply(K, Apply(R, y)));
  }

  lemma InnovationAction(P: Matrix, H: Matrix, R: Matrix, y: Vec)
    requires Rectangular(H) && Shape(P, Cols(H), Cols(H)) && Shape(R, |H|, |H|) && |y| == |H|
    ensures Apply(InnovationCovariance(P, H, R), y)
         == Plus(Apply(H, Apply(P, Apply(Transpose(H), y))), Apply(R, y))
  {
    ApplyAdd(Mul(Mul(H, P), Transpose(H)), R, y);
    ApplyMul(Mul(H, P), Transpose(H), y);
    ApplyMul(H, P, Apply(Transpose(H), y));
  }

  lemma CancelGain(a: Vec, b: Vec, c: Vec, d: Vec, e: Vec)
    requires |a| == |b| == |c| == |d| == |e| && Plus(d, e) == b
    ensures Plus(Minus(Minus(a, b), Minus(c, d)), e) == Minus(a, c)
  {
  }

  /** What the corrected state still leaves of an innovation z: with the coded gain, R S^-1 z. */
  lemma PostFitResidual(P: Matrix, H: Matrix, R: Matrix, W: Matrix, z: Vec)
    requires Rectangular(H) && Shape(P, Cols(H), Cols(H)) && Shape(R, |H|, |H|) && Shape(W, |H|, |H|) && |z| == |H|
    requires Apply(InnovationCovariance(P, H, R), Apply(W, z)) == z
    ensures Minus(z, Apply(H, Apply(Gain(P, H, W), z))) == Apply(R, Apply(W, z))
  {
    var y, Ht := Apply(W, z), Transpose(H);
    ApplyMul(Mul(P, Ht), W, z);
    ApplyMul(P, Ht, y);
    ApplyAdd(Mul(Mul(H, P), Ht), R, y);
    ApplyMul(Mul(H, P), Ht, y);
    ApplyMul(H, P, Apply(Ht, y));
  }

  // ---------- Definite covariances ----------

  lemma MinusZeros(x: Vec)
    ensures Minus(x, Zeros(|x|)) == x
  {
  }

  /** Any gain leaves a definite covariance definite, if the measurement noise is. */
  lemma JosephPosDef(P: Matrix, H: Matrix, R: Matrix, L: Matrix)
    requires Rectangular(H) && PosDef(P, Cols(H)) && PosDef(R, |H|) && Shape(L, Cols(H), |H|)
    ensures PosDef(Joseph(P, H, R, L), Cols(H))
  {
    var n, A := Cols(H), Residual(L, H);
    PosDefIsPsd(P, n);
    PosDefIsPsd(R, |H|);
    CongruencePsd(A, P, n);
    CongruencePsd(L, R, n);
    AddPsd(Mul(Mul(A, P), Transpose(A)), Mul(Mul(L, R), Transpose(L)), n);
    forall x: Vec {:trigger Form(Joseph(P, H, R, L), x, x)} | |x| == n && x != Zeros(n)
      ensures Form(Joseph(P, H, R, L), x, x) > 0.0
    {
      JosephIsPositive(P, H, R, L, x);
    }
  }

  lemma JosephIsPositive(P: Matrix, H: Matrix, R: Matrix, L: Matrix, x: Vec)
    requires Rectangular(H) && PosDef(P, Cols(H)) && PosDef(R, |H|) && Shape(L, Cols(H), |H|)
    requires |x| == Cols(H) && x != Zeros(|x|)
    ensures Form(Joseph(P, H, R, L), x, x) > 0.0
  {
    var n, A, y := Cols(H), Residual(L, H), Apply(Transpose(L), x);
    var z := Apply(Transpose(A), x);
    FormAdd(Mul(Mul(A, P), Transpose(A)), Mul(Mul(L, R), Transpose(L)), x, x);
    FormCongruence(A, P, x, x);
    FormCongruence(L, R, x, x);
    ResidualTranspose(L, H, x);
    hide Joseph, Residual, Transpose, Mul, Add, Apply, Form;
    if y == Zeros(|H|) {
      ApplyToZero(Transpose(H), |H|);
      MinusZeros(x);
      assert z == x;
      assert Form(P, z, z) > 0.0 && Form(R, y, y) >= 0.0 by { PosDefIsPsd(R, |H|); }
    } else {
      assert Form(R, y, y) > 0.0 && Form(P, z, z) >= 0.0 by { PosDefIsPsd(P, n); }
    }
  }

  /** M undoes P from the right. */
  ghost predicate RightInverse(M: Matrix, P: Matrix, n: nat) {
    Shape(M, n, n) && Shape(P, n, n) && forall x: Vec {:trigger Apply(M, x)} :: |x| == n ==> Apply(P, Apply(M, x)) == x
  }

  /** M + H^T V H: the inverse covariance M plus what a measurement with inverse noise V adds. */
  function Information(M: Matrix, H: Matrix, V: Matrix): (r: Matrix)
    requires Rectangular(H) && Shape(M, Cols(H), Cols(H)) && Shape(V, |H|, |H|)
    ensures Shape(r, Cols(H), Cols(H))
  {
    Add(M, Mul(Mul(Transpose(H), V), H))
  }

  lemma InformationAction(M: Matrix, H: Matrix, V: Matrix, x: Vec)
    requires Rectangular(H) && Shape(M, Cols(H), Cols(H)) && Shape(V, |H|, |H|) && |x| == Cols(H)
    ensures Apply(Information(M, H, V), x) == Plus(Apply(M, x), Apply(Transpose(H), Apply(V, Apply(H, x))))
  {
    ApplyAdd(M, Mul(Mul(Transpose(H), V), H), x);
    ApplyMul(Mul(Transpose(H), V), H, x);
    ApplyMul(Transpose(H), V, Apply(H, x));
  }

  lemma PlusMinus(x: Vec, b: Vec)
    requires |x| == |b|
    ensures Minus(Plus(x, b), b) == x
  {
  }

  lemma PlusCommutes(x: Vec, y: Vec)
    requires |x| == |y|
    ensures Plus(x, y) == Plus(y, x)
  {
  }

  /** The information form: after the update the inverse covariance is the old one plus H^T R^-1 H. */
  lemma InformationAdds(P: Matrix, H: Matrix, R: Matrix, W: Matrix, K: Matrix, M: Matrix, V: Matrix)
    requires Rectangular(H) && Psd(P, Cols(H)) && PosDef(R, |H|)
    requires LeftInverse(W, InnovationCovariance(P, H, R), |H|) && K == Gain(P, H, W)
    requires RightInverse(M, P, Cols(H)) && RightInverse(V, R, |H|)
    ensures RightInverse(Information(M, H, V), Joseph(P, H, R, K), Cols(H))
  {
    forall x: Vec {:trigger Apply(Information(M, H, V), x)} | |x| == Cols(H)
      ensures Apply(Joseph(P, H, R, K), Apply(Information(M, H, V), x)) == x
    {
      InformationUndone(P, H, R, W, K, M, V, x);
    }
  }

  lemma InformationUndone(P: Matrix, H: Matrix, R: Matrix, W: Matrix, K: Matrix, M: Matrix, V: Matrix, x: Vec)
    requires Rectangular(H) && Psd(P, Cols(H)) && PosDef(R, |H|) && |x| == Cols(H)
    requires LeftInverse(W, InnovationCovariance(P, H, R), |H|) && K == Gain(P, H, W)
    requires RightInverse(M, P, Cols(H)) && RightInverse(V, R, |H|)
    ensures Apply(Joseph(P, H, R, K), Apply(Information(M, H, V), x)) == x
  {
    var S, y := InnovationCovariance(P, H, R), Apply(V, Apply(H, x));
    var b := Apply(Transpose(H), y);
    var Pb := Apply(P, b);
    var z := Apply(Information(M, H, V), x);
    hide Joseph, Information, InnovationCovariance, Transpose, Mul, Add, Plus, Minus;
    InformationAction(M, H, V, x);
    JosephAction(P, H, R, W, K, z);
    ApplyPlus(P, Apply(M, x), b);
    ApplyPlus(H, x, Pb);
    InnovationAction(P, H, R, y);
    PlusCommutes(Apply(H, Pb), Apply(R, y));
    assert Apply(H, Apply(P, z)) == Apply(S, y);
    ApplyMul(Mul(P, Transpose(H)), W, Apply(S, y));
    ApplyMul(P, Transpose(H), y);
    assert Apply(K, Apply(S, y)) == Pb;
    PlusMinus(x, Pb);
  }

  // ---------- The correction itself ----------

  /** The correction is P H^T w for the weights w that solve S w = z. */
  lemma CorrectionOfWeights(P: Matrix, H: Matrix, R: Matrix, W: Matrix, w: Vec)
    requires Rectangular(H) && Shape(P, Cols(H), Cols(H)) && Shape(R, |H|, |H|) && |w| == |H|
    requires LeftInverse(W, InnovationCovariance(P, H, R), |H|)
    ensures Apply(Gain(P, H, W), Apply(InnovationCovariance(P, H, R), w)) == Apply(P, Apply(Transpose(H), w))
  {
    var z := Apply(InnovationCovariance(P, H, R), w);
    ApplyMul(Mul(P, Transpose(H)), W, z);
    ApplyMul(P, Transpose(H), w);
  }

  /** The inverse of a symmetric matrix is symmetric, and an inverse from both sides. */
  lemma InverseIsSymmetric(P: Matrix, M: Matrix, n: nat)
    requires Symmetric(P, n) && RightInverse(M, P, n)
    ensures Symmetric(M, n)
    ensures forall x: Vec {:trigger Apply(P, x)} :: |x| == n ==> Apply(M, Apply(P, x)) == x
  {
    forall x: Vec, y: Vec {:trigger Form(M, x, y)} | |x| == n && |y| == n ensures Form(M, x, y) == Form(M, y, x) {
      InverseForm(P, M, n, x, y);
      InverseForm(P, M, n, y, x);
      SymmetricForm(P, n, Apply(M, x), Apply(M, y));
    }
    SymmetricFromForm(M, n);
    forall x: Vec {:trigger Apply(P, x)} | |x| == n ensures Apply(M, Apply(P, x)) == x {
      forall z: Vec | |z| == n ensures Dot(z, Apply(M, Apply(P, x))) == Dot(z, x) {
        SymmetricForm(M, n, z, Apply(P, x));
        DotSymmetric(Apply(P, x), Apply(M, z));
        SymmetricForm(P, n, Apply(M, z), x);
        DotSymmetric(x, z);
      }
      DotDetermines(Apply(M, Apply(P, x)), x);
    }
  }

  lemma InverseForm(P: Matrix, M: Matrix, n: nat, x: Vec, y: Vec)
    requires Symmetric(P, n) && RightInverse(M, P, n) && |x| == |y| == n
    ensures Form(M, x, y) == Form(P, Apply(M, x), Apply(M, y))
  {
    SymmetricForm(P, n, Apply(M, x), Apply(M, y));
    DotSymmetric(Apply(M, y), x);
  }

  lemma InverseIsPosDef(P: Matrix, M: Matrix, n: nat)
    requires PosDef(P, n) && RightInverse(M, P, n)
    ensures PosDef(M, n)
  {
    InverseIsSymmetric(P, M, n);
    forall x: Vec {:trigger Form(M, x, x)} | |x| == n && x != Zeros(n) ensures Form(M, x, x) > 0.0 {
      InverseForm(P, M, n, x, x);
      ApplyToZero(P, n);
      assert Apply(P, Apply(M, x)) == x;
    }
  }

  /** What the estimate x costs: the square of the residual it leaves, weighed by the inverse noise V, and
      its own square, weighed by the inverse covariance M. */
  function Cost(H: Matrix, V: Matrix, M: Matrix, z: Vec, x: Vec): real
    requires Rectangular(H) && Shape(V, |H|, |H|) && Shape(M, Cols(H), Cols(H)) && |z| == |H| && |x| == Cols(H)
  {
    Form(V, Minus(z, Apply(H, x)), Minus(z, Apply(H, x))) + Form(M, x, x)
  }

  /** The normal equation of the posterior estimate: M dx = H^T V (z - H dx). */
  lemma NormalEquation(P: Matrix, H: Matrix, R: Matrix, W: Matrix, M: Matrix, V: Matrix, w: Vec)
    requires Rectangular(H) && Symmetric(P, Cols(H)) && Symmetric(R, |H|) && |w| == |H|
    requires LeftInverse(W, InnovationCovariance(P, H, R), |H|)
    requires RightInverse(M, P, Cols(H)) && RightInverse(V, R, |H|)
    ensures var z := Apply(InnovationCovariance(P, H, R), w);
            var dx := Apply(Gain(P, H, W), z);
            && Minus(z, Apply(H, dx)) == Apply(R, w)
            && Apply(V, Minus(z, Apply(H, dx))) == w
            && Apply(M, dx) == Apply(Transpose(H), w)
  {
    var b := Apply(Transpose(H), w);
    CorrectionOfWeights(P, H, R, W, w);
    InnovationAction(P, H, R, w);
    InverseIsSymmetric(P, M, Cols(H));
    InverseIsSymmetric(R, V, |H|);
    PlusCommutes(Apply(H, Apply(P, b)), Apply(R, w));
    PlusMinus(Apply(R, w), Apply(H, Apply(P, b)));
  }

  /** Completing the square: any other estimate x costs more than dx by the square of its distance, weighed
      by the inverse covariance after the update. */
  lemma CostOfDeviation(H: Matrix, V: Matrix, M: Matrix, z: Vec, dx: Vec, x: Vec)
    requires Rectangular(H) && Symmetric(V, |H|) && Symmetric(M, Cols(H)) && |z| == |H| && |x| == |dx| == Cols(H)
    requires Apply(M, dx) == Apply(Transpose(H), Apply(V, Minus(z, Apply(H, dx))))
    ensures var e := Minus(x, dx);
            Cost(H, V, M, z, x) == Cost(H, V, M, z, dx) + Form(V, Apply(H, e), Apply(H, e)) + Form(M, e, e)
  {
    var e, r := Minus(x, dx), Minus(z, Apply(H, dx));
    var He := Apply(H, e);
    ApplyMinus(H, x, dx);
    Regroup(z, Apply(H, x), Apply(H, dx));
    FormOfDifference(V, |H|, r, He);
    FormOfDifference(M, |x|, x, e);
    Regroup(x, x, dx);
    Undo(x, dx);
    ApplyMinus(M, x, dx);
    DotMinus(e, Apply(M, x), Apply(M, dx));
    Adjoint(H, Apply(V, r), e);
    DotSymmetric(Apply(V, r), He);
    DotSymmetric(Apply(M, dx), e);
  }

  lemma Regroup(z: Vec, a: Vec, b: Vec)
    requires |z| == |a| == |b|
    ensures Minus(Minus(z, b), Minus(a, b)) == Minus(z, a)
  {
  }

  lemma Undo(x: Vec, d: Vec)
    requires |x| == |d|
    ensures Minus(x, Minus(x, d)) == d
  {
  }

  lemma DifferenceIsZero(x: Vec, y: Vec)
    requires |x| == |y| && Minus(x, y) == Zeros(|x|)
    ensures x == y
  {
    forall i | 0 <= i < |x| ensures x[i] == y[i] {
      assert Minus(x, y)[i] == 0.0;
    }
  }

  /** The correction by the coded gain is the posterior estimate: it alone has the least cost. */
  lemma CorrectionIsPosterior(P: Matrix, H: Matrix, R: Matrix, W: Matrix, M: Matrix, V: Matrix, w: Vec, x: Vec)
    requires Rectangular(H) && PosDef(P, Cols(H)) && PosDef(R, |H|) && |w| == |H| && |x| == Cols(H)
    requires LeftInverse(W, InnovationCovariance(P, H, R), |H|)
    requires RightInverse(M, P, Cols(H)) && RightInverse(V, R, |H|)
    ensures var z := Apply(InnovationCovariance(P, H, R), w);
            var dx := Apply(Gain(P, H, W), z);
            x != dx ==> Cost(H, V, M, z, dx) < Cost(H, V, M, z, x)
  {
    hide Apply, Form, Minus, Gain, InnovationCovariance, Cost, Transpose;
    var z := Apply(InnovationCovariance(P, H, R), w);
    var dx := Apply(Gain(P, H, W), z);
    NormalEquation(P, H, R, W, M, V, w);
    InverseIsPosDef(P, M, Cols(H));
    InverseIsPosDef(R, V, |H|);
    PosDefIsPsd(V, |H|);
    CostOfDeviation(H, V, M, z, dx, x);
    var e := Minus(x, dx);
    assert Form(V, Apply(H, e), Apply(H, e)) >= 0.0;
    if x != dx && e == Zeros(|x|) {
      DifferenceIsZero(x, dx);
    }
  }
}
