/** Torque allocation to a pyramid of four reaction wheels through the pseudo-inverse of the
    columns of the healthy wheels. */
module ControlAllocator {
  import opened LinearAlgebra
  import opened Vectors3
  import Inverse3

  /** cos(45 deg) and sin(45 deg), as the source writes them. */
  const C := 0.7071067811865475

  const DET_THRESHOLD := 0.0000001

  /** Wheel axes in the columns: (c,0,s), (0,c,s), (-c,0,s), (0,-c,s). */
  function Nominal(): (A: Matrix)
    ensures Shape(A, 3, 4)
  {
    [[C, 0.0, -C, 0.0],
     [0.0, C, 0.0, -C],
     [C, C, C, C]]
  }

  /** The nominal matrix with the columns of failed wheels set to zero. */
  function Distribution(healthy: seq<bool>): (A: Matrix)
    requires |healthy| == 4
    ensures Shape(A, 3, 4)
  {
    seq(3, r requires 0 <= r < 3 => seq(4, i requires 0 <= i < 4 => if healthy[i] then Nominal()[r][i] else 0.0))
  }

  function Gram(healthy: seq<bool>): (S: Matrix)
    requires |healthy| == 4
    ensures Shape(S, 3, 3)
  {
    Mul(Distribution(healthy), Transpose(Distribution(healthy)))
  }

  function HealthyCount(healthy: seq<bool>): nat {
    if healthy == [] then 0 else (if healthy[0] then 1 else 0) + HealthyCount(healthy[1..])
  }

  function ToVec(v: Vec3): (r: Vec)
    ensures |r| == 3
  {
    [v.x, v.y, v.z]
  }

  /** -A^T (A A^T)^-1 torque. */
  function Command(healthy: seq<bool>, torque: Vec3): (u: Vec)
    requires |healthy| == 4 && Inverse3.Det(Gram(healthy)) != 0.0
    ensures |u| == 4
  {
    Apply(Mul(ScaleM(-1.0, Transpose(Distribution(healthy))), Inverse3.Inverse(Gram(healthy))), ToVec(torque))
  }

  /** Failed wheels are given no torque. */
  predicate Idle(healthy: seq<bool>, u: Vec)
    requires |healthy| == |u|
  {
    forall i :: 0 <= i < |u| && !healthy[i] ==> u[i] == 0.0
  }

  /** The body torque that wheel torques u produce. */
  function BodyTorque(u: Vec): (t: Vec)
    requires |u| == 4
    ensures |t| == 3
  {
    Scale(-1.0, Apply(Nominal(), u))
  }

  // ---------- The determinant ----------

  function Weight(b: bool): real {
    if b then 1.0 else 0.0
  }

  /** The Gram determinant of weighted axes is four times the sum of the weights of all triples
      (Cauchy-Binet: every three axes span a parallelepiped of squared volume 4, in units of c). */
  lemma CauchyBinet(a: real, b: real, c: real, d: real, k: real)
    ensures Inverse3.Det9(k * (a + c), 0.0, k * (a - c), 0.0, k * (b + d), k * (b - d), k * (a - c), k * (b - d),
                          k * (a + b + c + d))
         == 4.0 * (k * k * k) * (a * b * c + a * b * d + a * c * d + b * c * d)
  {
  }

  lemma Dot4(x: Vec, y: Vec)
    requires |x| == |y| == 4
    ensures Dot(x, y) == x[0] * y[0] + x[1] * y[1] + x[2] * y[2] + x[3] * y[3]
  {
    Inverse3.Dot3(x[1..], y[1..]);
  }

  /** The axes in numbers: what wheel torques put on the body is the opposite of their sum along (k, 0, k),
      (0, k, k), (-k, 0, k) and (0, -k, k), for k the cosine of 45 degrees. */
  lemma BodyTorqueInNumbers(u: Vec, k: real)
    requires |u| == 4 && k == 0.7071067811865475
    ensures BodyTorque(u) == [k * u[2] - k * u[0], k * u[3] - k * u[1], -k * u[0] - k * u[1] - k * u[2] - k * u[3]]
  {
    hide Dot;
    Dot4([k, 0.0, -k, 0.0], u);
    Dot4([0.0, k, 0.0, -k], u);
    Dot4([k, k, k, k], u);
    var t := [k * u[2] - k * u[0], k * u[3] - k * u[1], -k * u[0] - k * u[1] - k * u[2] - k * u[3]];
    forall i | 0 <= i < 3 ensures BodyTorque(u)[i] == t[i] {
      assert Apply(Nominal(), u)[i] == Dot(Nominal()[i], u);
    }
  }

  lemma GramEntry(healthy: seq<bool>, r: nat, s: nat)
    requires |healthy| == 4 && r < 3 && s < 3
    ensures Gram(healthy)[r][s] == Dot(Distribution(healthy)[r], Distribution(healthy)[s])
  {
    var A := Distribution(healthy);
    assert Column(Transpose(A), s) == A[s];
  }

  lemma WeightedProduct(b: bool, x: real, y: real)
    ensures (if b then x else 0.0) * (if b then y else 0.0) == Weight(b) * (x * y)
  {
  }

  lemma GramSum(healthy: seq<bool>, r: nat, s: nat)
    requires |healthy| == 4 && r < 3 && s < 3
    ensures var N := Nominal();
            Gram(healthy)[r][s] ==
            Weight(healthy[0]) * (N[r][0] * N[s][0]) + Weight(healthy[1]) * (N[r][1] * N[s][1])
            + Weight(healthy[2]) * (N[r][2] * N[s][2]) + Weight(healthy[3]) * (N[r][3] * N[s][3])
  {
    hide Weight, Nominal, Dot, Gram;
    var A, N := Distribution(healthy), Nominal();
    GramEntry(healthy, r, s);
    Dot4(A[r], A[s]);
    WeightedProduct(healthy[0], N[r][0], N[s][0]);
    WeightedProduct(healthy[1], N[r][1], N[s][1]);
    WeightedProduct(healthy[2], N[r][2], N[s][2]);
    WeightedProduct(healthy[3], N[r][3], N[s][3]);
  }

  lemma GramValue(healthy: seq<bool>)
    requires |healthy| == 4
    ensures var a, b, c, d := Weight(healthy[0]), Weight(healthy[1]), Weight(healthy[2]), Weight(healthy[3]);
            var S := Gram(healthy);
            && S[0][0] == (C * C) * (a + c) && S[0][1] == 0.0 && S[0][2] == (C * C) * (a - c)
            && S[1][0] == 0.0 && S[1][1] == (C * C) * (b + d) && S[1][2] == (C * C) * (b - d)
            && S[2][0] == (C * C) * (a - c) && S[2][1] == (C * C) * (b - d) && S[2][2] == (C * C) * (a + b + c + d)
  {
    hide Weight, Gram;
    GramSum(healthy, 0, 0);
    GramSum(healthy, 0, 1);
    GramSum(healthy, 0, 2);
    GramSum(healthy, 1, 0);
    GramSum(healthy, 1, 1);
    GramSum(healthy, 1, 2);
    GramSum(healthy, 2, 0);
    GramSum(healthy, 2, 1);
    GramSum(healthy, 2, 2);
  }

  /** The number of triples of healthy wheels. */
  function Triples(healthy: seq<bool>): real
    requires |healthy| == 4
  {
    var a, b, c, d := Weight(healthy[0]), Weight(healthy[1]), Weight(healthy[2]), Weight(healthy[3]);
    a * b * c + a * b * d + a * c * d + b * c * d
  }

  lemma GramDeterminant(healthy: seq<bool>)
    requires |healthy| == 4
    ensures Inverse3.Det(Gram(healthy)) == 4.0 * ((C * C) * (C * C) * (C * C)) * Triples(healthy)
  {
    hide Weight, Gram, Inverse3.Det9;
    GramValue(healthy);
    CauchyBinet(Weight(healthy[0]), Weight(healthy[1]), Weight(healthy[2]), Weight(healthy[3]), C * C);
  }

  lemma CountOfFour(healthy: seq<bool>)
    requires |healthy| == 4
    ensures HealthyCount(healthy) as real
         == Weight(healthy[0]) + Weight(healthy[1]) + Weight(healthy[2]) + Weight(healthy[3])
  {
    var t1, t2, t3 := healthy[1..], healthy[2..], healthy[3..];
    assert t1[1..] == t2 && t2[1..] == t3 && t3[1..] == [];
    assert HealthyCount(t3) == if healthy[3] then 1 else 0;
    assert HealthyCount(t2) == (if healthy[2] then 1 else 0) + HealthyCount(t3);
    assert HealthyCount(t1) == (if healthy[1] then 1 else 0) + HealthyCount(t2);
  }

  lemma TriplesOfThree(healthy: seq<bool>)
    requires |healthy| == 4
    ensures HealthyCount(healthy) >= 3 ==> Triples(healthy) >= 1.0
    ensures HealthyCount(healthy) < 3 ==> Triples(healthy) == 0.0
  {
    hide HealthyCount;
    CountOfFour(healthy);
  }

  /** The determinant test passes exactly when at least three of the four wheels are healthy. */
  lemma RankTest(healthy: seq<bool>)
    requires |healthy| == 4
    ensures HealthyCount(healthy) >= 3 <==> Inverse3.Det(Gram(healthy)) >= DET_THRESHOLD
    ensures HealthyCount(healthy) < 3 ==> Inverse3.Det(Gram(healthy)) == 0.0
  {
    hide HealthyCount, Triples, Gram, Inverse3.Det;
    GramDeterminant(healthy);
    TriplesOfThree(healthy);
  }

  // ---------- The allocation ----------

  lemma IdleTerm(b: bool, x: real, u: real)
    requires b || u == 0.0
    ensures (if b then x else 0.0) * u == x * u
  {
  }

  /** For wheel torques that leave failed wheels idle, the zeroed columns make no difference. */
  lemma IdleAction(healthy: seq<bool>, u: Vec)
    requires |healthy| == |u| == 4 && Idle(healthy, u)
    ensures Apply(Distribution(healthy), u) == Apply(Nominal(), u)
  {
    hide Dot, Nominal;
    forall r | 0 <= r < 3 ensures Dot(Distribution(healthy)[r], u) == Dot(Nominal()[r], u) {
      Dot4(Distribution(healthy)[r], u);
      Dot4(Nominal()[r], u);
      IdleTerm(healthy[0], Nominal()[r][0], u[0]);
      IdleTerm(healthy[1], Nominal()[r][1], u[1]);
      IdleTerm(healthy[2], Nominal()[r][2], u[2]);
      IdleTerm(healthy[3], Nominal()[r][3], u[3]);
    }
  }

  /** The command as the image under A^T of some y with A A^T y = -torque. */
  lemma CommandShape(healthy: seq<bool>, torque: Vec3)
    requires |healthy| == 4 && Inverse3.Det(Gram(healthy)) != 0.0
    ensures var y := Scale(-1.0, Apply(Inverse3.Inverse(Gram(healthy)), ToVec(torque)));
            && Command(healthy, torque) == Apply(Transpose(Distribution(healthy)), y)
            && Apply(Distribution(healthy), Command(healthy, torque)) == Scale(-1.0, ToVec(torque))
  {
    var A, S := Distribution(healthy), Gram(healthy);
    var W, t := Inverse3.Inverse(S), ToVec(torque);
    var y := Scale(-1.0, Apply(W, t));
    ApplyMul(ScaleM(-1.0, Transpose(A)), W, t);
    ApplyScaleM(-1.0, Transpose(A), Apply(W, t));
    Inverse3.ApplyScale(Transpose(A), -1.0, Apply(W, t));
    ApplyMul(A, Transpose(A), y);
    Inverse3.ApplyScale(S, -1.0, Apply(W, t));
    Inverse3.InverseAction(S, t);
  }

  lemma CommandIsIdle(healthy: seq<bool>, torque: Vec3)
    requires |healthy| == 4 && Inverse3.Det(Gram(healthy)) != 0.0
    ensures Idle(healthy, Command(healthy, torque))
  {
    CommandShape(healthy, torque);
    var A := Distribution(healthy);
    var y := Scale(-1.0, Apply(Inverse3.Inverse(Gram(healthy)), ToVec(torque)));
    forall i | 0 <= i < 4 && !healthy[i] ensures Apply(Transpose(A), y)[i] == 0.0 {
      assert Column(A, i) == Zeros(3);
      DotSymmetric(Column(A, i), y);
      DotZeros(y);
    }
  }

  lemma Pythagoras(u: Vec, v: Vec)
    requires |u| == |v| && Dot(u, Minus(v, u)) == 0.0
    ensures NormSq(v) == NormSq(u) + NormSq(Minus(v, u))
  {
    var d := Minus(v, u);
    assert Plus(u, d) == v;
    DotPlus(Plus(u, d), u, d);
    DotPlusLeft(u, d, u);
    DotPlusLeft(u, d, d);
    DotSymmetric(d, u);
  }

  /** Any idle-respecting u with the same image as the command differs from it by a vector
      orthogonal to it. */
  lemma DifferenceIsOrthogonal(healthy: seq<bool>, torque: Vec3, u: Vec)
    requires |healthy| == |u| == 4 && Inverse3.Det(Gram(healthy)) != 0.0
    requires Apply(Distribution(healthy), u) == Scale(-1.0, ToVec(torque))
    ensures Dot(Command(healthy, torque), Minus(u, Command(healthy, torque))) == 0.0
  {
    hide Dot, Command, Gram, Inverse3.Det, Inverse3.Inverse, Distribution, Apply;
    var A, best := Distribution(healthy), Command(healthy, torque);
    var y, d := Scale(-1.0, Apply(Inverse3.Inverse(Gram(healthy)), ToVec(torque))), Minus(u, best);
    CommandShape(healthy, torque);
    ApplyMinus(A, u, best);
    assert Apply(A, d) == Zeros(3);
    Adjoint(A, y, d);
    DotZeros(y);
    DotSymmetric(y, Zeros(3));
    DotSymmetric(Apply(Transpose(A), y), d);
  }

  lemma OrthogonalIsLeast(best: Vec, u: Vec)
    requires |best| == |u| && Dot(best, Minus(u, best)) == 0.0
    ensures NormSq(best) <= NormSq(u)
    ensures NormSq(best) == NormSq(u) ==> u == best
  {
    hide Dot, NormSq;
    var d := Minus(u, best);
    Pythagoras(best, u);
    NormSqNonNegative(d);
    assert u == Plus(best, d);
    if d == Zeros(|d|) {
      assert Plus(best, d) == best;
    }
  }

  /** With three healthy wheels the command produces exactly the requested torque, leaves failed
      wheels idle, and is the one such command of least squared norm. */
  lemma CommandIsLeastNorm(healthy: seq<bool>, torque: Vec3, u: Vec)
    requires |healthy| == 4 && HealthyCount(healthy) >= 3
    ensures Inverse3.Det(Gram(healthy)) > 0.0
    ensures Idle(healthy, Command(healthy, torque)) && BodyTorque(Command(healthy, torque)) == ToVec(torque)
    ensures |u| == 4 && Idle(healthy, u) && BodyTorque(u) == ToVec(torque) ==>
              && NormSq(Command(healthy, torque)) <= NormSq(u)
              && (NormSq(Command(healthy, torque)) == NormSq(u) ==> u == Command(healthy, torque))
  {
    hide Dot, NormSq, HealthyCount, Command, Gram, Inverse3.Det, Inverse3.Inverse, Distribution, Apply, Nominal, Idle;
    RankTest(healthy);
    var best := Command(healthy, torque);
    CommandShape(healthy, torque);
    CommandIsIdle(healthy, torque);
    IdleAction(healthy, best);
    ScaleTwice(ToVec(torque));
    if |u| == 4 && Idle(healthy, u) && BodyTorque(u) == ToVec(torque) {
      IdleAction(healthy, u);
      ScaleTwice(Apply(Nominal(), u));
      DifferenceIsOrthogonal(healthy, torque, u);
      OrthogonalIsLeast(best, u);
    }
  }

  lemma ScaleTwice(x: Vec)
    ensures Scale(-1.0, Scale(-1.0, x)) == x
  {
  }

  class Allocator {
    var healthy: seq<bool>

    ghost predicate Valid()
      reads this
    {
      |healthy| == 4
    }

    constructor ()
      ensures Valid() && healthy == [true, true, true, true]
    {
      healthy := [true, true, true, true];
    }

    method SetWheelHealth(index: nat, status: bool)
      requires Valid()
      modifies this
      ensures Valid()
      ensures healthy == if index < 4 then old(healthy)[index := status] else old(healthy)
    {
      if index < |healthy| {
        if healthy[index] != status {
          healthy := healthy[index := status];
        }
      }
    }

    method GetWheelHealth(index: nat) returns (status: bool)
      requires Valid()
      ensures status <==> index < 4 && healthy[index]
    {
      if index < |healthy| {
        return healthy[index];
      }
      return false;
    }

    /** Succeeds exactly when at least three wheels are healthy. */
    method Allocate(torque: Vec3) returns (ok: bool, torques: seq<real>)
      requires Valid()
      ensures |torques| == 4
      ensures ok <==> HealthyCount(healthy) >= 3
      ensures ok ==> Inverse3.Det(Gram(healthy)) != 0.0 && torques == Command(healthy, torque)
      ensures !ok ==> torques == Zeros(4)
    {
      torques := Zeros(4);
      var A: Matrix := [Zeros(4), Zeros(4), Zeros(4)];
      for i := 0 to 4
        invariant |A| == 3 && |A[0]| == |A[1]| == |A[2]| == 4
        invariant forall j :: 0 <= j < 4 ==> A[0][j] == if j < i && healthy[j] then Nominal()[0][j] else 0.0
        invariant forall j :: 0 <= j < 4 ==> A[1][j] == if j < i && healthy[j] then Nominal()[1][j] else 0.0
        invariant forall j :: 0 <= j < 4 ==> A[2][j] == if j < i && healthy[j] then Nominal()[2][j] else 0.0
      {
        if healthy[i] {
          A := [A[0][i := Nominal()[0][i]], A[1][i := Nominal()[1][i]], A[2][i := Nominal()[2][i]]];
        }
      }
      SameMatrix(A, healthy);
      var AAT := Mul(A, Transpose(A));
      var det := Inverse3.Det(AAT);
      RankTest(healthy);
      if (if det < 0.0 then -det else det) < DET_THRESHOLD {
        return false, torques;
      }
      var u := Apply(Mul(ScaleM(-1.0, Transpose(A)), Inverse3.Inverse(AAT)), ToVec(torque));
      CommandIsIdle(healthy, torque);
      for i := 0 to 4
        invariant |torques| == 4
        invariant forall j :: 0 <= j < i ==> torques[j] == u[j]
      {
        if healthy[i] {
          torques := torques[i := u[i]];
        } else {
          torques := torques[i := 0.0];
        }
      }
      return true, torques;
    }
  }

  lemma SameMatrix(A: Matrix, healthy: seq<bool>)
    requires |healthy| == 4 && |A| == 3 && |A[0]| == |A[1]| == |A[2]| == 4
    requires forall r, j :: 0 <= r < 3 && 0 <= j < 4 ==> A[r][j] == if healthy[j] then Nominal()[r][j] else 0.0
    ensures A == Distribution(healthy)
  {
    forall r | 0 <= r < 3 ensures A[r] == Distribution(healthy)[r] {
    }
  }
}
