/** What a star tracker measurement does to attitude and bias: the whole correction is the posterior estimate
    of the two errors, given the covariance before it and the noise of the measurement. */
module Posterior {
  import opened LinearAlgebra
  import opened DefiniteCovariance
  import opened Mekf
  import opened Quaternions
  import opened Reals
  import opened Vectors3
  import Inverse3
  import Kalman

  function Flat(v: Vec3): (r: Vec)
    ensures |r| == 3
  {
    [v.x, v.y, v.z]
  }

  /** What the error (theta, beta) costs: the square of the part z - theta of the measured error that it does
      not explain, weighed by V, and its own square, weighed by M. */
  function Cost(M: Matrix, V: Matrix, z: Vec3, theta: Vec3, beta: Vec3): real
    requires Shape(M, 6, 6) && Shape(V, 3, 3)
  {
    Form(V, Flat(z.Minus(theta)), Flat(z.Minus(theta))) + Form(M, Stacked(theta, beta), Stacked(theta, beta))
  }

  // ---------- The observation matrix ----------

  lemma Observed(theta: Vec3, beta: Vec3)
    ensures Apply(Observation(), Stacked(theta, beta)) == Flat(theta)
  {
    forall i | 0 <= i < 3 ensures Apply(Observation(), Stacked(theta, beta))[i] == Flat(theta)[i] {
      Dot6(Observation()[i], Stacked(theta, beta));
    }
  }

  lemma ObservedBack(w: Vec3)
    ensures Apply(Transpose(Observation()), Flat(w)) == Stacked(w, ZERO3)
  {
    var b := Apply(Transpose(Observation()), Flat(w));
    forall y: Vec | |y| == 6 ensures Dot(y, b) == Dot(y, Stacked(w, ZERO3)) {
      var theta, beta := Parts(y);
      Kalman.AdjointRight(Transpose(Observation()), Flat(w), y);
      Adjoint(Observation(), Flat(w), y);
      DotSymmetric(y, b);
      Observed(theta, beta);
      Inverse3.Dot3(Flat(w), Flat(theta));
      Dot6(y, Stacked(w, ZERO3));
    }
    DotDetermines(b, Stacked(w, ZERO3));
  }

  lemma Parts(x: Vec) returns (theta: Vec3, beta: Vec3)
    requires |x| == 6
    ensures x == Stacked(theta, beta)
  {
    theta, beta := Vec3(x[0], x[1], x[2]), Vec3(x[3], x[4], x[5]);
  }

  lemma FlatMinus(a: Vec3, b: Vec3)
    ensures Minus(Flat(a), Flat(b)) == Flat(a.Minus(b))
  {
  }

  lemma CostIsCost(M: Matrix, V: Matrix, z: Vec3, theta: Vec3, beta: Vec3)
    requires Shape(M, 6, 6) && Shape(V, 3, 3)
    ensures Kalman.Cost(Observation(), V, M, Flat(z), Stacked(theta, beta)) == Cost(M, V, z, theta, beta)
  {
    Observed(theta, beta);
    FlatMinus(z, theta);
  }

  // ---------- The measurement update ----------

  /** The two halves of the correction, as the state shows them. */
  lemma CorrectionShows(s: Estimate, measured: Quat, R: Matrix, sqrt: real -> real) returns (theta: Vec3)
    requires IsSqrt(sqrt) && Shape(s.P, 6, 6) && Shape(R, 3, 3)
    requires Inverse3.Det(InnovationCovariance(s.P, R)) != 0.0
    ensures var t := UpdateQuat(s, measured, R, sqrt);
            && t.q == Rotated(s.q, theta, sqrt)
            && Stacked(theta, t.beta.Minus(s.beta)) == Apply(Gain(s.P, R), Flat(Innovation(s.q, measured)))
  {
    var dx := Correction(s, measured, R);
    theta := Vec3(dx[0], dx[1], dx[2]);
    SumLess(s.beta, Vec3(dx[3], dx[4], dx[5]));
  }

  lemma SumLess(a: Vec3, b: Vec3)
    ensures a.Plus(b).Minus(a) == b
  {
  }

  lemma FirstHalf(x: Vec, theta: Vec3, beta: Vec3)
    requires x == Stacked(theta, beta)
    ensures x[..3] == Flat(theta)
  {
  }

  lemma WeightedInnovation(P: Matrix, R: Matrix, w: Vec3)
    requires Shape(P, 6, 6) && Shape(R, 3, 3)
    ensures Apply(InnovationCovariance(P, R), Flat(w))
         == Plus(Apply(P, Stacked(w, ZERO3))[..3], Apply(R, Flat(w)))
  {
    hide Apply, Stacked, Transpose;
    Kalman.InnovationAction(P, Observation(), R, Flat(w));
    ObservedBack(w);
    var b := Apply(P, Stacked(w, ZERO3));
    var theta, beta := Parts(b);
    Observed(theta, beta);
    FirstHalf(b, theta, beta);
  }

  /** Without any inverse: when w weighs the innovation z, that is (H P H^T + R) w = z, the attitude error
      and the bias error found are the column of the covariance that w selects. */
  lemma MeasurementWeighs(s: Estimate, measured: Quat, R: Matrix, sqrt: real -> real, w: Vec3)
    returns (theta: Vec3)
    requires IsSqrt(sqrt) && Sound(s) && PosDef(R, 3)
    requires Plus(Apply(s.P, Stacked(w, ZERO3))[..3], Apply(R, Flat(w))) == Flat(Innovation(s.q, measured))
    ensures Inverse3.Det(InnovationCovariance(s.P, R)) > 0.0
    ensures var t := UpdateQuat(s, measured, R, sqrt);
            && t.q == Rotated(s.q, theta, sqrt)
            && Stacked(theta, t.beta.Minus(s.beta)) == Apply(s.P, Stacked(w, ZERO3))
  {
    hide Apply, Stacked, Innovation, UpdateQuat, Gain, Inverse3.Det, Rotated, InnovationCovariance;
    InnovationInvertible(s.P, R);
    theta := CorrectionShows(s, measured, R, sqrt);
    WeightedInnovation(s.P, R, w);
    ObservedBack(w);
    GainOfWeights(s.P, R, Flat(w));
  }

  lemma GainOfWeights(P: Matrix, R: Matrix, w: Vec)
    requires Psd(P, 6) && PosDef(R, 3) && Inverse3.Det(InnovationCovariance(P, R)) != 0.0 && |w| == 3
    ensures Apply(Gain(P, R), Apply(InnovationCovariance(P, R), w))
         == Apply(P, Apply(Transpose(Observation()), w))
  {
    var S := InnovationCovariance(P, R);
    InverseIsLeftInverse(S);
    Kalman.CorrectionOfWeights(P, Observation(), R, Inverse3.Inverse(S), w);
  }

  /** The weights that the innovation has. */
  lemma WeightsExist(P: Matrix, R: Matrix, z: Vec3) returns (w: Vec3)
    requires Shape(P, 6, 6) && Shape(R, 3, 3) && Inverse3.Det(InnovationCovariance(P, R)) != 0.0
    ensures Apply(InnovationCovariance(P, R), Flat(w)) == Flat(z)
  {
    var S := InnovationCovariance(P, R);
    var v := Apply(Inverse3.Inverse(S), Flat(z));
    Inverse3.InverseAction(S, Flat(z));
    w := Vec3(v[0], v[1], v[2]);
    assert Flat(w) == v;
  }

  /** What the measurement changes in attitude and bias is the posterior estimate of the two errors: of all
      attitude errors a and bias errors b it alone has the least cost, for M and V the inverses of the
      covariance before the measurement and of its noise. */
  lemma MeasurementIsPosterior(s: Estimate, measured: Quat, R: Matrix, sqrt: real -> real, M: Matrix, V: Matrix)
    returns (theta: Vec3)
    requires IsSqrt(sqrt) && Sound(s) && PosDef(s.P, 6) && PosDef(R, 3)
    requires Kalman.RightInverse(M, s.P, 6) && Kalman.RightInverse(V, R, 3)
    ensures Inverse3.Det(InnovationCovariance(s.P, R)) > 0.0
    ensures var t, z := UpdateQuat(s, measured, R, sqrt), Innovation(s.q, measured);
            && t.q == Rotated(s.q, theta, sqrt)
            && forall a: Vec3, b: Vec3 {:trigger Cost(M, V, z, a, b)} ::
                 a != theta || b != t.beta.Minus(s.beta) ==>
                   Cost(M, V, z, theta, t.beta.Minus(s.beta)) < Cost(M, V, z, a, b)
  {
    hide Apply, Cost, Innovation, UpdateQuat, Gain, Inverse3.Det, Rotated, InnovationCovariance, Kalman.Cost;
    InnovationInvertible(s.P, R);
    theta := CorrectionShows(s, measured, R, sqrt);
    var z, beta := Innovation(s.q, measured), UpdateQuat(s, measured, R, sqrt).beta.Minus(s.beta);
    var w := WeightsExist(s.P, R, z);
    forall a: Vec3, b: Vec3 {:trigger Cost(M, V, z, a, b)} | a != theta || b != beta
      ensures Cost(M, V, z, theta, beta) < Cost(M, V, z, a, b)
    {
      CheapestCorrection(s.P, R, M, V, z, w, Stacked(theta, beta), Stacked(a, b));
      StackedApart(theta, beta, a, b);
      CostIsCost(M, V, z, theta, beta);
      CostIsCost(M, V, z, a, b);
    }
  }

  lemma StackedApart(a: Vec3, b: Vec3, c: Vec3, d: Vec3)
    ensures Stacked(a, b) == Stacked(c, d) ==> a == c && b == d
  {
    var x, y := Stacked(a, b), Stacked(c, d);
    if x == y {
      assert x[0] == y[0] && x[1] == y[1] && x[2] == y[2] && x[3] == y[3] && x[4] == y[4] && x[5] == y[5];
    }
  }

  lemma CheapestCorrection(P: Matrix, R: Matrix, M: Matrix, V: Matrix, z: Vec3, w: Vec3, dx: Vec, x: Vec)
    requires PosDef(P, 6) && PosDef(R, 3) && |dx| == |x| == 6
    requires Inverse3.Det(InnovationCovariance(P, R)) != 0.0 && dx == Apply(Gain(P, R), Flat(z))
    requires Apply(InnovationCovariance(P, R), Flat(w)) == Flat(z)
    requires Kalman.RightInverse(M, P, 6) && Kalman.RightInverse(V, R, 3)
    ensures x != dx ==> Kalman.Cost(Observation(), V, M, Flat(z), dx) < Kalman.Cost(Observation(), V, M, Flat(z), x)
  {
    hide Apply, Kalman.Cost, Inverse3.Det;
    var S := InnovationCovariance(P, R);
    InverseIsLeftInverse(S);
    Kalman.CorrectionIsPosterior(P, Observation(), R, Inverse3.Inverse(S), M, V, Flat(w), x);
  }

  // ---------- The first cycle ----------

  lemma RestMoves(a: Vec3, b: Vec3, dt: real)
    ensures a.Plus(ZERO3.Cross(a).Scaled(-1.0).Minus(b).Scaled(dt)) == a.Minus(b.Scaled(dt))
  {
  }

  lemma ProductWithMoved(a: Vec3, b: Vec3, w: Vec3, dt: real)
    ensures a.Minus(b.Scaled(dt)).Dot(w) + b.Dot(ZERO3) == a.Dot(w) + b.Dot(w.Scaled(-dt))
  {
    hide Vec3.Dot;
    MovedComponent(a.x, b.x, w.x, dt);
    MovedComponent(a.y, b.y, w.y, dt);
    MovedComponent(a.z, b.z, w.z, dt);
    DotIsTimes(a.Minus(b.Scaled(dt)), w);
    DotIsTimes(a, w);
    DotIsTimes(b, ZERO3);
    DotIsTimes(b, w.Scaled(-dt));
  }

  lemma MovedComponent(a: real, b: real, w: real, dt: real)
    ensures Times(a - dt * b, w) == Times(a, w) + Times(b, -dt * w)
    ensures Times(b, 0.0) == 0.0
  {
  }

  /** At rest the transposed transition takes (w, 0) to (w, -w dt). */
  lemma TransposedAtRest(w: Vec3, dt: real)
    ensures Apply(Transpose(Transition(ZERO3, dt)), Stacked(w, ZERO3)) == Stacked(w, w.Scaled(-dt))
  {
    var Phi, x, r := Transition(ZERO3, dt), Stacked(w, ZERO3), Stacked(w, w.Scaled(-dt));
    hide Apply, Transpose, Transition, Dot, Stacked, Vec3.Dot, Vec3.Cross, Vec3.Plus, Vec3.Minus, Vec3.Scaled;
    forall y: Vec | |y| == 6 ensures Dot(y, Apply(Transpose(Phi), x)) == Dot(y, r) {
      var a, b := Parts(y);
      Kalman.AdjointRight(Phi, y, x);
      TransitionAction(ZERO3, dt, a, b);
      RestMoves(a, b, dt);
      StackedDot(a.Minus(b.Scaled(dt)), b, w, ZERO3);
      StackedDot(a, b, w, w.Scaled(-dt));
      ProductWithMoved(a, b, w, dt);
    }
    DotDetermines(Apply(Transpose(Phi), x), r);
  }

  lemma RestNumbers(w: Vec3, dt: real, k: real)
    ensures Plus(Stacked(w.Minus(w.Scaled(-dt).Scaled(dt)), w.Scaled(-dt)), Scale(k, Stacked(w, ZERO3)))
         == Stacked(w.Scaled(1.0 + dt * dt + k), w.Scaled(-dt))
  {
    hide Stacked, Plus, Scale, Vec3.Scaled, Times;
    var a, b := 1.0 + dt * dt + k, w.Scaled(-dt);
    ScaledByTimes(w, -dt);
    ScaledByTimes(b, dt);
    ScaledByTimes(w, a);
    RestNumber(w.x, dt, k, a, b.x);
    RestNumber(w.y, dt, k, a, b.y);
    RestNumber(w.z, dt, k, a, b.z);
    SumOfStacks(w.Minus(b.Scaled(dt)), b, k, w);
  }

  lemma SumOfStacks(a: Vec3, b: Vec3, k: real, w: Vec3)
    ensures Plus(Stacked(a, b), Scale(k, Stacked(w, ZERO3)))
         == Stacked(Vec3(a.x + Times(k, w.x), a.y + Times(k, w.y), a.z + Times(k, w.z)), b)
  {
    var l := Plus(Stacked(a, b), Scale(k, Stacked(w, ZERO3)));
    var r := Stacked(Vec3(a.x + Times(k, w.x), a.y + Times(k, w.y), a.z + Times(k, w.z)), b);
    forall i | 0 <= i < 6 ensures l[i] == r[i] {
    }
  }

  lemma RestNumber(w: real, dt: real, k: real, a: real, b: real)
    requires a == 1.0 + dt * dt + k && b == Times(-dt, w)
    ensures w - Times(dt, b) + Times(k, w) == Times(a, w)
  {
    assert dt * b == -(dt * dt) * w;
  }

  lemma ScaledByTimes(w: Vec3, a: real)
    ensures w.Scaled(a) == Vec3(Times(a, w.x), Times(a, w.y), Times(a, w.z))
  {
  }

  /** The covariance that one prediction at rest makes of the identity. */
  lemma CovarianceAtRest(w: Vec3, dt: real, k: real)
    ensures Apply(PredictedCovariance(Identity(6), ZERO3, dt, ScaleM(k, Identity(6))), Stacked(w, ZERO3))
         == Stacked(w.Scaled(1.0 + dt * dt + k), w.Scaled(-dt))
  {
    var Phi, x, I, Q := Transition(ZERO3, dt), Stacked(w, ZERO3), Identity(6), ScaleM(k, Identity(6));
    hide Apply, Transpose, Transition, Mul, Add, Identity, Stacked, ScaleM, Scale, Plus;
    hide Vec3.Cross, Vec3.Plus, Vec3.Minus, Vec3.Scaled;
    ApplyAdd(Mul(Mul(Phi, I), Transpose(Phi)), Q, x);
    ApplyMul(Mul(Phi, I), Transpose(Phi), x);
    TransposedAtRest(w, dt);
    ApplyMul(Phi, I, Stacked(w, w.Scaled(-dt)));
    ApplyIdentity(Stacked(w, w.Scaled(-dt)));
    TransitionAction(ZERO3, dt, w, w.Scaled(-dt));
    RestMoves(w, w.Scaled(-dt), dt);
    ApplyScaleM(k, I, x);
    ApplyIdentity(x);
    RestNumbers(w, dt, k);
  }

  lemma StillAtRest(dt: real, Q: Matrix, sqrt: real -> real)
    requires IsSqrt(sqrt) && Shape(Q, 6, 6)
    ensures Predict(Initial(), ZERO3, dt, Q, sqrt)
         == Initial().(P := PredictedCovariance(Identity(6), ZERO3, dt, Q))
  {
    hide Identity, PredictedCovariance, IsSqrt;
    StepAtRest(dt);
    NormalizedUnit(IDENTITY, sqrt);
  }

  lemma StepAtRest(dt: real)
    ensures ZERO3.Minus(ZERO3) == ZERO3 && EulerStep(IDENTITY, ZERO3, dt) == IDENTITY && IDENTITY.IsUnit()
  {
  }

  lemma WeightsAtRest(P: Matrix, r: real, w: Vec3, a: real, b: Vec3)
    requires Shape(P, 6, 6) && Apply(P, Stacked(w, ZERO3)) == Stacked(w.Scaled(a), b)
    ensures Plus(Apply(P, Stacked(w, ZERO3))[..3], Apply(ScaleM(r, Identity(3)), Flat(w))) == Flat(w.Scaled(a + r))
  {
    hide Apply, Identity, ScaleM;
    ApplyScaleM(r, Identity(3), Flat(w));
    ApplyIdentity(Flat(w));
    FirstHalf(Stacked(w.Scaled(a), b), w.Scaled(a), b);
    var l, s := Plus(Flat(w.Scaled(a)), Scale(r, Flat(w))), Flat(w.Scaled(a + r));
    forall i | 0 <= i < 3 ensures l[i] == s[i] {
    }
  }

  lemma RestDivisor(dt: real, k: real, r: real)
    requires k > 0.0 && r > 0.0
    ensures 1.0 + dt * dt + k + r > 0.0
  {
    assert Square(dt) >= 0.0;
  }

  /** A correction that starts from a covariance which takes (w, 0) to (w a, b). */
  lemma CorrectionFrom(s: Estimate, R: Matrix, measured: Quat, sqrt: real -> real, w: Vec3, a: real, b: Vec3, r: real)
    requires IsSqrt(sqrt) && Sound(s) && PosDef(R, 3) && R == ScaleM(r, Identity(3))
    requires Apply(s.P, Stacked(w, ZERO3)) == Stacked(w.Scaled(a), b)
    requires w.Scaled(a + r) == Innovation(s.q, measured)
    ensures Inverse3.Det(InnovationCovariance(s.P, R)) > 0.0
    ensures var t := UpdateQuat(s, measured, R, sqrt);
            t.beta.Minus(s.beta) == b && t.q == Rotated(s.q, w.Scaled(a), sqrt)
  {
    hide Apply, Stacked, Innovation, UpdateQuat, Inverse3.Det, Rotated, InnovationCovariance, Identity, ScaleM;
    hide Vec3.Scaled, Vec3.Minus;
    WeightsAtRest(s.P, r, w, a, b);
    var theta := MeasurementWeighs(s, measured, R, sqrt, w);
    StackedApart(theta, UpdateQuat(s, measured, R, sqrt).beta.Minus(s.beta), w.Scaled(a), b);
  }

  lemma WeightOf(z: Vec3, c: real) returns (w: Vec3)
    requires c > 0.0
    ensures w.Scaled(c) == z
  {
    w := Vec3(z.x / c, z.y / c, z.z / c);
  }

  lemma ScalesCommute(w: Vec3, a: real, c: real)
    ensures w.Scaled(a).Scaled(c) == w.Scaled(c).Scaled(a)
  {
  }

  /** The first correction of a fresh filter at rest, for process noise k I and measurement noise r I. */
  lemma FirstCorrection(measured: Quat, dt: real, k: real, r: real, Q: Matrix, R: Matrix, sqrt: real -> real)
    returns (theta: Vec3, a: real, c: real)
    requires IsSqrt(sqrt) && k > 0.0 && r > 0.0 && Q == ScaleM(k, Identity(6)) && R == ScaleM(r, Identity(3))
    ensures var s := Predict(Initial(), ZERO3, dt, Q, sqrt);
            && Sound(s) && Inverse3.Det(InnovationCovariance(s.P, R)) > 0.0
            && UpdateQuat(s, measured, R, sqrt).q == Rotated(IDENTITY, theta, sqrt)
            && theta.Scaled(c) == Innovation(IDENTITY, measured).Scaled(a)
            && UpdateQuat(s, measured, R, sqrt).beta.Scaled(c) == Innovation(IDENTITY, measured).Scaled(-dt)
    ensures a == 1.0 + dt * dt + k && c == a + r && c > 0.0
  {
    hide Apply, Stacked, Innovation, UpdateQuat, Inverse3.Det, Rotated, InnovationCovariance, Predict, Identity, ScaleM;
    hide PredictedCovariance, Vec3.Scaled, Vec3.Minus, Sound;
    var s, z := Predict(Initial(), ZERO3, dt, Q, sqrt), Innovation(IDENTITY, measured);
    a := 1.0 + dt * dt + k;
    c := a + r;
    InitialSound();
    ScaledIdentityPosDef(k, 6);
    PosDefIsPsd(Q, 6);
    ScaledIdentityPosDef(r, 3);
    PredictKeepsSound(Initial(), ZERO3, dt, Q, sqrt);
    StillAtRest(dt, Q, sqrt);
    RestDivisor(dt, k, r);
    var w := WeightOf(z, c);
    CovarianceAtRest(w, dt, k);
    CorrectionFrom(s, R, measured, sqrt, w, a, w.Scaled(-dt), r);
    theta := w.Scaled(a);
    ScalesCommute(w, a, c);
    ScalesCommute(w, -dt, c);
    LessNothing(UpdateQuat(s, measured, R, sqrt).beta);
  }

  lemma LessNothing(v: Vec3)
    ensures v.Minus(ZERO3) == v
  {
  }

  /** A cycle predicts, corrects, and takes the corrected bias from the gyro reading. */
  lemma CycleShows(s: Estimate, rate: Vec3, measured: Quat, dt: real, sqrt: real -> real)
    requires IsSqrt(sqrt) && Defined(s, Sensors(rate, measured, dt))
    ensures var u := Predict(s, rate, dt, ProcessNoise(), sqrt);
            && Inverse3.Det(InnovationCovariance(u.P, MeasurementNoise())) != 0.0
            && Step(s, Sensors(rate, measured, dt), sqrt).q == UpdateQuat(u, measured, MeasurementNoise(), sqrt).q
            && Step(s, Sensors(rate, measured, dt), sqrt).beta
               == UpdateQuat(u, measured, MeasurementNoise(), sqrt).beta
            && Step(s, Sensors(rate, measured, dt), sqrt).w
               == rate.Minus(UpdateQuat(u, measured, MeasurementNoise(), sqrt).beta)
  {
    hide UpdateQuat, Inverse3.Det, InnovationCovariance, PredictedCovariance, Vec3.Minus;
  }

  /** The first cycle of a fresh filter at rest, in numbers: with z the measured error, a = 1 + dt^2 + 10^-7 and
      c = a + 10^-4, the bias becomes -z dt / c, the net rate its opposite, and the attitude is turned by
      z a / c. */
  lemma FirstCycle(measured: Quat, dt: real, sqrt: real -> real)
    returns (theta: Vec3, beta: Vec3, z: Vec3, a: real, c: real)
    requires IsSqrt(sqrt)
    ensures c > 0.0 && beta.Scaled(c) == z.Scaled(-dt) && theta.Scaled(c) == z.Scaled(a)
    ensures z == Innovation(IDENTITY, measured)
    ensures Defined(Initial(), Sensors(ZERO3, measured, dt))
    ensures Step(Initial(), Sensors(ZERO3, measured, dt), sqrt).beta == beta
    ensures Step(Initial(), Sensors(ZERO3, measured, dt), sqrt).w == beta.Scaled(-1.0)
    ensures Step(Initial(), Sensors(ZERO3, measured, dt), sqrt).q == Rotated(IDENTITY, theta, sqrt)
    ensures a == 1.0 + dt * dt + 0.0000001 && c == a + 0.0001
  {
    hide UpdateQuat, Inverse3.Det, Rotated, InnovationCovariance, Predict, Identity, ScaleM, Innovation, IsSqrt;
    hide PredictedCovariance, Vec3.Scaled, Vec3.Minus, Sound, ProcessNoise, MeasurementNoise, Step, Cycle, Defined;
    z := Innovation(IDENTITY, measured);
    InitialSound();
    StepKeepsSound(Initial(), Sensors(ZERO3, measured, dt), sqrt);
    CycleShows(Initial(), ZERO3, measured, dt, sqrt);
    NominalNoises();
    theta, a, c := FirstCorrection(measured, dt, 0.0000001, 0.0001, ProcessNoise(), MeasurementNoise(), sqrt);
    beta := Step(Initial(), Sensors(ZERO3, measured, dt), sqrt).beta;
    StepAtRest(dt);
    Opposite(beta);
  }

  lemma NominalNoises()
    ensures ProcessNoise() == ScaleM(0.0000001, Identity(6)) && MeasurementNoise() == ScaleM(0.0001, Identity(3))
  {
  }

  lemma Opposite(v: Vec3)
    ensures ZERO3.Minus(v) == v.Scaled(-1.0)
  {
  }
}
