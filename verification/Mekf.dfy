/** The multiplicative extended Kalman filter for attitude and gyro bias. */
module Mekf {
  import opened LinearAlgebra
  import opened Vectors3
  import opened Quaternions
  import Inverse3
  import Kalman
  import Reals

  /** The estimate: attitude, gyro bias, net rate, and the 6 by 6 error covariance. */
  datatype Estimate = Estimate(q: Quat, beta: Vec3, w: Vec3, P: Matrix)

  /** What every public operation keeps: a unit attitude and a semidefinite covariance. */
  ghost predicate Sound(s: Estimate) {
    s.q.IsUnit() && Psd(s.P, 6)
  }

  function Initial(): Estimate {
    Estimate(IDENTITY, ZERO3, ZERO3, Identity(6))
  }

  // ---------- Prediction ----------

  /** The matrix F of the prediction, [-[omega x]  -I; 0  0]. */
  function Dynamics(omega: Vec3): (F: Matrix)
    ensures Shape(F, 6, 6)
  {
    [[0.0, omega.z, -omega.y, -1.0, 0.0, 0.0],
     [-omega.z, 0.0, omega.x, 0.0, -1.0, 0.0],
     [omega.y, -omega.x, 0.0, 0.0, 0.0, -1.0],
     [0.0, 0.0, 0.0, 0.0, 0.0, 0.0],
     [0.0, 0.0, 0.0, 0.0, 0.0, 0.0],
     [0.0, 0.0, 0.0, 0.0, 0.0, 0.0]]
  }

  /** The discrete transition matrix I + F dt. */
  function Transition(omega: Vec3, dt: real): (Phi: Matrix)
    ensures Shape(Phi, 6, 6)
  {
    Add(Identity(6), ScaleM(dt, Dynamics(omega)))
  }

  function PredictedCovariance(P: Matrix, omega: Vec3, dt: real, Q: Matrix): (r: Matrix)
    requires Shape(P, 6, 6) && Shape(Q, 6, 6)
    ensures Shape(r, 6, 6)
  {
    var Phi := Transition(omega, dt);
    Add(Mul(Mul(Phi, P), Transpose(Phi)), Q)
  }

  function Predict(s: Estimate, gyro: Vec3, dt: real, Q: Matrix, sqrt: real -> real): Estimate
    requires IsSqrt(sqrt) && Shape(s.P, 6, 6) && Shape(Q, 6, 6)
  {
    var omega := gyro.Minus(s.beta);
    s.(q := EulerStep(s.q, omega, dt).Normalized(sqrt), P := PredictedCovariance(s.P, omega, dt, Q))
  }

  // ---------- Measurement update ----------

  /** The observation matrix [I 0]. */
  function Observation(): (H: Matrix)
    ensures Shape(H, 3, 6)
  {
    [[1.0, 0.0, 0.0, 0.0, 0.0, 0.0],
     [0.0, 1.0, 0.0, 0.0, 0.0, 0.0],
     [0.0, 0.0, 1.0, 0.0, 0.0, 0.0]]
  }

  /** Twice the vector part, negated when the scalar part is negative. */
  function ShortPath(dq: Quat): Vec3 {
    if dq.w < 0.0 then dq.Vector().Scaled(2.0).Scaled(-1.0) else dq.Vector().Scaled(2.0)
  }

  /** The measurement residual, from the rotation between estimate and measurement. */
  function Innovation(q: Quat, measured: Quat): Vec3 {
    ShortPath(measured.Times(q.Inverse()))
  }

  function InnovationCovariance(P: Matrix, R: Matrix): (S: Matrix)
    requires Shape(P, 6, 6) && Shape(R, 3, 3)
    ensures Shape(S, 3, 3)
  {
    Kalman.InnovationCovariance(P, Observation(), R)
  }

  function Gain(P: Matrix, R: Matrix): (K: Matrix)
    requires Shape(P, 6, 6) && Shape(R, 3, 3) && Inverse3.Det(InnovationCovariance(P, R)) != 0.0
    ensures Shape(K, 6, 3)
  {
    Kalman.Gain(P, Observation(), Inverse3.Inverse(InnovationCovariance(P, R)))
  }

  /** The correction (d_theta, d_beta) stacked in one vector. */
  function Correction(s: Estimate, measured: Quat, R: Matrix): (dx: Vec)
    requires Shape(s.P, 6, 6) && Shape(R, 3, 3) && Inverse3.Det(InnovationCovariance(s.P, R)) != 0.0
    ensures |dx| == 6
  {
    var z := Innovation(s.q, measured);
    Apply(Gain(s.P, R), [z.x, z.y, z.z])
  }

  /** The normalised small rotation by theta, applied on the left of q. */
  function Rotated(q: Quat, theta: Vec3, sqrt: real -> real): Quat
    requires IsSqrt(sqrt)
  {
    SmallRotation(theta).Normalized(sqrt).Times(q).Normalized(sqrt)
  }

  function UpdateQuat(s: Estimate, measured: Quat, R: Matrix, sqrt: real -> real): Estimate
    requires IsSqrt(sqrt) && Shape(s.P, 6, 6) && Shape(R, 3, 3)
    requires Inverse3.Det(InnovationCovariance(s.P, R)) != 0.0
  {
    var dx := Correction(s, measured, R);
    s.(q := Rotated(s.q, Vec3(dx[0], dx[1], dx[2]), sqrt),
       beta := s.beta.Plus(Vec3(dx[3], dx[4], dx[5])),
       P := Kalman.Joseph(s.P, Observation(), R, Gain(s.P, R)))
  }

  /** The innovation covariance is positive definite, so its inverse exists. */
  lemma InnovationInvertible(P: Matrix, R: Matrix)
    requires Psd(P, 6) && PosDef(R, 3)
    ensures PosDef(InnovationCovariance(P, R), 3)
    ensures Inverse3.Det(InnovationCovariance(P, R)) > 0.0
  {
    Kalman.InnovationPosDef(P, Observation(), R);
    Inverse3.PosDefInvertible(InnovationCovariance(P, R));
  }

  lemma InverseIsLeftInverse(S: Matrix)
    requires Shape(S, 3, 3) && Inverse3.Det(S) != 0.0
    ensures Kalman.LeftInverse(Inverse3.Inverse(S), S, 3)
  {
    forall y: Vec {:trigger Apply(S, y)} | |y| == 3 ensures Apply(Inverse3.Inverse(S), Apply(S, y)) == y {
      Inverse3.InverseAction(S, y);
    }
  }

  // ---------- The covariance stays semidefinite ----------

  lemma PredictKeepsSound(s: Estimate, gyro: Vec3, dt: real, Q: Matrix, sqrt: real -> real)
    requires IsSqrt(sqrt) && Sound(s) && Psd(Q, 6)
    ensures Sound(Predict(s, gyro, dt, Q, sqrt))
    ensures sqrt(EulerStep(s.q, gyro.Minus(s.beta), dt).NormSq()) >= 1.0
  {
    var omega := gyro.Minus(s.beta);
    var Phi := Transition(omega, dt);
    CongruencePsd(Phi, s.P, 6);
    AddPsd(Mul(Mul(Phi, s.P), Transpose(Phi)), Q, 6);
    NormOfEulerStep(s.q, omega, dt);
    NormalizedIsUnit(EulerStep(s.q, omega, dt), sqrt);
    RootAtLeastOne(EulerStep(s.q, omega, dt).NormSq(), sqrt);
  }

  lemma JosephPsd(P: Matrix, R: Matrix, K: Matrix)
    requires Psd(P, 6) && Psd(R, 3) && Shape(K, 6, 3)
    ensures Psd(Kalman.Joseph(P, Observation(), R, K), 6)
  {
    var A := Kalman.Residual(K, Observation());
    CongruencePsd(A, P, 6);
    CongruencePsd(K, R, 6);
    AddPsd(Mul(Mul(A, P), Transpose(A)), Mul(Mul(K, R), Transpose(K)), 6);
  }

  /** Both normalisations divide by at least 1, and the second changes nothing. */
  lemma RotatedIsUnit(q: Quat, theta: Vec3, sqrt: real -> real)
    requires IsSqrt(sqrt) && q.IsUnit()
    ensures sqrt(SmallRotation(theta).NormSq()) >= 1.0
    ensures Rotated(q, theta, sqrt) == SmallRotation(theta).Normalized(sqrt).Times(q)
    ensures Rotated(q, theta, sqrt).IsUnit()
  {
    var dq := SmallRotation(theta);
    NormOfSmallRotation(theta);
    RootAtLeastOne(dq.NormSq(), sqrt);
    NormalizedIsUnit(dq, sqrt);
    NormOfProduct(dq.Normalized(sqrt), q);
    NormalizedUnit(dq.Normalized(sqrt).Times(q), sqrt);
  }

  lemma UpdateKeepsSound(s: Estimate, measured: Quat, R: Matrix, sqrt: real -> real)
    requires IsSqrt(sqrt) && Sound(s) && PosDef(R, 3)
    ensures Inverse3.Det(InnovationCovariance(s.P, R)) > 0.0
    ensures Sound(UpdateQuat(s, measured, R, sqrt))
  {
    InnovationInvertible(s.P, R);
    PosDefIsPsd(R, 3);
    JosephPsd(s.P, R, Gain(s.P, R));
    var dx := Correction(s, measured, R);
    RotatedIsUnit(s.q, Vec3(dx[0], dx[1], dx[2]), sqrt);
  }

  lemma InitialSound()
    ensures Sound(Initial())
  {
    IdentityPsd(6);
  }

  lemma IdentityPsd(n: nat)
    requires n > 0
    ensures Psd(Identity(n), n)
  {
    forall x: Vec {:trigger Form(Identity(n), x, x)} | |x| == n ensures Form(Identity(n), x, x) >= 0.0 {
      ApplyIdentity(x);
      NormSqNonNegative(x);
    }
  }

  // ---------- What a measurement does to the covariance ----------

  /** The covariance after the update is P - K S K^T, and it is (I - K H) P. */
  lemma UpdatedCovariance(s: Estimate, measured: Quat, R: Matrix, sqrt: real -> real)
    requires IsSqrt(sqrt) && Psd(s.P, 6) && PosDef(R, 3)
    ensures Inverse3.Det(InnovationCovariance(s.P, R)) > 0.0
    ensures UpdateQuat(s, measured, R, sqrt).P == Kalman.Reduced(s.P, Observation(), R, Gain(s.P, R))
    ensures UpdateQuat(s, measured, R, sqrt).P == Kalman.ShortForm(s.P, Observation(), Gain(s.P, R))
  {
    InnovationInvertible(s.P, R);
    var S := InnovationCovariance(s.P, R);
    InverseIsLeftInverse(S);
    Kalman.JosephCollapses(s.P, Observation(), R, Inverse3.Inverse(S), Gain(s.P, R));
  }

  /** A measurement never increases the variance of any linear combination x of the errors, and no
      other gain L would have left less. */
  lemma UpdateIsOptimal(s: Estimate, measured: Quat, R: Matrix, sqrt: real -> real, L: Matrix, x: Vec)
    requires IsSqrt(sqrt) && Psd(s.P, 6) && PosDef(R, 3) && Shape(L, 6, 3) && |x| == 6
    ensures Inverse3.Det(InnovationCovariance(s.P, R)) > 0.0
    ensures Form(UpdateQuat(s, measured, R, sqrt).P, x, x) <= Form(s.P, x, x)
    ensures Form(UpdateQuat(s, measured, R, sqrt).P, x, x) <= Form(Kalman.Joseph(s.P, Observation(), R, L), x, x)
  {
    InnovationInvertible(s.P, R);
    var S := InnovationCovariance(s.P, R);
    InverseIsLeftInverse(S);
    Kalman.OptimalForm(s.P, Observation(), R, Inverse3.Inverse(S), x);
    PosDefIsPsd(S, 3);
    var y := Apply(Transpose(Gain(s.P, R)), x);
    assert Form(S, y, y) >= 0.0;
    Kalman.GainIsOptimal(s.P, Observation(), R, Inverse3.Inverse(S), L, x);
  }

  /** Along every direction a prediction carries the old variance over through the transition and adds
      that of the process noise; bias and net rate stay. */
  lemma PredictedVariance(s: Estimate, gyro: Vec3, dt: real, Q: Matrix, sqrt: real -> real, x: Vec)
    requires IsSqrt(sqrt) && Shape(s.P, 6, 6) && Shape(Q, 6, 6) && |x| == 6
    ensures var t, Phi := Predict(s, gyro, dt, Q, sqrt), Transition(gyro.Minus(s.beta), dt);
            && Form(t.P, x, x) == Form(s.P, Apply(Transpose(Phi), x), Apply(Transpose(Phi), x)) + Form(Q, x, x)
            && t.beta == s.beta && t.w == s.w
  {
    hide Form, Mul, Transpose, Add, Transition, Quat.Normalized, EulerStep;
    var Phi := Transition(gyro.Minus(s.beta), dt);
    FormAdd(Mul(Mul(Phi, s.P), Transpose(Phi)), Q, x, x);
    FormCongruence(Phi, s.P, x, x);
  }

  /** The correction explains the innovation up to the share R S^-1 of the measurement noise. */
  lemma CorrectionFitsMeasurement(s: Estimate, measured: Quat, R: Matrix)
    requires Psd(s.P, 6) && PosDef(R, 3)
    ensures Inverse3.Det(InnovationCovariance(s.P, R)) > 0.0
    ensures var z := Innovation(s.q, measured);
            var zs := [z.x, z.y, z.z];
            Minus(zs, Apply(Observation(), Correction(s, measured, R)))
            == Apply(R, Apply(Inverse3.Inverse(InnovationCovariance(s.P, R)), zs))
  {
    hide Apply, Minus, Innovation, Inverse3.Inverse, Inverse3.Det;
    InnovationInvertible(s.P, R);
    var z := Innovation(s.q, measured);
    Inverse3.InverseAction(InnovationCovariance(s.P, R), [z.x, z.y, z.z]);
    Kalman.PostFitResidual(s.P, Observation(), R, Inverse3.Inverse(InnovationCovariance(s.P, R)), [z.x, z.y, z.z]);
  }

  // ---------- The transition matrix ----------

  /** Attitude error and bias error stacked. */
  function Stacked(theta: Vec3, beta: Vec3): (x: Vec)
    ensures |x| == 6
  {
    [theta.x, theta.y, theta.z, beta.x, beta.y, beta.z]
  }

  lemma Dot6(x: Vec, y: Vec)
    requires |x| == |y| == 6
    ensures Dot(x, y) == x[0] * y[0] + x[1] * y[1] + x[2] * y[2] + x[3] * y[3] + x[4] * y[4] + x[5] * y[5]
  {
    var u, v := x[3..], y[3..];
    Inverse3.Dot3(u, v);
    assert x[1..][1..] == x[2..] && x[2..][1..] == u;
    assert y[1..][1..] == y[2..] && y[2..][1..] == v;
    assert Dot(x[2..], y[2..]) == x[2] * y[2] + Dot(u, v);
    assert Dot(x[1..], y[1..]) == x[1] * y[1] + Dot(x[2..], y[2..]);
  }

  /** F maps (theta, beta) to (-(omega x theta) - beta, 0). */
  lemma DynamicsAction(omega: Vec3, theta: Vec3, beta: Vec3)
    ensures Apply(Dynamics(omega), Stacked(theta, beta))
         == Stacked(omega.Cross(theta).Scaled(-1.0).Minus(beta), ZERO3)
  {
    var F, x := Dynamics(omega), Stacked(theta, beta);
    var r := Stacked(omega.Cross(theta).Scaled(-1.0).Minus(beta), ZERO3);
    hide Dot;
    forall i | 0 <= i < 6 ensures Apply(F, x)[i] == r[i] {
      Dot6(F[i], x);
    }
  }

  /** Phi maps (theta, beta) to (theta - (omega x theta) dt - beta dt, beta). */
  lemma TransitionAction(omega: Vec3, dt: real, theta: Vec3, beta: Vec3)
    ensures Apply(Transition(omega, dt), Stacked(theta, beta))
         == Stacked(theta.Plus(omega.Cross(theta).Scaled(-1.0).Minus(beta).Scaled(dt)), beta)
  {
    var x := Stacked(theta, beta);
    var rate := omega.Cross(theta).Scaled(-1.0).Minus(beta);
    ApplyAdd(Identity(6), ScaleM(dt, Dynamics(omega)), x);
    ApplyIdentity(x);
    ApplyScaleM(dt, Dynamics(omega), x);
    DynamicsAction(omega, theta, beta);
    StackedStep(theta, beta, rate, dt);
  }

  lemma StackedStep(theta: Vec3, beta: Vec3, rate: Vec3, dt: real)
    ensures Plus(Stacked(theta, beta), Scale(dt, Stacked(rate, ZERO3))) == Stacked(theta.Plus(rate.Scaled(dt)), beta)
  {
    var l, r := Plus(Stacked(theta, beta), Scale(dt, Stacked(rate, ZERO3))), Stacked(theta.Plus(rate.Scaled(dt)), beta);
    forall i | 0 <= i < 6 ensures l[i] == r[i] {
    }
  }

  // ---------- The innovation ----------

  lemma TimesNegated(p: Quat, q: Quat)
    ensures p.Scaled(-1.0).Times(q) == p.Times(q).Scaled(-1.0)
  {
    Dot4Negated(p.w, q.w, -p.x, q.x, -p.y, q.y, -p.z, q.z);
    Dot4Negated(p.x, q.w, p.w, q.x, p.y, q.z, -p.z, q.y);
    Dot4Negated(p.y, q.w, -p.x, q.z, p.w, q.y, p.z, q.x);
    Dot4Negated(p.z, q.w, p.x, q.y, -p.y, q.x, p.w, q.z);
  }

  lemma Dot4Negated(a: real, p: real, b: real, q: real, c: real, r: real, d: real, s: real)
    ensures Dot4(-1.0 * a, p, -1.0 * b, q, -1.0 * c, r, -1.0 * d, s) == -1.0 * Dot4(a, p, b, q, c, r, d, s)
  {
  }

  lemma ShortPathNegated(dq: Quat)
    ensures ShortPath(dq.Scaled(-1.0)) == ShortPath(dq) <==> dq.w != 0.0 || dq.Vector() == ZERO3
  {
  }

  /** q and -q are the same attitude.  The innovation is the same for both exactly when the rotation
      between measurement and estimate is not a half turn: there the sign test does nothing. */
  lemma InnovationDoubleCover(q: Quat, measured: Quat)
    ensures var dq := measured.Times(q.Inverse());
            Innovation(q, measured.Scaled(-1.0)) == Innovation(q, measured) <==> dq.w != 0.0 || dq.Vector() == ZERO3
  {
    TimesNegated(measured, q.Inverse());
    ShortPathNegated(measured.Times(q.Inverse()));
  }

  /** Measuring the attitude that a correction by theta leads to gives theta back, shortened by the
      normalisation: residual and correction use the same side and sign. */
  lemma InnovationOfRotation(q: Quat, theta: Vec3, sqrt: real -> real)
    requires IsSqrt(sqrt) && q.IsUnit()
    ensures sqrt(SmallRotation(theta).NormSq()) >= 1.0
    ensures Innovation(q, Rotated(q, theta, sqrt)) == theta.Scaled(1.0 / sqrt(SmallRotation(theta).NormSq()))
  {
    var N := SmallRotation(theta).Normalized(sqrt);
    RotatedIsUnit(q, theta, sqrt);
    InverseIsInverse(q);
    TimesAssociative(N, q, q.Inverse());
    TimesIdentity(N);
    NormOfSmallRotation(theta);
    hide Quat.Times, Quat.Inverse, Quat.NormSq, IsSqrt, Rotated;
    ShortPathOfRotation(theta, 1.0 / sqrt(SmallRotation(theta).NormSq()));
  }

  /** In components: a measurement that is the estimate turned by (r, r v / 2), on the left, reads as the error
      v times the magnitude of r, whichever of the two signs the quaternion has. */
  lemma InnovationOfTurn(q: Quat, v: Vec3, r: real)
    requires q.IsUnit() && r != 0.0
    ensures Innovation(q, Quat(r, r * v.x / 2.0, r * v.y / 2.0, r * v.z / 2.0).Times(q)) == v.Scaled(Reals.Abs(r))
  {
    var N := Quat(r, r * v.x / 2.0, r * v.y / 2.0, r * v.z / 2.0);
    InverseIsInverse(q);
    TimesAssociative(N, q, q.Inverse());
    TimesIdentity(N);
    hide Quat.Times, Quat.Inverse, Quat.NormSq;
    ShortPathOfTurn(N, v, r);
  }

  lemma ShortPathOfTurn(n: Quat, v: Vec3, r: real)
    requires r != 0.0 && n == Quat(r, r * v.x / 2.0, r * v.y / 2.0, r * v.z / 2.0)
    ensures ShortPath(n) == v.Scaled(Reals.Abs(r))
  {
  }

  lemma ShortPathOfRotation(theta: Vec3, r: real)
    requires r > 0.0
    ensures ShortPath(SmallRotation(theta).Scaled(r)) == theta.Scaled(r)
  {
  }

  lemma AgreeingInnovation(q: Quat, measured: Quat)
    requires q.IsUnit() && (measured == q || measured == q.Scaled(-1.0))
    ensures Innovation(q, measured) == ZERO3
  {
  }

  lemma NoTurn()
    ensures SmallRotation(ZERO3) == IDENTITY && IDENTITY.IsUnit()
  {
  }

  lemma NoRotation(q: Quat, sqrt: real -> real)
    requires IsSqrt(sqrt) && q.IsUnit()
    ensures Rotated(q, ZERO3, sqrt) == q
  {
    NoTurn();
    NormalizedUnit(SmallRotation(ZERO3), sqrt);
    IdentityTimes(q);
    NormalizedUnit(q, sqrt);
  }

  lemma NoCorrection(G: Matrix)
    requires Shape(G, 6, 3)
    ensures Apply(G, [0.0, 0.0, 0.0]) == Zeros(6)
  {
    assert [0.0, 0.0, 0.0] == Zeros(3);
    ApplyToZero(G, 3);
  }

  lemma UpdateWithCorrection(s: Estimate, measured: Quat, R: Matrix, sqrt: real -> real, theta: Vec3, beta: Vec3)
    requires IsSqrt(sqrt) && Psd(s.P, 6) && PosDef(R, 3) && Inverse3.Det(InnovationCovariance(s.P, R)) != 0.0
    requires Correction(s, measured, R) == Stacked(theta, beta)
    ensures UpdateQuat(s, measured, R, sqrt).q == Rotated(s.q, theta, sqrt)
    ensures UpdateQuat(s, measured, R, sqrt).beta == s.beta.Plus(beta)
  {
  }

  /** A measurement equal to the estimate, or to its antipode, moves neither attitude nor bias. */
  lemma AgreeingMeasurement(s: Estimate, measured: Quat, R: Matrix, sqrt: real -> real)
    requires IsSqrt(sqrt) && Sound(s) && PosDef(R, 3)
    requires measured == s.q || measured == s.q.Scaled(-1.0)
    ensures Inverse3.Det(InnovationCovariance(s.P, R)) > 0.0
    ensures UpdateQuat(s, measured, R, sqrt).q == s.q
    ensures UpdateQuat(s, measured, R, sqrt).beta == s.beta
  {
    assert Innovation(s.q, measured) == ZERO3 by { AgreeingInnovation(s.q, measured); }
    assert Inverse3.Det(InnovationCovariance(s.P, R)) > 0.0 by { InnovationInvertible(s.P, R); }
    NoCorrection(Gain(s.P, R));
    assert Zeros(6) == Stacked(ZERO3, ZERO3);
    UpdateWithCorrection(s, measured, R, sqrt, ZERO3, ZERO3);
    NoRotation(s.q, sqrt);
  }

  // ---------- Runs ----------

  datatype Event =
    | Initialize(q0: Quat, beta0: Vec3, P0: Matrix)
    | Gyro(rate: Vec3, dt: real, Q: Matrix)
    | StarTracker(measured: Quat, R: Matrix)
    | Sensors(rate: Vec3, measured: Quat, dt: real)
    | Reset

  /** What the filter asks of its callers. */
  ghost predicate Admissible(e: Event) {
    match e
    case Initialize(q0, _, P0) => q0.NormSq() > 0.0 && Psd(P0, 6)
    case Gyro(_, _, Q) => Psd(Q, 6)
    case StarTracker(_, R) => PosDef(R, 3)
    case _ => true
  }

  function ProcessNoise(): (Q: Matrix)
    ensures Shape(Q, 6, 6)
  {
    ScaleM(0.0000001, Identity(6))
  }

  function MeasurementNoise(): (R: Matrix)
    ensures Shape(R, 3, 3)
  {
    ScaleM(0.0001, Identity(3))
  }

  lemma NominalNoise()
    ensures Psd(ProcessNoise(), 6) && PosDef(MeasurementNoise(), 3)
  {
    ScaledIdentityPosDef(0.0000001, 6);
    PosDefIsPsd(ProcessNoise(), 6);
    ScaledIdentityPosDef(0.0001, 3);
  }

  /** The covariance that the correction of a cycle starts from. */
  function CycleCovariance(s: Estimate, rate: Vec3, dt: real): (P: Matrix)
    requires Shape(s.P, 6, 6)
    ensures Shape(P, 6, 6)
  {
    PredictedCovariance(s.P, rate.Minus(s.beta), dt, ProcessNoise())
  }

  /** One cycle: predict with the gyro, correct with the star tracker, refresh the net rate. */
  function Cycle(s: Estimate, rate: Vec3, measured: Quat, dt: real, sqrt: real -> real): Estimate
    requires IsSqrt(sqrt) && Shape(s.P, 6, 6)
    requires Inverse3.Det(InnovationCovariance(CycleCovariance(s, rate, dt), MeasurementNoise())) != 0.0
  {
    var t := UpdateQuat(Predict(s, rate, dt, ProcessNoise(), sqrt), measured, MeasurementNoise(), sqrt);
    t.(w := rate.Minus(t.beta))
  }

  /** Where the operations are defined at all: matrices of the right sizes and an innovation covariance
      that has an inverse. */
  predicate Defined(s: Estimate, e: Event) {
    && Shape(s.P, 6, 6)
    && match e
       case Initialize(_, _, P0) => Shape(P0, 6, 6)
       case Gyro(_, _, Q) => Shape(Q, 6, 6)
       case StarTracker(_, R) => Shape(R, 3, 3) && Inverse3.Det(InnovationCovariance(s.P, R)) != 0.0
       case Sensors(rate, _, dt) =>
         Inverse3.Det(InnovationCovariance(CycleCovariance(s, rate, dt), MeasurementNoise())) != 0.0
       case Reset => true
  }

  function Step(s: Estimate, e: Event, sqrt: real -> real): (t: Estimate)
    requires IsSqrt(sqrt) && Defined(s, e)
    ensures Shape(t.P, 6, 6)
  {
    match e
    case Initialize(q0, beta0, P0) => s.(q := q0.Normalized(sqrt), beta := beta0, P := P0)
    case Gyro(rate, dt, Q) => Predict(s, rate, dt, Q, sqrt)
    case StarTracker(measured, R) => UpdateQuat(s, measured, R, sqrt)
    case Sensors(rate, measured, dt) => Cycle(s, rate, measured, dt, sqrt)
    case Reset => s.(q := IDENTITY, beta := ZERO3, P := Identity(6))
  }

  /** Every admissible operation is defined on a sound estimate and leaves a sound one. */
  lemma StepKeepsSound(s: Estimate, e: Event, sqrt: real -> real)
    requires IsSqrt(sqrt) && Sound(s) && Admissible(e)
    ensures Defined(s, e) && Sound(Step(s, e, sqrt))
  {
    match e
    case Initialize(q0, _, _) => NormalizedIsUnit(q0, sqrt);
    case Gyro(rate, dt, Q) => PredictKeepsSound(s, rate, dt, Q, sqrt);
    case StarTracker(measured, R) => UpdateKeepsSound(s, measured, R, sqrt);
    case Sensors(rate, measured, dt) =>
      NominalNoise();
      PredictKeepsSound(s, rate, dt, ProcessNoise(), sqrt);
      UpdateKeepsSound(Predict(s, rate, dt, ProcessNoise(), sqrt), measured, MeasurementNoise(), sqrt);
    case Reset => IdentityPsd(6);
  }

  /** The estimate after a list of events. */
  function Run(s: Estimate, events: seq<Event>, sqrt: real -> real): (t: Estimate)
    requires IsSqrt(sqrt) && Sound(s) && forall i :: 0 <= i < |events| ==> Admissible(events[i])
    ensures Sound(t)
    decreases |events|
  {
    if events == [] then s
    else
      StepKeepsSound(s, events[0], sqrt);
      Run(Step(s, events[0], sqrt), events[1..], sqrt)
  }

  /** From the constructor, over every run: the attitude is unit, the covariance semidefinite, and the
      next star tracker measurement, with any positive definite R, meets an invertible S. */
  lemma RunsStaySound(events: seq<Event>, sqrt: real -> real, R: Matrix)
    requires IsSqrt(sqrt) && PosDef(R, 3)
    requires forall i :: 0 <= i < |events| ==> Admissible(events[i])
    ensures Sound(Initial())
    ensures var s := Run(Initial(), events, sqrt);
            Sound(s) && PosDef(InnovationCovariance(s.P, R), 3) && Inverse3.Det(InnovationCovariance(s.P, R)) > 0.0
  {
    InitialSound();
    InnovationInvertible(Run(Initial(), events, sqrt).P, R);
  }

  // ---------- Starting again ----------

  /** Equal but for the net rate, which no operation reads. */
  predicate SameFilter(s: Estimate, t: Estimate) {
    s.q == t.q && s.beta == t.beta && s.P == t.P
  }

  lemma {:induction false} RateIsIgnored(s: Estimate, t: Estimate, events: seq<Event>, sqrt: real -> real)
    requires IsSqrt(sqrt) && Sound(s) && SameFilter(s, t)
    requires forall i :: 0 <= i < |events| ==> Admissible(events[i])
    ensures Sound(t) && SameFilter(Run(s, events, sqrt), Run(t, events, sqrt))
    decreases |events|
  {
    hide IsSqrt, Sound, Admissible, UpdateQuat, Predict, Quat.Normalized, Inverse3.Det, InnovationCovariance;
    hide CycleCovariance;
    SameSound(s, t);
    if events != [] {
      StepKeepsSound(s, events[0], sqrt);
      StepKeepsSound(t, events[0], sqrt);
      StepIgnoresRate(s, t, events[0], sqrt);
      RateIsIgnored(Step(s, events[0], sqrt), Step(t, events[0], sqrt), events[1..], sqrt);
    }
  }

  lemma SameSound(s: Estimate, t: Estimate)
    requires Sound(s) && SameFilter(s, t)
    ensures Sound(t)
  {
  }

  lemma StepIgnoresRate(s: Estimate, t: Estimate, e: Event, sqrt: real -> real)
    requires IsSqrt(sqrt) && SameFilter(s, t) && Defined(s, e) && Defined(t, e)
    ensures SameFilter(Step(s, e, sqrt), Step(t, e, sqrt))
  {
    hide IsSqrt, Quat.Normalized, Inverse3.Det, Rotated, Kalman.Joseph, PredictedCovariance, EulerStep, Innovation;
    hide Kalman.Gain, Kalman.InnovationCovariance, Apply;
  }

  lemma RootOfSquare(r: real, sqrt: real -> real)
    requires IsSqrt(sqrt) && r > 0.0
    ensures r * r > 0.0 && sqrt(r * r) == r
  {
    Reals.ProductSign(r, r, r * r);
    SquareMonotone(sqrt(r * r), r);
    SquareMonotone(r, sqrt(r * r));
  }

  lemma NormalizedScaled(q: Quat, r: real, sqrt: real -> real)
    requires IsSqrt(sqrt) && q.IsUnit() && r > 0.0
    ensures q.Scaled(r).Normalized(sqrt) == q
  {
    RootOfSquare(r, sqrt);
    ScaledNormSq(q, r);
    hide Quat.NormSq, Quat.Scaled;
    Unscaled(q, r);
  }

  lemma ScaledNormSq(q: Quat, r: real)
    requires q.IsUnit()
    ensures q.Scaled(r).NormSq() == r * r
  {
    assert q.Scaled(r).NormSq() == (r * r) * q.NormSq();
  }

  lemma Unscaled(q: Quat, r: real)
    requires r != 0.0
    ensures q.Scaled(r).Scaled(1.0 / r) == q
  {
    var k := 1.0 / r;
    assert k * r == 1.0;
    assert k * (r * q.w) == q.w && k * (r * q.x) == q.x && k * (r * q.y) == q.y && k * (r * q.z) == q.z;
  }

  /** Whatever happened before, a filter initialised with a multiple r of a unit quaternion q goes on as one
      whose attitude, bias and covariance are q, beta0 and P0. */
  lemma {:induction false} InitializeForgets(s: Estimate, before: seq<Event>, q: Quat, r: real, beta0: Vec3, P0: Matrix,
                                             events: seq<Event>, sqrt: real -> real)
    requires IsSqrt(sqrt) && Sound(s) && q.IsUnit() && r > 0.0 && Psd(P0, 6)
    requires forall i :: 0 <= i < |before| ==> Admissible(before[i])
    requires forall i :: 0 <= i < |events| ==> Admissible(events[i])
    ensures Admissible(Initialize(q.Scaled(r), beta0, P0)) && Sound(Estimate(q, beta0, ZERO3, P0))
    ensures SameFilter(Run(s, before + [Initialize(q.Scaled(r), beta0, P0)] + events, sqrt),
                       Run(Estimate(q, beta0, ZERO3, P0), events, sqrt))
    decreases |before|
  {
    hide IsSqrt, Quat.Normalized, Quat.Scaled, Quat.NormSq, Psd, Run;
    var e := Initialize(q.Scaled(r), beta0, P0);
    InitializeIsAdmissible(q, r, beta0, P0);
    var all := before + [e] + events;
    RunStarts(s, all, sqrt);
    if before == [] {
      assert all[0] == e && all[1..] == events;
      NormalizedScaled(q, r, sqrt);
      StepKeepsSound(s, e, sqrt);
      RateIsIgnored(Estimate(q, beta0, ZERO3, P0), Step(s, e, sqrt), events, sqrt);
    } else {
      assert all[0] == before[0] && all[1..] == before[1..] + [e] + events;
      StepKeepsSound(s, before[0], sqrt);
      InitializeForgets(Step(s, before[0], sqrt), before[1..], q, r, beta0, P0, events, sqrt);
    }
  }

  lemma RunStarts(s: Estimate, events: seq<Event>, sqrt: real -> real)
    requires IsSqrt(sqrt) && Sound(s) && forall i :: 0 <= i < |events| ==> Admissible(events[i])
    requires events != []
    ensures Defined(s, events[0]) && Sound(Step(s, events[0], sqrt))
    ensures Run(s, events, sqrt) == Run(Step(s, events[0], sqrt), events[1..], sqrt)
  {
    StepKeepsSound(s, events[0], sqrt);
  }

  lemma InitializeIsAdmissible(q: Quat, r: real, beta0: Vec3, P0: Matrix)
    requires q.IsUnit() && r > 0.0 && Psd(P0, 6)
    ensures Admissible(Initialize(q.Scaled(r), beta0, P0)) && Sound(Estimate(q, beta0, ZERO3, P0))
  {
    Reals.ProductSign(r, r, r * r);
    ScaledNormSq(q, r);
  }

  /** Whatever happened before, a reset filter goes on as a new one. */
  lemma {:induction false} ResetForgets(s: Estimate, before: seq<Event>, events: seq<Event>, sqrt: real -> real)
    requires IsSqrt(sqrt) && Sound(s)
    requires forall i :: 0 <= i < |before| ==> Admissible(before[i])
    requires forall i :: 0 <= i < |events| ==> Admissible(events[i])
    ensures Sound(Initial())
    ensures SameFilter(Run(s, before + [Event.Reset] + events, sqrt), Run(Initial(), events, sqrt))
    decreases |before|
  {
    hide IsSqrt, Psd, Run;
    var all := before + [Event.Reset] + events;
    InitialSound();
    RunStarts(s, all, sqrt);
    if before == [] {
      assert all[0] == Event.Reset && all[1..] == events;
      RateIsIgnored(Initial(), Step(s, Event.Reset, sqrt), events, sqrt);
    } else {
      assert all[0] == before[0] && all[1..] == before[1..] + [Event.Reset] + events;
      StepKeepsSound(s, before[0], sqrt);
      ResetForgets(Step(s, before[0], sqrt), before[1..], events, sqrt);
    }
  }

  // ---------- The filter object ----------

  class Filter {
    var q: Quat
    var beta: Vec3
    var w: Vec3
    var P: Matrix
    const sqrt: real -> real

    function State(): Estimate
      reads this
    {
      Estimate(q, beta, w, P)
    }

    ghost predicate Valid()
      reads this
    {
      IsSqrt(sqrt) && Shape(P, 6, 6)
    }

    constructor (sqrt: real -> real)
      requires IsSqrt(sqrt)
      ensures Valid() && State() == Initial() == Estimate(IDENTITY, ZERO3, ZERO3, Identity(6)) && this.sqrt == sqrt
    {
      this.sqrt := sqrt;
      q, beta, w, P := IDENTITY, ZERO3, ZERO3, Identity(6);
    }

    method Initialize(q0: Quat, beta0: Vec3, P0: Matrix)
      requires Valid() && Defined(State(), Event.Initialize(q0, beta0, P0))
      modifies this
      ensures Valid() && State() == Step(old(State()), Event.Initialize(q0, beta0, P0), sqrt)
    {
      q := q0;
      q := q.Normalized(sqrt);
      beta := beta0;
      P := P0;
    }

    method Predict(gyro: Vec3, dt: real, Q: Matrix)
      requires Valid() && Defined(State(), Gyro(gyro, dt, Q))
      modifies this
      ensures Valid() && State() == Step(old(State()), Gyro(gyro, dt, Q), sqrt)
    {
      var omega := gyro.Minus(beta);
      var qDot := q.Times(Quat(0.0, omega.x, omega.y, omega.z)).Scaled(0.5);
      q := q.Plus(qDot.Scaled(dt));
      q := q.Normalized(sqrt);
      var Phi := Add(Identity(6), ScaleM(dt, Dynamics(omega)));
      P := Add(Mul(Mul(Phi, P), Transpose(Phi)), Q);
    }

    method UpdateQuat(measured: Quat, R: Matrix)
      requires Valid() && Defined(State(), StarTracker(measured, R))
      modifies this
      ensures Valid() && State() == Step(old(State()), StarTracker(measured, R), sqrt)
    {
      hide Dot, Apply, Mul, Transpose, Add, Sub, Identity, Quat.Times, Quat.NormSq, Innovation;
      var z := Innovation(q, measured);
      var H := Observation();
      var S := Add(Mul(Mul(H, P), Transpose(H)), R);
      var K := Mul(Mul(P, Transpose(H)), Inverse3.Inverse(S));
      var dx := Apply(K, [z.x, z.y, z.z]);
      beta := beta.Plus(Vec3(dx[3], dx[4], dx[5]));
      var correction := SmallRotation(Vec3(dx[0], dx[1], dx[2])).Normalized(sqrt);
      q := correction.Times(q);
      q := q.Normalized(sqrt);
      var IKH := Sub(Identity(6), Mul(K, H));
      P := Add(Mul(Mul(IKH, P), Transpose(IKH)), Mul(Mul(K, R), Transpose(K)));
    }

    method Update(gyro: Vec3, measured: Quat, dt: real)
      requires Valid() && Defined(State(), Sensors(gyro, measured, dt))
      modifies this
      ensures Valid() && State() == Step(old(State()), Sensors(gyro, measured, dt), sqrt)
    {
      hide Transition, Mul, Transpose, Add, Rotated, Correction, Gain, Inverse3.Det, Kalman.Joseph, IsSqrt;
      Predict(gyro, dt, ProcessNoise());
      UpdateQuat(measured, MeasurementNoise());
      w := gyro.Minus(beta);
    }

    method Reset()
      requires Valid()
      modifies this
      ensures Valid() && State() == Step(old(State()), Event.Reset, sqrt)
    {
      q, beta, P := IDENTITY, ZERO3, Identity(6);
    }
  }
}
