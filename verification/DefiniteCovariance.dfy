/** When the covariance of the attitude filter is positive definite, and its inverse. */
module DefiniteCovariance {
  import opened LinearAlgebra
  import opened Mekf
  import opened Quaternions
  import opened Reals
  import opened Vectors3
  import Inverse3
  import Kalman

  lemma OwnTurn(omega: Vec3, a: Vec3)
    ensures omega.Cross(a).Dot(a) == 0.0
  {
  }

  lemma DotIsTimes(a: Vec3, b: Vec3)
    ensures a.Dot(b) == Times(a.x, b.x) + Times(a.y, b.y) + Times(a.z, b.z)
    ensures a.NormSq() == a.Dot(a)
  {
    DotIsSum3(a, b);
    Sum3Times(a.x, b.x, a.y, b.y, a.z, b.z);
  }

  lemma MovedDot(a: Vec3, c: Vec3, dt: real)
    requires c.Dot(a) == 0.0
    ensures a.Plus(c.Scaled(-1.0).Minus(ZERO3).Scaled(dt)).Dot(a) == a.NormSq()
  {
    var m := a.Plus(c.Scaled(-1.0).Minus(ZERO3).Scaled(dt));
    MovedProduct(a.x, c.x, dt, m.x);
    MovedProduct(a.y, c.y, dt, m.y);
    MovedProduct(a.z, c.z, dt, m.z);
    hide Vec3.Dot, Vec3.NormSq, Times;
    DotIsTimes(m, a);
    DotIsTimes(a, a);
    DotIsTimes(c, a);
    TimesOfNothing(dt, Times(c.x, a.x), Times(c.y, a.y), Times(c.z, a.z));
  }

  lemma MovedProduct(a: real, c: real, dt: real, m: real)
    requires m == a + dt * (-1.0 * c - 0.0)
    ensures Times(m, a) == Times(a, a) - Times(dt, Times(c, a))
  {
  }

  lemma TimesOfNothing(dt: real, p: real, q: real, r: real)
    requires p + q + r == 0.0
    ensures Times(dt, p) + Times(dt, q) + Times(dt, r) == 0.0
  {
    assert dt * p + dt * q + dt * r == dt * (p + q + r);
  }

  lemma StackedDot(a: Vec3, b: Vec3, c: Vec3, d: Vec3)
    ensures Dot(Stacked(a, b), Stacked(c, d)) == a.Dot(c) + b.Dot(d)
  {
    Dot6(Stacked(a, b), Stacked(c, d));
  }

  lemma ZeroDot(a: Vec3)
    ensures ZERO3.Dot(a) == 0.0 == a.Dot(ZERO3)
  {
  }

  lemma StackOf(x: Vec) returns (a: Vec3, b: Vec3)
    requires |x| == 6
    ensures x == Stacked(a, b)
    ensures a == ZERO3 && b == ZERO3 ==> x == Zeros(6)
  {
    a, b := Vec3(x[0], x[1], x[2]), Vec3(x[3], x[4], x[5]);
  }

  /** The transposed transition is injective, whatever the rate and the step. */
  lemma TransitionIsInjective(omega: Vec3, dt: real, x: Vec)
    requires |x| == 6 && Apply(Transpose(Transition(omega, dt)), x) == Zeros(6)
    ensures x == Zeros(6)
  {
    hide Apply, Transpose, Transition, Stacked, Zeros, Vec3.Cross, Vec3.Dot, Vec3.NormSq, Vec3.Plus, Vec3.Minus;
    hide Vec3.Scaled;
    var Phi := Transition(omega, dt);
    var a, b := StackOf(x);
    // Against (a, 0) the moved vector is (a - dt omega x a, 0), and its product with x is |a|^2.
    PulledBack(Phi, Stacked(a, ZERO3), x);
    TransitionAction(omega, dt, a, ZERO3);
    var moved := a.Plus(omega.Cross(a).Scaled(-1.0).Minus(ZERO3).Scaled(dt));
    StackedDot(moved, ZERO3, a, b);
    OwnTurn(omega, a);
    MovedDot(a, omega.Cross(a), dt);
    ZeroDot(b);
    ZeroOnlyAtZero(a);
    // Against (0, b) it is (-b dt, b), and its product with (0, b) is |b|^2.
    PulledBack(Phi, Stacked(ZERO3, b), x);
    TransitionAction(omega, dt, ZERO3, b);
    var turned := ZERO3.Plus(omega.Cross(ZERO3).Scaled(-1.0).Minus(b).Scaled(dt));
    StackedDot(turned, b, a, b);
    ZeroDot(turned);
    DotIsTimes(b, b);
    ZeroOnlyAtZero(b);
  }

  lemma PulledBack(A: Matrix, z: Vec, x: Vec)
    requires |z| == |x| == 6 && Shape(A, 6, 6) && Apply(Transpose(A), x) == Zeros(6)
    ensures Dot(Apply(A, z), x) == 0.0
  {
    Kalman.AdjointRight(A, z, x);
    DotZeros(z);
  }

  lemma PredictionIsDefinite(s: Estimate, gyro: Vec3, dt: real, Q: Matrix, sqrt: real -> real)
    requires IsSqrt(sqrt) && Sound(s) && PosDef(s.P, 6) && Psd(Q, 6)
    ensures PosDef(Predict(s, gyro, dt, Q, sqrt).P, 6)
  {
    var t, Phi := Predict(s, gyro, dt, Q, sqrt), Transition(gyro.Minus(s.beta), dt);
    PredictKeepsSound(s, gyro, dt, Q, sqrt);
    forall x: Vec {:trigger Form(t.P, x, x)} | |x| == 6 && x != Zeros(6) ensures Form(t.P, x, x) > 0.0 {
      PredictedVariance(s, gyro, dt, Q, sqrt, x);
      var z := Apply(Transpose(Phi), x);
      if z == Zeros(6) {
        TransitionIsInjective(gyro.Minus(s.beta), dt, x);
      }
      assert Form(s.P, z, z) > 0.0 && Form(Q, x, x) >= 0.0;
    }
  }

  lemma UpdateIsDefinite(s: Estimate, measured: Quat, R: Matrix, sqrt: real -> real)
    requires IsSqrt(sqrt) && Sound(s) && PosDef(s.P, 6) && PosDef(R, 3)
    ensures Inverse3.Det(InnovationCovariance(s.P, R)) > 0.0
    ensures PosDef(UpdateQuat(s, measured, R, sqrt).P, 6)
  {
    InnovationInvertible(s.P, R);
    Kalman.JosephPosDef(s.P, Observation(), R, Gain(s.P, R));
  }

  /** Initialisations in the list start from a definite covariance. */
  ghost predicate DefiniteStart(e: Event) {
    e.Initialize? ==> PosDef(e.P0, 6)
  }

  lemma IdentityIsDefinite()
    ensures PosDef(Identity(6), 6)
  {
    forall x: Vec {:trigger Form(Identity(6), x, x)} | |x| == 6 && x != Zeros(6) ensures Form(Identity(6), x, x) > 0.0 {
      ApplyIdentity(x);
      NormSqNonNegative(x);
    }
  }

  lemma StepIsDefinite(s: Estimate, e: Event, sqrt: real -> real)
    requires IsSqrt(sqrt) && Sound(s) && PosDef(s.P, 6) && Admissible(e) && DefiniteStart(e)
    ensures Defined(s, e) && PosDef(Step(s, e, sqrt).P, 6)
  {
    StepKeepsSound(s, e, sqrt);
    hide PosDef, Psd, Sound;
    match e
    case Initialize(_, _, _) =>
    case Gyro(rate, dt, Q) => PredictionIsDefinite(s, rate, dt, Q, sqrt);
    case StarTracker(measured, R) => UpdateIsDefinite(s, measured, R, sqrt);
    case Sensors(rate, measured, dt) =>
      NominalNoise();
      PredictKeepsSound(s, rate, dt, ProcessNoise(), sqrt);
      PredictionIsDefinite(s, rate, dt, ProcessNoise(), sqrt);
      UpdateIsDefinite(Predict(s, rate, dt, ProcessNoise(), sqrt), measured, MeasurementNoise(), sqrt);
    case Reset => IdentityIsDefinite();
  }

  lemma {:induction false} RunIsDefinite(s: Estimate, events: seq<Event>, sqrt: real -> real)
    requires IsSqrt(sqrt) && Sound(s) && PosDef(s.P, 6)
    requires forall i :: 0 <= i < |events| ==> Admissible(events[i]) && DefiniteStart(events[i])
    ensures PosDef(Run(s, events, sqrt).P, 6)
    decreases |events|
  {
    hide Step, Admissible, DefiniteStart, PosDef, Sound;
    if events != [] {
      StepKeepsSound(s, events[0], sqrt);
      StepIsDefinite(s, events[0], sqrt);
      RunIsDefinite(Step(s, events[0], sqrt), events[1..], sqrt);
    }
  }

  /** In every run from the constructor the covariance stays positive definite, if every initialisation
      gives a definite one: no direction is ever taken for known exactly. */
  lemma RunsStayDefinite(events: seq<Event>, sqrt: real -> real)
    requires IsSqrt(sqrt)
    requires forall i :: 0 <= i < |events| ==> Admissible(events[i]) && DefiniteStart(events[i])
    ensures Sound(Initial()) && PosDef(Run(Initial(), events, sqrt).P, 6)
  {
    InitialSound();
    IdentityIsDefinite();
    RunIsDefinite(Initial(), events, sqrt);
  }

  /** The information form of the measurement: an inverse M of the covariance becomes M + H^T R^-1 H. */
  lemma MeasurementAddsInformation(s: Estimate, measured: Quat, R: Matrix, sqrt: real -> real, M: Matrix)
    requires IsSqrt(sqrt) && Psd(s.P, 6) && PosDef(R, 3) && Kalman.RightInverse(M, s.P, 6)
    ensures Inverse3.Det(InnovationCovariance(s.P, R)) > 0.0 && Inverse3.Det(R) > 0.0
    ensures Kalman.RightInverse(Kalman.Information(M, Observation(), Inverse3.Inverse(R)),
                                UpdateQuat(s, measured, R, sqrt).P, 6)
  {
    InnovationInvertible(s.P, R);
    Inverse3.PosDefInvertible(R);
    var S, V := InnovationCovariance(s.P, R), Inverse3.Inverse(R);
    InverseIsLeftInverse(S);
    forall y: Vec {:trigger Apply(V, y)} | |y| == 3 ensures Apply(R, Apply(V, y)) == y {
      Inverse3.InverseAction(R, y);
    }
    Kalman.InformationAdds(s.P, Observation(), R, Inverse3.Inverse(S), Gain(s.P, R), M, V);
  }
}
