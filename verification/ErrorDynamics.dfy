/** What a prediction does to the attitude error, on either side.  The kinematics multiply the rate on
    the right; the residual of a measurement, p q^-1, stands on the left. */
module ErrorDynamics {
  import opened LinearAlgebra
  import opened Reals
  import opened Vectors3
  import opened Quaternions
  import opened Mekf
  import opened Inverse3

  // ---------- The residual the filter measures ----------

  lemma StepFactor(omega: Vec3, dt: real)
    ensures SmallRotation(omega.Scaled(dt)).NormSq() > 0.0
  {
    NormOfSmallRotation(omega.Scaled(dt));
  }

  /** Propagating truth p and estimate q by the same rate leaves the quotient p q^-1 alone. */
  lemma StepKeepsQuotient(p: Quat, q: Quat, omega: Vec3, dt: real)
    requires q.NormSq() > 0.0
    ensures EulerStep(p, omega, dt).Times(EulerStep(q, omega, dt).Inverse()) == p.Times(q.Inverse())
    ensures Innovation(EulerStep(q, omega, dt), EulerStep(p, omega, dt)) == Innovation(q, p)
  {
    hide Quat.Times, Quat.Inverse, Quat.NormSq, EulerStep, SmallRotation;
    EulerStepIsProduct(p, omega, dt);
    EulerStepIsProduct(q, omega, dt);
    StepFactor(omega, dt);
    RightFactorCancels(p, q, SmallRotation(omega.Scaled(dt)));
  }

  /** Normalising an Euler step from a unit quaternion is normalising its factor. */
  lemma NormalizedStep(q: Quat, omega: Vec3, dt: real, sqrt: real -> real)
    requires IsSqrt(sqrt) && q.IsUnit()
    ensures var v := SmallRotation(omega.Scaled(dt)).Normalized(sqrt);
            EulerStep(q, omega, dt).Normalized(sqrt) == q.Times(v) && v.IsUnit()
  {
    var u := SmallRotation(omega.Scaled(dt));
    EulerStepIsProduct(q, omega, dt);
    NormOfProduct(q, u);
    StepFactor(omega, dt);
    NormalizedIsUnit(u, sqrt);
    ScaledTimes(q, u, 1.0 / sqrt(u.NormSq()));
  }

  /** With no bias error a prediction leaves the measured error exactly as it was: if the true attitude p
      turns at the rate the filter uses, the next innovation is the one before. */
  lemma PredictionKeepsInnovation(s: Estimate, p: Quat, gyro: Vec3, dt: real, Q: Matrix, sqrt: real -> real)
    requires IsSqrt(sqrt) && Sound(s) && p.IsUnit() && Shape(Q, 6, 6)
    ensures var truth := EulerStep(p, gyro.Minus(s.beta), dt).Normalized(sqrt);
            Innovation(Predict(s, gyro, dt, Q, sqrt).q, truth) == Innovation(s.q, p)
  {
    var omega := gyro.Minus(s.beta);
    NormalizedStep(p, omega, dt, sqrt);
    NormalizedStep(s.q, omega, dt, sqrt);
    hide Quat.Times, Quat.Inverse, EulerStep, SmallRotation, Quat.Normalized, PredictedCovariance;
    RightFactorCancels(p, s.q, SmallRotation(omega.Scaled(dt)).Normalized(sqrt));
  }

  lemma NoMove(z: real, c: real, dt: real, moved: real)
    requires moved == z + dt * (-1.0 * c - 0.0)
    ensures moved == z <==> dt == 0.0 || c == 0.0
  {
    ProductSign(dt, c, dt * c);
    ProductSign(-dt, c, -(dt * c));
  }

  lemma TurnVanishes(omega: Vec3, dt: real, z: Vec3)
    ensures z.Plus(omega.Cross(z).Scaled(-1.0).Minus(ZERO3).Scaled(dt)) == z <==> dt == 0.0 || omega.Cross(z) == ZERO3
  {
    hide Vec3.Cross;
    var c := omega.Cross(z);
    var m := z.Plus(c.Scaled(-1.0).Minus(ZERO3).Scaled(dt));
    NoMove(z.x, c.x, dt, m.x);
    NoMove(z.y, c.y, dt, m.y);
    NoMove(z.z, c.z, dt, m.z);
    hide Vec3.Plus, Vec3.Minus, Vec3.Scaled;
    assert m == z <==> m.x == z.x && m.y == z.y && m.z == z.z;
    assert c == ZERO3 <==> c.x == 0.0 && c.y == 0.0 && c.z == 0.0;
  }

  lemma SameStack(a: Vec3, b: Vec3, beta: Vec3)
    ensures Stacked(a, beta) == Stacked(b, beta) <==> a == b
  {
    if Stacked(a, beta) == Stacked(b, beta) {
      assert Stacked(a, beta)[0] == a.x && Stacked(b, beta)[0] == b.x;
      assert Stacked(a, beta)[1] == a.y && Stacked(b, beta)[1] == b.y;
      assert Stacked(a, beta)[2] == a.z && Stacked(b, beta)[2] == b.z;
    }
  }

  /** Phi, which moves the covariance, takes the innovation before the prediction to the one after it if
      and only if no time passes or the error lies along the rate. */
  lemma TransitionFitsInnovation(s: Estimate, p: Quat, gyro: Vec3, dt: real, Q: Matrix, sqrt: real -> real)
    requires IsSqrt(sqrt) && Sound(s) && p.IsUnit() && Shape(Q, 6, 6)
    ensures var omega := gyro.Minus(s.beta);
            var truth := EulerStep(p, omega, dt).Normalized(sqrt);
            var z, z' := Innovation(s.q, p), Innovation(Predict(s, gyro, dt, Q, sqrt).q, truth);
            Apply(Transition(omega, dt), Stacked(z, ZERO3)) == Stacked(z', ZERO3) <==>
              dt == 0.0 || omega.Cross(z) == ZERO3
  {
    hide Innovation, Predict, EulerStep, Apply, Transition, Sound, Quat.Normalized, Vec3.Cross, Stacked;
    var omega, z := gyro.Minus(s.beta), Innovation(s.q, p);
    PredictionKeepsInnovation(s, p, gyro, dt, Q, sqrt);
    TransitionAction(omega, dt, z, ZERO3);
    TurnVanishes(omega, dt, z);
    SameStack(z.Plus(omega.Cross(z).Scaled(-1.0).Minus(ZERO3).Scaled(dt)), z, ZERO3);
  }

  lemma MisfitIsUnit()
    ensures Quat(0.8, 0.0, 0.6, 0.0).IsUnit()
  {
  }

  lemma MisfitTurn()
    ensures Vec3(0.0, 0.0, 1.0).Cross(Vec3(0.0, 1.2, 0.0)) == Vec3(-1.2, 0.0, 0.0)
    ensures Vec3(0.0, 0.0, 1.0).Minus(ZERO3) == Vec3(0.0, 0.0, 1.0)
  {
  }

  lemma MisfitMove()
    ensures Vec3(0.0, 1.2, 0.0).Plus(Vec3(-1.2, 0.0, 0.0).Scaled(-1.0).Minus(ZERO3).Scaled(0.1)) == Vec3(0.12, 1.2, 0.0)
  {
    assert Vec3(-1.2, 0.0, 0.0).Scaled(-1.0) == Vec3(1.2, 0.0, 0.0);
    assert Vec3(1.2, 0.0, 0.0).Minus(ZERO3) == Vec3(1.2, 0.0, 0.0);
    assert Vec3(1.2, 0.0, 0.0).Scaled(0.1) == Vec3(0.12, 0.0, 0.0);
  }

  lemma InnovationFromIdentity(p: Quat)
    requires p.w >= 0.0
    ensures Innovation(IDENTITY, p) == p.Vector().Scaled(2.0)
  {
    hide Quat.Times, Quat.Inverse, Vec3.Scaled;
    InverseOfIdentity();
    TimesIdentity(p);
  }

  lemma InverseOfIdentity()
    ensures IDENTITY.Inverse() == IDENTITY
  {
  }

  lemma InnovationFromMisfit()
    ensures Innovation(Initial().q, Quat(0.8, 0.0, 0.6, 0.0)) == Vec3(0.0, 1.2, 0.0)
  {
    hide Innovation, Identity;
    InnovationFromIdentity(Quat(0.8, 0.0, 0.6, 0.0));
    assert Initial().q == IDENTITY;
  }

  /** One such misfit: from the initial estimate, an error about y and a rate about z. */
  lemma TransitionMisfit(sqrt: real -> real)
    requires IsSqrt(sqrt)
    ensures Sound(Initial())
    ensures var p, omega, Q := Quat(0.8, 0.0, 0.6, 0.0), Vec3(0.0, 0.0, 1.0), ProcessNoise();
            var truth := EulerStep(p, omega, 0.1).Normalized(sqrt);
            && p.IsUnit()
            && Innovation(Initial().q, p) == Vec3(0.0, 1.2, 0.0)
            && Innovation(Predict(Initial(), omega, 0.1, Q, sqrt).q, truth) == Vec3(0.0, 1.2, 0.0)
            && Apply(Transition(omega, 0.1), Stacked(Vec3(0.0, 1.2, 0.0), ZERO3))
               == Stacked(Vec3(0.12, 1.2, 0.0), ZERO3)
  {
    hide Innovation, Predict, EulerStep, Apply, Transition, Sound, Stacked, ProcessNoise, Identity;
    hide Quat.Normalized, Quat.NormSq, Vec3.Minus, Vec3.Plus, Vec3.Cross, Vec3.Scaled, IsSqrt;
    InitialSound();
    MisfitIsUnit();
    MisfitTurn();
    MisfitMove();
    InnovationFromMisfit();
    var p, omega := Quat(0.8, 0.0, 0.6, 0.0), Vec3(0.0, 0.0, 1.0);
    TransitionAction(omega, 0.1, Vec3(0.0, 1.2, 0.0), ZERO3);
    PredictionKeepsInnovation(Initial(), p, omega, 0.1, ProcessNoise(), sqrt);
  }

  // ---------- The error on the other side ----------

  // u* e u for u = (1, a, b, c) and e = (w, x, y, z), in two products.  Each component has a name, so that
  // only the lemmas about numbers see the products inside.

  function Lean(x: real, a: real, w: real, b: real, z: real, c: real, y: real): real {
    x - Times(a, w) - (Times(b, z) - Times(c, y))
  }

  function Meet(s: real, i: real, a: real, j: real, b: real, k: real, c: real): real {
    s - Times(i, a) - Times(j, b) - Times(k, c)
  }

  function Join(i: real, s: real, a: real, j: real, c: real, k: real, b: real): real {
    i + Times(s, a) + Times(j, c) - Times(k, b)
  }

  function First(a: real, b: real, c: real, e: Quat): Quat {
    Quat(e.w + Sum3(a, e.x, b, e.y, c, e.z), Lean(e.x, a, e.w, b, e.z, c, e.y),
         Lean(e.y, b, e.w, c, e.x, a, e.z), Lean(e.z, c, e.w, a, e.y, b, e.x))
  }

  function Second(a: real, b: real, c: real, f: Quat): Quat {
    Quat(Meet(f.w, f.x, a, f.y, b, f.z, c), Join(f.x, f.w, a, f.y, c, f.z, b),
         Join(f.y, f.w, b, f.z, a, f.x, c), Join(f.z, f.w, c, f.x, b, f.y, a))
  }

  lemma FirstProduct(a: real, b: real, c: real, e: Quat)
    ensures Quat(1.0, a, b, c).Conjugate().Times(e) == First(a, b, c, e)
  {
    hide Dot4, Sum3, Lean;
    FirstScalar(a, b, c, e.w, e.x, e.y, e.z);
    FirstX(a, b, c, e.w, e.x, e.y, e.z);
    FirstY(a, b, c, e.w, e.x, e.y, e.z);
    FirstZ(a, b, c, e.w, e.x, e.y, e.z);
  }

  lemma FirstScalar(a: real, b: real, c: real, w: real, x: real, y: real, z: real)
    ensures Dot4(1.0, w, -(-a), x, -(-b), y, -(-c), z) == w + Sum3(a, x, b, y, c, z)
  {
  }

  lemma FirstX(a: real, b: real, c: real, w: real, x: real, y: real, z: real)
    ensures Dot4(-a, w, 1.0, x, -b, z, -(-c), y) == Lean(x, a, w, b, z, c, y)
  {
  }

  lemma FirstY(a: real, b: real, c: real, w: real, x: real, y: real, z: real)
    ensures Dot4(-b, w, -(-a), z, 1.0, y, -c, x) == Lean(y, b, w, c, x, a, z)
  {
  }

  lemma FirstZ(a: real, b: real, c: real, w: real, x: real, y: real, z: real)
    ensures Dot4(-c, w, -a, y, -(-b), x, 1.0, z) == Lean(z, c, w, a, y, b, x)
  {
  }

  lemma SecondProduct(a: real, b: real, c: real, f: Quat)
    ensures f.Times(Quat(1.0, a, b, c)) == Second(a, b, c, f)
  {
    hide Dot4, Meet, Join;
    SecondScalar(a, b, c, f.w, f.x, f.y, f.z);
    SecondX(a, b, c, f.w, f.x, f.y, f.z);
    SecondY(a, b, c, f.w, f.x, f.y, f.z);
    SecondZ(a, b, c, f.w, f.x, f.y, f.z);
  }

  lemma SecondScalar(a: real, b: real, c: real, w: real, x: real, y: real, z: real)
    ensures Dot4(w, 1.0, -x, a, -y, b, -z, c) == Meet(w, x, a, y, b, z, c)
  {
  }

  lemma SecondX(a: real, b: real, c: real, w: real, x: real, y: real, z: real)
    ensures Dot4(x, 1.0, w, a, y, c, -z, b) == Join(x, w, a, y, c, z, b)
  {
  }

  lemma SecondY(a: real, b: real, c: real, w: real, x: real, y: real, z: real)
    ensures Dot4(y, 1.0, -x, c, w, b, z, a) == Join(y, w, b, z, a, x, c)
  {
  }

  lemma SecondZ(a: real, b: real, c: real, w: real, x: real, y: real, z: real)
    ensures Dot4(z, 1.0, x, b, -y, a, w, c) == Join(z, w, c, x, b, y, a)
  {
  }

  lemma Expand(j: real, y: real, m: real, n: real, c: real)
    requires j == y - m - n
    ensures Times(j, c) == Times(c, y) - Times(m, c) - Times(n, c)
  {
  }

  lemma SumTimes(w: real, d: real, a: real)
    ensures Times(w + d, a) == Times(a, w) + Times(d, a)
  {
  }

  lemma SwapFactors(b: real, c: real, w: real)
    ensures Times(Times(b, w), c) == Times(Times(c, w), b)
  {
  }

  lemma CrossIsOrthogonal(a: real, b: real, c: real, x: real, y: real, z: real)
    ensures Times(Times(b, z) - Times(c, y), a) + Times(Times(c, x) - Times(a, z), b)
            + Times(Times(a, y) - Times(b, x), c)
         == 0.0
  {
  }

  lemma Distribute(w: real, a: real, b: real, c: real)
    ensures w * (1.0 + Sum3(a, a, b, b, c, c))
         == w + Times(Times(a, w), a) + Times(Times(b, w), b) + Times(Times(c, w), c)
  {
  }

  lemma ScalarOfTurn(a: real, b: real, c: real, w: real, x: real, y: real, z: real)
    ensures Meet(w + Sum3(a, x, b, y, c, z), Lean(x, a, w, b, z, c, y), a, Lean(y, b, w, c, x, a, z), b,
                 Lean(z, c, w, a, y, b, x), c)
         == w * (1.0 + Sum3(a, a, b, b, c, c))
  {
    hide Times, Sum3;
    Expand(Lean(x, a, w, b, z, c, y), x, Times(a, w), Times(b, z) - Times(c, y), a);
    Expand(Lean(y, b, w, c, x, a, z), y, Times(b, w), Times(c, x) - Times(a, z), b);
    Expand(Lean(z, c, w, a, y, b, x), z, Times(c, w), Times(a, y) - Times(b, x), c);
    Sum3Times(a, x, b, y, c, z);
    CrossIsOrthogonal(a, b, c, x, y, z);
    Distribute(w, a, b, c);
  }

  /** One component of v - 2 h x v + 2 (h . v) h - |h|^2 v. */
  function Spun(a: real, b: real, c: real, x: real, y: real, z: real): real {
    x - 2.0 * (Times(b, z) - Times(c, y)) + (2.0 * Times(Sum3(a, x, b, y, c, z), a) - Times(Sum3(a, a, b, b, c, c), x))
  }

  lemma SpinRest(a: real, b: real, c: real, x: real, y: real, z: real)
    ensures Times(Times(c, x) - Times(a, z), c) - Times(Times(a, y) - Times(b, x), b)
         == Times(Sum3(a, a, b, b, c, c), x) - Times(Sum3(a, x, b, y, c, z), a)
  {
  }

  lemma VectorOfTurn(a: real, b: real, c: real, w: real, x: real, y: real, z: real)
    ensures Join(Lean(x, a, w, b, z, c, y), w + Sum3(a, x, b, y, c, z), a, Lean(y, b, w, c, x, a, z), c,
                 Lean(z, c, w, a, y, b, x), b)
         == Spun(a, b, c, x, y, z)
  {
    hide Times, Sum3;
    Expand(Lean(y, b, w, c, x, a, z), y, Times(b, w), Times(c, x) - Times(a, z), c);
    Expand(Lean(z, c, w, a, y, b, x), z, Times(c, w), Times(a, y) - Times(b, x), b);
    SumTimes(w, Sum3(a, x, b, y, c, z), a);
    SwapFactors(b, c, w);
    SpinRest(a, b, c, x, y, z);
  }

  lemma TurnedNumbers(a: real, b: real, c: real, e: Quat)
    ensures Second(a, b, c, First(a, b, c, e))
         == Quat(e.w * (1.0 + Sum3(a, a, b, b, c, c)), Spun(a, b, c, e.x, e.y, e.z), Spun(b, c, a, e.y, e.z, e.x),
                 Spun(c, a, b, e.z, e.x, e.y))
  {
    hide Sum3, Lean, Meet, Join, Spun;
    Sum3Cycle(a, e.x, b, e.y, c, e.z);
    ScalarOfTurn(a, b, c, e.w, e.x, e.y, e.z);
    VectorOfTurn(a, b, c, e.w, e.x, e.y, e.z);
    VectorOfTurn(b, c, a, e.w, e.y, e.z, e.x);
    VectorOfTurn(c, a, b, e.w, e.z, e.x, e.y);
  }

  /** The part of the turned error of second order in the half step h. */
  function SecondOrder(h: Vec3, v: Vec3): Vec3 {
    h.Scaled(2.0 * h.Dot(v)).Minus(v.Scaled(h.NormSq()))
  }

  lemma Turned(h: Vec3, e: Quat)
    ensures var u := Quat(1.0, h.x, h.y, h.z);
            var r := u.Conjugate().Times(e).Times(u);
            && r.w == e.w * (1.0 + h.NormSq())
            && r.Vector() == e.Vector().Minus(h.Cross(e.Vector()).Scaled(2.0)).Plus(SecondOrder(h, e.Vector()))
  {
    hide Quat.Times, Quat.Conjugate, First, Second, Sum3, Spun, SecondOrder;
    hide Vec3.NormSq, Vec3.Plus, Vec3.Minus, Vec3.Cross, Vec3.Scaled;
    FirstProduct(h.x, h.y, h.z, e);
    SecondProduct(h.x, h.y, h.z, First(h.x, h.y, h.z, e));
    TurnedNumbers(h.x, h.y, h.z, e);
    DotIsSum3(h, h);
    SpunVector(h, e.Vector());
  }

  lemma CrossParts(h: Vec3, v: Vec3)
    ensures h.Cross(v).x == Times(h.y, v.z) - Times(h.z, v.y)
    ensures h.Cross(v).y == Times(h.z, v.x) - Times(h.x, v.z)
    ensures h.Cross(v).z == Times(h.x, v.y) - Times(h.y, v.x)
  {
  }

  lemma SecondOrderParts(h: Vec3, v: Vec3)
    ensures var d, n, s := Sum3(h.x, v.x, h.y, v.y, h.z, v.z), Sum3(h.x, h.x, h.y, h.y, h.z, h.z), SecondOrder(h, v);
            && s.x == 2.0 * Times(d, h.x) - Times(n, v.x)
            && s.y == 2.0 * Times(d, h.y) - Times(n, v.y)
            && s.z == 2.0 * Times(d, h.z) - Times(n, v.z)
  {
    DotIsSum3(h, v);
    DotIsSum3(h, h);
    hide Vec3.Dot, Vec3.NormSq, Sum3;
    Doubled(h.Dot(v), h.x);
    Doubled(h.Dot(v), h.y);
    Doubled(h.Dot(v), h.z);
  }

  lemma Doubled(d: real, a: real)
    ensures (2.0 * d) * a == 2.0 * Times(d, a)
  {
  }

  lemma SpunVector(h: Vec3, v: Vec3)
    ensures v.Minus(h.Cross(v).Scaled(2.0)).Plus(SecondOrder(h, v))
         == Vec3(Spun(h.x, h.y, h.z, v.x, v.y, v.z), Spun(h.y, h.z, h.x, v.y, v.z, v.x),
                 Spun(h.z, h.x, h.y, v.z, v.x, v.y))
  {
    hide Vec3.Cross, SecondOrder, Times, Sum3;
    CrossParts(h, v);
    SecondOrderParts(h, v);
    Sum3Cycle(h.x, v.x, h.y, v.y, h.z, v.z);
    Sum3Cycle(h.x, h.x, h.y, h.y, h.z, h.z);
  }

  /** Seen from the body, as q^-1 p, the error does follow the first block of Phi: one step turns it as
      Phi does, but for terms of second order in the step and the divisor of the normalisation. */
  lemma BodyErrorFollowsTransition(p: Quat, q: Quat, omega: Vec3, dt: real)
    requires q.NormSq() > 0.0
    ensures var h := omega.Scaled(dt).Scaled(0.5);
            var e, e' := q.Inverse().Times(p), EulerStep(q, omega, dt).Inverse().Times(EulerStep(p, omega, dt));
            var v := e.Vector();
            && e'.Scaled(1.0 + h.NormSq()).w == e.w * (1.0 + h.NormSq())
            && e'.Scaled(1.0 + h.NormSq()).Vector() == v.Minus(h.Cross(v).Scaled(2.0)).Plus(SecondOrder(h, v))
            && Apply(Transition(omega, dt), Stacked(v, ZERO3)) == Stacked(v.Minus(h.Cross(v).Scaled(2.0)), ZERO3)
  {
    hide Quat.Times, Quat.Inverse, Quat.NormSq, EulerStep, SmallRotation, Apply, Transition, Quat.Conjugate;
    var u, h := SmallRotation(omega.Scaled(dt)), omega.Scaled(dt).Scaled(0.5);
    var e := q.Inverse().Times(p);
    EulerStepIsProduct(p, omega, dt);
    EulerStepIsProduct(q, omega, dt);
    HalfStepFactor(omega, dt);
    RightFactorTurns(p, q, u, u);
    InverseTurn(u, e, u);
    Turned(h, e);
    TransitionAction(omega, dt, e.Vector(), ZERO3);
    SameTurn(omega, dt, e.Vector());
  }

  /** A bias error beta, at no attitude error, enters the error seen from the body as the second block of
      Phi says, again but for terms of second order in the step. */
  lemma BodyErrorGathersBias(q: Quat, omega: Vec3, beta: Vec3, dt: real)
    requires q.NormSq() > 0.0
    ensures var h := omega.Scaled(dt).Scaled(0.5);
            var d := beta.Scaled(dt).Scaled(0.5);
            var e' := EulerStep(q, omega, dt).Inverse().Times(EulerStep(q, omega.Minus(beta), dt));
            && e'.Scaled(1.0 + h.NormSq()).Vector().Scaled(2.0) == d.Scaled(-2.0).Plus(h.Cross(d).Scaled(2.0))
            && Apply(Transition(omega, dt), Stacked(ZERO3, beta)) == Stacked(d.Scaled(-2.0), beta)
  {
    hide Quat.Times, Quat.Inverse, Quat.NormSq, EulerStep, SmallRotation, Apply, Transition, Quat.Conjugate;
    var u, v := SmallRotation(omega.Scaled(dt)), SmallRotation(omega.Minus(beta).Scaled(dt));
    EulerStepIsProduct(q, omega, dt);
    EulerStepIsProduct(q, omega.Minus(beta), dt);
    HalfStepFactor(omega, dt);
    RightFactorTurns(q, q, u, v);
    InverseIsInverse(q);
    InverseTurn(u, IDENTITY, v);
    TimesIdentity(u.Conjugate());
    BiasNumbers(omega, beta, dt);
    TransitionAction(omega, dt, ZERO3, beta);
    BiasMove(omega, beta, dt);
  }

  lemma HalfStepFactor(omega: Vec3, dt: real)
    ensures var h, u := omega.Scaled(dt).Scaled(0.5), SmallRotation(omega.Scaled(dt));
            u == Quat(1.0, h.x, h.y, h.z) && u.NormSq() == 1.0 + h.NormSq() && u.NormSq() > 0.0
  {
  }

  lemma InverseTurn(u: Quat, e: Quat, v: Quat)
    requires u.NormSq() > 0.0
    ensures u.Inverse().Times(e).Times(v).Scaled(u.NormSq()) == u.Conjugate().Times(e).Times(v)
  {
    hide Quat.Times, Quat.Inverse, Quat.NormSq, Quat.Conjugate;
    var n := u.NormSq();
    InverseScales(u);
    ScaledTimes(u.Conjugate(), e, 1.0 / n);
    ScaledTimes(u.Conjugate().Times(e), v, 1.0 / n);
    ScaledBack(u.Conjugate().Times(e).Times(v), 1.0 / n, n);
  }

  lemma ScaledBack(q: Quat, r: real, n: real)
    requires r * n == 1.0
    ensures q.Scaled(r).Scaled(n) == q
  {
    Undo(q.w, r, n);
    Undo(q.x, r, n);
    Undo(q.y, r, n);
    Undo(q.z, r, n);
  }

  lemma Undo(a: real, r: real, n: real)
    requires r * n == 1.0
    ensures n * (r * a) == a
  {
    assert n * (r * a) == (r * n) * a;
  }

  lemma CrossScales(u: Vec3, v: Vec3, k: real)
    ensures u.Scaled(k).Cross(v) == u.Cross(v).Scaled(k)
  {
    hide Vec3.Cross, Times;
    var s, c := u.Scaled(k), u.Cross(v);
    CrossParts(s, v);
    CrossParts(u, v);
    ProductsScale(k, u.y, v.z, u.z, v.y, s.y, s.z, c.x);
    ProductsScale(k, u.z, v.x, u.x, v.z, s.z, s.x, c.y);
    ProductsScale(k, u.x, v.y, u.y, v.x, s.x, s.y, c.z);
  }

  lemma ProductsScale(k: real, a: real, x: real, b: real, y: real, a': real, b': real, r: real)
    requires a' == k * a && b' == k * b && r == Times(a, x) - Times(b, y)
    ensures Times(a', x) - Times(b', y) == k * r
  {
    assert a' * x == k * (a * x) && b' * y == k * (b * y);
  }

  lemma SameTurn(omega: Vec3, dt: real, v: Vec3)
    ensures v.Plus(omega.Cross(v).Scaled(-1.0).Minus(ZERO3).Scaled(dt))
         == v.Minus(omega.Scaled(dt).Scaled(0.5).Cross(v).Scaled(2.0))
  {
    hide Vec3.Cross;
    CrossScales(omega.Scaled(dt), v, 0.5);
    CrossScales(omega, v, dt);
  }

  lemma ConjugateProduct(h: Vec3, g: Vec3)
    ensures Quat(1.0, h.x, h.y, h.z).Conjugate().Times(Quat(1.0, g.x, g.y, g.z)).Vector()
         == g.Minus(h).Minus(h.Cross(g))
  {
    hide Quat.Times, Quat.Conjugate;
    FirstProduct(h.x, h.y, h.z, Quat(1.0, g.x, g.y, g.z));
  }

  lemma BiasNumbers(omega: Vec3, beta: Vec3, dt: real)
    ensures var h, d := omega.Scaled(dt).Scaled(0.5), beta.Scaled(dt).Scaled(0.5);
            var u, v := SmallRotation(omega.Scaled(dt)), SmallRotation(omega.Minus(beta).Scaled(dt));
            u.Conjugate().Times(v).Vector().Scaled(2.0) == d.Scaled(-2.0).Plus(h.Cross(d).Scaled(2.0))
  {
    var h, d := omega.Scaled(dt).Scaled(0.5), beta.Scaled(dt).Scaled(0.5);
    var g := h.Minus(d);
    assert SmallRotation(omega.Scaled(dt)) == Quat(1.0, h.x, h.y, h.z);
    assert SmallRotation(omega.Minus(beta).Scaled(dt)) == Quat(1.0, g.x, g.y, g.z);
    ConjugateProduct(h, g);
    hide Quat.Times, Quat.Conjugate, SmallRotation;
    CrossOfDifference(h, d);
  }

  lemma CrossOfDifference(h: Vec3, d: Vec3)
    ensures h.Cross(h.Minus(d)) == h.Cross(d).Scaled(-1.0)
  {
    DifferenceProducts(h.y, h.z, d.z, d.y);
    DifferenceProducts(h.z, h.x, d.x, d.z);
    DifferenceProducts(h.x, h.y, d.y, d.x);
  }

  lemma DifferenceProducts(a: real, b: real, c: real, d: real)
    ensures a * (b - c) - b * (a - d) == -1.0 * (a * c - b * d)
  {
  }

  lemma BiasMove(omega: Vec3, beta: Vec3, dt: real)
    ensures ZERO3.Plus(omega.Cross(ZERO3).Scaled(-1.0).Minus(beta).Scaled(dt))
         == beta.Scaled(dt).Scaled(0.5).Scaled(-2.0)
  {
  }

  // ---------- The measured error under a bias error ----------

  /** The vector v turned by the attitude q, as q (0, v) q^-1. */
  function Turn(q: Quat, v: Vec3): Vec3 {
    q.Times(Quat(0.0, v.x, v.y, v.z)).Times(q.Inverse()).Vector()
  }

  /** One step of truth p and estimate q at different rates, with step factors v and u: the measured
      quotient is multiplied by v u^-1, turned by the estimate. */
  lemma StepMultipliesQuotient(p: Quat, q: Quat, u: Quat, v: Quat)
    requires q.NormSq() > 0.0 && u.NormSq() > 0.0
    ensures p.Times(v).Times(q.Times(u).Inverse())
         == p.Times(q.Inverse()).Times(q.Times(v.Times(u.Inverse())).Times(q.Inverse()))
  {
    hide Quat.Times, Quat.Inverse, Quat.NormSq;
    var e, qi, ui := v.Times(u.Inverse()), q.Inverse(), u.Inverse();
    InverseOfProduct(q, u);
    TimesAssociative(p, v, ui.Times(qi));
    TimesAssociative(v, ui, qi);
    TimesAssociative(p.Times(qi), q.Times(e), qi);
    TimesAssociative(p.Times(qi), q, e);
    TimesAssociative(p, qi, q);
    InverseIsInverse(q);
    TimesIdentity(p);
    TimesAssociative(p, e, qi);
  }

  /** What a prediction does to the measured error when the filter's bias is wrong by beta, from any
      attitude error: the innovation is that of the old quotient times the step that the bias error adds,
      turned by the estimated attitude. */
  lemma PredictionGathersBias(s: Estimate, p: Quat, gyro: Vec3, beta: Vec3, dt: real, Q: Matrix, sqrt: real -> real)
    requires IsSqrt(sqrt) && Sound(s) && p.IsUnit() && Shape(Q, 6, 6)
    ensures var omega := gyro.Minus(s.beta);
            var u := SmallRotation(omega.Scaled(dt)).Normalized(sqrt);
            var v := SmallRotation(omega.Minus(beta).Scaled(dt)).Normalized(sqrt);
            var truth := EulerStep(p, omega.Minus(beta), dt).Normalized(sqrt);
            Innovation(Predict(s, gyro, dt, Q, sqrt).q, truth)
            == ShortPath(p.Times(s.q.Inverse()).Times(s.q.Times(v.Times(u.Inverse())).Times(s.q.Inverse())))
  {
    var omega := gyro.Minus(s.beta);
    NormalizedStep(p, omega.Minus(beta), dt, sqrt);
    NormalizedStep(s.q, omega, dt, sqrt);
    hide Quat.Times, Quat.Inverse, EulerStep, SmallRotation, Quat.Normalized, PredictedCovariance;
    StepMultipliesQuotient(p, s.q, SmallRotation(omega.Scaled(dt)).Normalized(sqrt),
                           SmallRotation(omega.Minus(beta).Scaled(dt)).Normalized(sqrt));
  }

  lemma ScalarTimes(q: Quat, w: real)
    ensures q.Times(Quat(w, 0.0, 0.0, 0.0)) == q.Scaled(w)
    ensures IDENTITY.Scaled(w) == Quat(w, 0.0, 0.0, 0.0)
  {
  }

  /** Turning a quaternion keeps its scalar part and turns its vector part. */
  lemma TurnOfQuaternion(q: Quat, e: Quat)
    requires q.NormSq() > 0.0
    ensures q.Times(e).Times(q.Inverse()).w == e.w
    ensures q.Times(e).Times(q.Inverse()).Vector() == Turn(q, e.Vector())
  {
    var v, k := Quat(0.0, e.x, e.y, e.z), Quat(e.w, 0.0, 0.0, 0.0);
    assert e == k.Plus(v);
    ScalarTimes(q, e.w);
    hide Quat.Times, Quat.Inverse, Quat.NormSq;
    var qi := q.Inverse();
    TimesPlus(q, k, v);
    PlusTimes(q.Times(k), q.Times(v), qi);
    ScaledTimes(q, qi, e.w);
    InverseIsInverse(q);
    SameScalar(q.Times(v), qi);
    TimesAssociative(qi, q, v);
    IdentityTimes(v);
  }

  lemma VectorScales(q: Quat, k: real)
    ensures q.Scaled(k).Vector() == q.Vector().Scaled(k)
    ensures var v := q.Vector().Scaled(k);
            Quat(0.0, q.x, q.y, q.z).Scaled(k) == Quat(0.0, v.x, v.y, v.z)
  {
  }

  lemma TurnScales(q: Quat, v: Vec3, k: real)
    ensures Turn(q, v.Scaled(k)) == Turn(q, v).Scaled(k)
  {
    var e, qi := Quat(0.0, v.x, v.y, v.z), q.Inverse();
    assert e.Vector() == v;
    VectorScales(e, k);
    VectorScales(q.Times(e).Times(qi), k);
    hide Quat.Times, Quat.Inverse, Quat.Scaled, Vec3.Scaled, Quat.Vector;
    ScaledTimes(q, e, k);
    ScaledTimes(q.Times(e), qi, k);
  }

  lemma VectorAdds(p: Quat, q: Quat)
    ensures p.Plus(q).Vector() == p.Vector().Plus(q.Vector())
    ensures var v := p.Vector().Plus(q.Vector());
            Quat(0.0, p.x, p.y, p.z).Plus(Quat(0.0, q.x, q.y, q.z)) == Quat(0.0, v.x, v.y, v.z)
  {
  }

  lemma TurnAdds(q: Quat, u: Vec3, v: Vec3)
    ensures Turn(q, u.Plus(v)) == Turn(q, u).Plus(Turn(q, v))
  {
    var a, b, qi := Quat(0.0, u.x, u.y, u.z), Quat(0.0, v.x, v.y, v.z), q.Inverse();
    assert a.Vector() == u && b.Vector() == v;
    VectorAdds(a, b);
    VectorAdds(q.Times(a).Times(qi), q.Times(b).Times(qi));
    hide Quat.Times, Quat.Inverse, Quat.Plus, Vec3.Plus, Quat.Vector;
    TimesPlus(q, a, b);
    PlusTimes(q.Times(a), q.Times(b), qi);
  }

  lemma TwiceBiasStep(d: Vec3, c: Vec3)
    ensures d.Scaled(-1.0).Plus(c).Scaled(2.0) == d.Scaled(-2.0).Plus(c.Scaled(2.0))
  {
  }

  // The product of (1, h - d) and the conjugate of (1, h), with h = (a, b, c) and d = (e, f, g).

  lemma DifferenceTimes(p: real, q: real, r: real)
    ensures Times(-(p - q), -r) == Times(p, r) - Times(q, r)
    ensures Times(p - q, -r) == Times(q, r) - Times(p, r)
    ensures Times(p, r) == Times(r, p)
  {
  }

  lemma OneTimes(p: real)
    ensures Times(1.0, p) == p == Times(p, 1.0)
  {
  }

  lemma Dot4Times(a: real, p: real, b: real, q: real, c: real, r: real, d: real, s: real)
    ensures Dot4(a, p, b, q, c, r, d, s) == Times(a, p) + Times(b, q) + Times(c, r) + Times(d, s)
  {
  }

  lemma BiasW(a: real, b: real, c: real, e: real, f: real, g: real)
    ensures Dot4(1.0, 1.0, -(a - e), -a, -(b - f), -b, -(c - g), -c)
         == 1.0 + Sum3(a, a, b, b, c, c) - Sum3(e, a, f, b, g, c)
  {
    hide Dot4, Times, Sum3;
    Dot4Times(1.0, 1.0, -(a - e), -a, -(b - f), -b, -(c - g), -c);
    Sum3Times(a, a, b, b, c, c);
    Sum3Times(e, a, f, b, g, c);
    OneTimes(1.0);
    DifferenceTimes(a, e, a);
    DifferenceTimes(b, f, b);
    DifferenceTimes(c, g, c);
  }

  lemma BiasX(a: real, b: real, c: real, e: real, f: real, g: real)
    ensures Dot4(a - e, 1.0, 1.0, -a, b - f, -c, -(c - g), -b) == -e + (Times(f, c) - Times(g, b))
  {
    hide Dot4, Times;
    Dot4Times(a - e, 1.0, 1.0, -a, b - f, -c, -(c - g), -b);
    OneTimes(a - e);
    OneTimes(-a);
    DifferenceTimes(b, f, c);
    DifferenceTimes(c, g, b);
  }

  lemma BiasY(a: real, b: real, c: real, e: real, f: real, g: real)
    ensures Dot4(b - f, 1.0, -(a - e), -c, 1.0, -b, c - g, -a) == -f + (Times(g, a) - Times(e, c))
  {
    hide Dot4, Times;
    Dot4Times(b - f, 1.0, -(a - e), -c, 1.0, -b, c - g, -a);
    OneTimes(b - f);
    OneTimes(-b);
    DifferenceTimes(a, e, c);
    DifferenceTimes(c, g, a);
  }

  lemma BiasZ(a: real, b: real, c: real, e: real, f: real, g: real)
    ensures Dot4(c - g, 1.0, a - e, -b, -(b - f), -a, 1.0, -c) == -g + (Times(e, b) - Times(f, a))
  {
    hide Dot4, Times;
    Dot4Times(c - g, 1.0, a - e, -b, -(b - f), -a, 1.0, -c);
    OneTimes(c - g);
    OneTimes(-c);
    DifferenceTimes(a, e, b);
    DifferenceTimes(b, f, a);
  }

  lemma BiasStepNumbers(h: Vec3, d: Vec3)
    ensures var g := h.Minus(d);
            var r := Quat(1.0, g.x, g.y, g.z).Times(Quat(1.0, h.x, h.y, h.z).Conjugate());
            r.Vector() == d.Scaled(-1.0).Plus(d.Cross(h)) && r.w == 1.0 + h.NormSq() - d.Dot(h)
  {
    hide Dot4, Times, Sum3, Vec3.Cross, Vec3.Dot, Vec3.NormSq;
    BiasW(h.x, h.y, h.z, d.x, d.y, d.z);
    BiasX(h.x, h.y, h.z, d.x, d.y, d.z);
    BiasY(h.x, h.y, h.z, d.x, d.y, d.z);
    BiasZ(h.x, h.y, h.z, d.x, d.y, d.z);
    CrossParts(d, h);
    DotIsSum3(h, h);
    DotIsSum3(d, h);
  }

  lemma TurnInverse(v: Quat, u: Quat)
    requires u.NormSq() > 0.0
    ensures v.Times(u.Inverse()).Scaled(u.NormSq()) == v.Times(u.Conjugate())
  {
    hide Quat.Times, Quat.Inverse, Quat.NormSq, Quat.Conjugate;
    var n := u.NormSq();
    InverseScales(u);
    ScaledTimes(v, u.Conjugate(), 1.0 / n);
    ScaledBack(v.Times(u.Conjugate()), 1.0 / n, n);
  }

  /** At no attitude error, a bias error beta enters the measured error turned by the attitude: its vector
      part, times the divisor 1 + |h|^2, is the turned -beta dt but for a term of second order in the step. */
  lemma MeasuredErrorGathersBias(q: Quat, omega: Vec3, beta: Vec3, dt: real)
    requires q.NormSq() > 0.0
    ensures var h, d := omega.Scaled(dt).Scaled(0.5), beta.Scaled(dt).Scaled(0.5);
            var quotient := EulerStep(q, omega.Minus(beta), dt).Times(EulerStep(q, omega, dt).Inverse());
            var e' := quotient.Scaled(1.0 + h.NormSq());
            && e'.w == 1.0 + h.NormSq() - d.Dot(h)
            && e'.Vector().Scaled(2.0) == Turn(q, d.Scaled(-2.0)).Plus(Turn(q, d.Cross(h).Scaled(2.0)))
  {
    var h, d := omega.Scaled(dt).Scaled(0.5), beta.Scaled(dt).Scaled(0.5);
    var u, v := SmallRotation(omega.Scaled(dt)), SmallRotation(omega.Minus(beta).Scaled(dt));
    HalfStepFactor(omega, dt);
    BiasFactor(omega, beta, dt);
    BiasStepNumbers(h, d);
    EulerStepIsProduct(q, omega, dt);
    EulerStepIsProduct(q, omega.Minus(beta), dt);
    hide Quat.Times, Quat.Inverse, Quat.NormSq, Quat.Conjugate, EulerStep, SmallRotation, Turn, Vec3.NormSq, Vec3.Dot;
    hide Vec3.Cross, Vec3.Minus, Vec3.Plus;
    var e := v.Times(u.Inverse());
    StepMultipliesQuotient(q, q, u, v);
    InverseIsInverse(q);
    IdentityTimes(q.Times(e).Times(q.Inverse()));
    ScaledTimes(q.Times(e), q.Inverse(), u.NormSq());
    ScaledTimes(q, e, u.NormSq());
    TurnInverse(v, u);
    TurnOfQuaternion(q, v.Times(u.Conjugate()));
    TurnScales(q, d.Scaled(-1.0).Plus(d.Cross(h)), 2.0);
    TwiceBiasStep(d, d.Cross(h));
    TurnAdds(q, d.Scaled(-2.0), d.Cross(h).Scaled(2.0));
  }

  lemma BiasFactor(omega: Vec3, beta: Vec3, dt: real)
    ensures var h, d := omega.Scaled(dt).Scaled(0.5), beta.Scaled(dt).Scaled(0.5);
            var g := h.Minus(d);
            SmallRotation(omega.Minus(beta).Scaled(dt)) == Quat(1.0, g.x, g.y, g.z)
  {
  }

  lemma BiasMoveScaled(beta: Vec3, dt: real)
    ensures beta.Scaled(dt).Scaled(0.5).Scaled(-2.0) == beta.Scaled(-dt)
  {
  }

  lemma SameMultiple(a: Vec3, b: Vec3, k: real)
    ensures a.Scaled(k) == b.Scaled(k) <==> k == 0.0 || a == b
  {
    SameMultiples(a.x, b.x, k);
    SameMultiples(a.y, b.y, k);
    SameMultiples(a.z, b.z, k);
  }

  lemma SameMultiples(a: real, b: real, k: real)
    ensures k * a == k * b <==> k == 0.0 || a == b
  {
    if k != 0.0 && k * a == k * b {
      assert a == (k * a) / k && b == (k * b) / k;
    }
  }

  /** The second block of Phi gives the term of first order in the measured error if and only if no time
      passes or the attitude leaves the bias error as it is. */
  lemma TransitionFitsBias(q: Quat, omega: Vec3, beta: Vec3, dt: real)
    ensures var d := beta.Scaled(dt).Scaled(0.5);
            Apply(Transition(omega, dt), Stacked(ZERO3, beta)) == Stacked(Turn(q, d.Scaled(-2.0)), beta) <==>
              dt == 0.0 || Turn(q, beta) == beta
  {
    hide Apply, Transition, Turn, Stacked, Vec3.Scaled, Vec3.Minus, Vec3.Plus, Vec3.Cross;
    TransitionAction(omega, dt, ZERO3, beta);
    BiasMove(omega, beta, dt);
    BiasMoveScaled(beta, dt);
    TurnScales(q, beta, -dt);
    SameStack(beta.Scaled(-dt), Turn(q, beta).Scaled(-dt), beta);
    SameMultiple(beta, Turn(q, beta), -dt);
  }

  lemma MisfitAttitude(q: Quat)
    requires q == Quat(0.6, 0.0, 0.0, 0.8)
    ensures q.IsUnit() && q.Inverse() == Quat(0.6, 0.0, 0.0, -0.8)
  {
  }

  lemma MisfitFactor(v: Quat)
    requires v == Quat(1.0, -0.05, 0.0, 0.0)
    ensures v.NormSq() >= 1.0
  {
  }

  lemma MisfitProduct(q: Quat, v: Quat)
    requires q == Quat(0.6, 0.0, 0.0, 0.8) && v == Quat(1.0, -0.05, 0.0, 0.0)
    ensures q.Times(v) == Quat(0.6, -0.03, -0.04, 0.8)
  {
  }

  lemma MisfitQuotient(p: Quat, r: Quat)
    requires p == Quat(0.6, -0.03, -0.04, 0.8) && r == Quat(0.6, 0.0, 0.0, -0.8)
    ensures p.Times(r) == Quat(1.0, 0.014, -0.048, 0.0)
  {
  }

  lemma NoRate(zero: Vec3)
    requires zero == ZERO3
    ensures zero.Minus(zero) == zero && zero.Cross(zero).Scaled(-1.0) == zero
    ensures SmallRotation(zero.Scaled(0.1)) == IDENTITY
  {
  }

  lemma MisfitRate(zero: Vec3, beta: Vec3)
    requires zero == ZERO3 && beta == Vec3(1.0, 0.0, 0.0)
    ensures zero.Minus(beta) == Vec3(-1.0, 0.0, 0.0)
  {
  }

  lemma MisfitMoved(rate: Vec3)
    requires rate == Vec3(-1.0, 0.0, 0.0)
    ensures rate.Scaled(0.1) == Vec3(-0.1, 0.0, 0.0)
  {
  }

  lemma HalfTurn(turn: Vec3, x: real, y: real)
    requires turn.x == x && turn.y == 0.0 && turn.z == 0.0 && y == x * 0.5
    ensures SmallRotation(turn) == Quat(1.0, y, 0.0, 0.0) && ZERO3.Plus(turn) == turn
  {
  }

  lemma ShortPathScaled(e: Quat, k: real)
    requires e == Quat(1.0, 0.014, -0.048, 0.0) && k > 0.0
    ensures ShortPath(e.Scaled(k)) == Vec3(0.028, -0.096, 0.0).Scaled(k)
  {
    TwiceScaled(0.014, k);
    TwiceScaled(-0.048, k);
  }

  lemma TwiceScaled(a: real, k: real)
    ensures 2.0 * (k * a) == k * (2.0 * a)
  {
  }

  lemma NormalizedByRoot(v: Quat, sqrt: real -> real) returns (k: real)
    requires IsSqrt(sqrt) && v.NormSq() >= 1.0
    ensures 0.0 < k <= 1.0 && v.Normalized(sqrt) == v.Scaled(k)
  {
    RootAtLeastOne(v.NormSq(), sqrt);
    k := 1.0 / sqrt(v.NormSq());
  }

  lemma NoInnovation(q: Quat)
    requires q.NormSq() > 0.0
    ensures Innovation(q, q) == ZERO3
  {
    hide Quat.Times, Quat.Inverse, Quat.NormSq;
    InverseIsInverse(q);
  }

  lemma MisfitStep(zero: Vec3, beta: Vec3)
    requires zero == ZERO3 && beta == Vec3(1.0, 0.0, 0.0)
    ensures var turn := zero.Minus(beta).Scaled(0.1);
            && turn == Vec3(-0.1, 0.0, 0.0) == zero.Plus(turn)
            && SmallRotation(turn) == Quat(1.0, -0.05, 0.0, 0.0)
  {
    MisfitRate(zero, beta);
    MisfitMoved(zero.Minus(beta));
    hide SmallRotation, Vec3.Minus, Vec3.Scaled, Vec3.Plus;
    HalfTurn(zero.Minus(beta).Scaled(0.1), -0.1, -0.05);
  }

  /** At rest with no attitude error, the measured error is the bias step turned by the attitude. */
  lemma MeasuredAtRest(s: Estimate, beta: Vec3, dt: real, v: Quat, e: Quat, Q: Matrix, sqrt: real -> real)
    returns (k: real)
    requires IsSqrt(sqrt) && Sound(s) && s.beta == ZERO3 && Shape(Q, 6, 6)
    requires ZERO3.Minus(ZERO3) == ZERO3 && SmallRotation(ZERO3.Scaled(dt)) == IDENTITY
    requires v == SmallRotation(ZERO3.Minus(beta).Scaled(dt)) && v.NormSq() >= 1.0
    requires e == s.q.Times(v).Times(s.q.Inverse())
    ensures 0.0 < k <= 1.0
    ensures var truth := EulerStep(s.q, ZERO3.Minus(beta), dt).Normalized(sqrt);
            Innovation(Predict(s, ZERO3, dt, Q, sqrt).q, truth) == ShortPath(e.Scaled(k))
  {
    SoundIsUnit(s);
    IdentityIsUnit();
    k := NormalizedByRoot(v, sqrt);
    hide Quat.Times, Quat.Inverse, Quat.NormSq, Quat.Normalized, Quat.Scaled, Innovation, Predict, EulerStep, Sound;
    hide SmallRotation, ShortPath, Vec3.Minus, Vec3.Scaled, IsSqrt;
    var q, qi := s.q, s.q.Inverse();
    PredictionGathersBias(s, q, ZERO3, beta, dt, Q, sqrt);
    NormalizedUnit(IDENTITY, sqrt);
    InverseOfIdentity();
    TimesIdentity(v.Scaled(k));
    InverseIsInverse(q);
    ScaledTimes(q, v, k);
    ScaledTimes(q.Times(v), qi, k);
    IdentityTimes(e.Scaled(k));
  }

  lemma SoundIsUnit(s: Estimate)
    requires Sound(s)
    ensures s.q.IsUnit() && s.q.NormSq() > 0.0 && Shape(s.P, 6, 6)
  {
  }

  lemma MisfitNumbers(q: Quat, beta: Vec3, v: Quat)
    requires q == Quat(0.6, 0.0, 0.0, 0.8) && beta == Vec3(1.0, 0.0, 0.0)
    requires v == SmallRotation(ZERO3.Minus(beta).Scaled(0.1))
    ensures v.NormSq() >= 1.0
    ensures q.Times(v).Times(q.Inverse()) == Quat(1.0, 0.014, -0.048, 0.0)
  {
    hide Quat.Times, Quat.Inverse, Quat.NormSq, SmallRotation, Vec3.Minus, Vec3.Scaled;
    MisfitStep(ZERO3, beta);
    MisfitFactor(v);
    MisfitAttitude(q);
    MisfitProduct(q, v);
    MisfitQuotient(q.Times(v), q.Inverse());
  }

  lemma MisfitMeasured(s: Estimate, q: Quat, beta: Vec3, sqrt: real -> real) returns (k: real)
    requires IsSqrt(sqrt) && Sound(s) && s.q == q && s.beta == ZERO3
    requires q == Quat(0.6, 0.0, 0.0, 0.8) && beta == Vec3(1.0, 0.0, 0.0)
    ensures 0.0 < k <= 1.0
    ensures var truth := EulerStep(q, ZERO3.Minus(beta), 0.1).Normalized(sqrt);
            Innovation(Predict(s, ZERO3, 0.1, ProcessNoise(), sqrt).q, truth) == Vec3(0.028, -0.096, 0.0).Scaled(k)
  {
    hide Quat.Times, Quat.Inverse, Quat.NormSq, Quat.Normalized, Quat.Scaled, Innovation, Predict, EulerStep, Sound;
    hide SmallRotation, ShortPath, ProcessNoise, Identity, Vec3.Minus, Vec3.Scaled, Vec3.Cross, Vec3.Plus, IsSqrt;
    NoRate(ZERO3);
    var v := SmallRotation(ZERO3.Minus(beta).Scaled(0.1));
    var e := q.Times(v).Times(q.Inverse());
    MisfitNumbers(q, beta, v);
    k := MeasuredAtRest(s, beta, 0.1, v, e, ProcessNoise(), sqrt);
    ShortPathScaled(e, k);
  }

  lemma MisfitPredicted(beta: Vec3)
    requires beta == Vec3(1.0, 0.0, 0.0)
    ensures Apply(Transition(ZERO3, 0.1), Stacked(ZERO3, beta)) == Stacked(Vec3(-0.1, 0.0, 0.0), beta)
  {
    hide Apply, Transition, Stacked, Vec3.Minus, Vec3.Scaled, Vec3.Cross, Vec3.Plus, SmallRotation;
    NoRate(ZERO3);
    MisfitStep(ZERO3, beta);
    TransitionAction(ZERO3, 0.1, ZERO3, beta);
  }

  /** One such misfit, at rest and with no attitude error, from every sound estimate with this attitude and
      no bias: after a bias error about x the filter measures an error that even differs in sign from the
      one that Phi gives. */
  lemma BiasMisfit(s: Estimate, q: Quat, beta: Vec3, sqrt: real -> real) returns (k: real)
    requires IsSqrt(sqrt) && Sound(s) && s.q == q && s.beta == ZERO3
    requires q == Quat(0.6, 0.0, 0.0, 0.8) && beta == Vec3(1.0, 0.0, 0.0)
    ensures Apply(Transition(ZERO3, 0.1), Stacked(ZERO3, beta)) == Stacked(Vec3(-0.1, 0.0, 0.0), beta)
    ensures var truth := EulerStep(q, ZERO3.Minus(beta), 0.1).Normalized(sqrt);
            Innovation(Predict(s, ZERO3, 0.1, ProcessNoise(), sqrt).q, truth) == Vec3(0.028, -0.096, 0.0).Scaled(k)
    ensures Sound(Initial().(q := q)) && Innovation(s.q, q) == ZERO3 && 0.0 < k <= 1.0
  {
    hide Quat.Times, Quat.Inverse, Quat.NormSq, Quat.Normalized, Innovation, Predict, EulerStep, Sound;
    hide Apply, Transition, SmallRotation, Stacked, ProcessNoise, Identity, Vec3.Minus, Vec3.Scaled, IsSqrt;
    MisfitAttitude(q);
    MisfitSound(Initial().(q := q), q);
    NoInnovation(q);
    k := MisfitMeasured(s, q, beta, sqrt);
    MisfitPredicted(beta);
  }

  lemma MisfitSound(s: Estimate, q: Quat)
    requires s == Initial().(q := q) && q.IsUnit()
    ensures Sound(s) && s.q == q && s.beta == ZERO3
  {
    hide Quat.NormSq;
    InitialSound();
  }

  lemma IdentityIsUnit()
    ensures IDENTITY.IsUnit()
  {
  }
}
