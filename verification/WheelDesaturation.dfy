/** Momentum management: a timed state machine that commands a magnetic dipole while desaturating. */
module WheelDesaturation {
  import opened Reals
  import opened Vectors3

  datatype Phase = IDLE | DESATURATING | COOLDOWN

  datatype Config = Config(
    thresholdRatio: real, gain: real, maxDuration: real, minTimeBetween: real, minField: real)

  datatype Reading = Reading(momentum: real, maxMomentum: real)

  datatype State = State(phase: Phase, maxMomentum: real, totalMomentum: real, time: real)

  function Initial(): State {
    State(IDLE, 0.0, 0.0, 0.0)
  }

  /** Wheels along the body axes; fewer than three count as none. */
  function TotalMomentum(wheels: seq<Reading>): Vec3 {
    if |wheels| >= 3 then Vec3(wheels[0].momentum, wheels[1].momentum, wheels[2].momentum) else ZERO3
  }

  function MaxMomentum(wheels: seq<Reading>, sqrt: real -> real): real {
    if |wheels| == 0 then 0.0
    else
      var h := if |wheels| >= 3 then Vec3(wheels[0].maxMomentum, wheels[1].maxMomentum, wheels[2].maxMomentum)
               else ZERO3;
      Norm(h, sqrt)
  }

  function Ratio(s: State): real {
    if s.maxMomentum > 0.0 then s.totalMomentum / s.maxMomentum else 0.0
  }

  function Enter(s: State, p: Phase): State {
    s.(phase := p, time := 0.0)
  }

  function Machine(s: State, cfg: Config): State {
    match s.phase
    case IDLE =>
      if Ratio(s) > cfg.thresholdRatio then Enter(s, DESATURATING) else s
    case DESATURATING =>
      if Ratio(s) < cfg.thresholdRatio * 0.7 || s.time > cfg.maxDuration then Enter(s, COOLDOWN) else s
    case COOLDOWN =>
      if s.time > cfg.minTimeBetween then Enter(s, IDLE) else s
  }

  datatype Input = Input(wheels: seq<Reading>, field: Vec3, dt: real)

  function Updated(s: State, x: Input, cfg: Config, sqrt: real -> real): State {
    Machine(s.(time := s.time + x.dt,
               totalMomentum := Norm(TotalMomentum(x.wheels), sqrt),
               maxMomentum := if s.maxMomentum <= 0.0 then MaxMomentum(x.wheels, sqrt) else s.maxMomentum),
            cfg)
  }

  // ---------- The dipole ----------

  /** -gain ((h x B) x B) / |B|^2, or zero below the squared threshold. */
  function BCrossH(h: Vec3, field: Vec3, cfg: Config): Vec3
    requires field.NormSq() > 0.0 || Square(cfg.minField) > 0.0
  {
    var sq := field.NormSq();
    if sq < Square(cfg.minField) then ZERO3
    else h.Cross(field).Cross(field).Scaled(1.0 / sq).Scaled(-cfg.gain)
  }

  lemma FieldIsUsable(field: Vec3, n: real, minField: real)
    requires IsNorm(field, n) && n > minField
    ensures field.NormSq() > 0.0 || Square(minField) > 0.0
    ensures minField >= 0.0 ==> field.NormSq() > 0.0 && field.NormSq() >= Square(minField)
  {
    if minField >= 0.0 {
      ProductSign(n, n, field.NormSq());
      SquareMonotone(minField, n);
    } else {
      ProductSign(-minField, -minField, Square(minField));
    }
  }

  /** The dipole that an update returns, given the phase it has settled on. */
  function Dipole(phase: Phase, h: Vec3, field: Vec3, cfg: Config, sqrt: real -> real): Vec3
    requires IsSqrt(sqrt)
  {
    if phase == DESATURATING && Norm(field, sqrt) > cfg.minField then
      NormIsNorm(field, sqrt);
      FieldIsUsable(field, Norm(field, sqrt), cfg.minField);
      BCrossH(h, field, cfg)
    else ZERO3
  }

  /** The multiple of the field that is the part of h along it. */
  function Coefficient(h: Vec3, field: Vec3): real
    requires field.NormSq() > 0.0
  {
    h.Dot(field) / field.NormSq()
  }

  /** The part of h perpendicular to the field. */
  function Perpendicular(h: Vec3, field: Vec3): Vec3
    requires field.NormSq() > 0.0
  {
    h.Minus(field.Scaled(Coefficient(h, field)))
  }

  /** One component of (h x B) x B; the others follow by rotating the axes. */
  function CrossTerm(a: real, b: real, c: real, x: real, y: real, z: real): real {
    (c * x - a * z) * z - (a * y - b * x) * y
  }

  lemma CrossNumbers(h: Vec3, f: Vec3)
    ensures h.Cross(f).Cross(f) == Vec3(CrossTerm(h.x, h.y, h.z, f.x, f.y, f.z),
                                        CrossTerm(h.y, h.z, h.x, f.y, f.z, f.x),
                                        CrossTerm(h.z, h.x, h.y, f.z, f.x, f.y))
  {
  }

  lemma DoubleCross(a: real, b: real, c: real, x: real, y: real, z: real, r: real, k: real)
    requires r * Sum3(x, x, y, y, z, z) == 1.0 && k == r * Sum3(a, x, b, y, c, z)
    ensures r * CrossTerm(a, b, c, x, y, z) == -1.0 * (a - k * x)
  {
  }

  lemma CoefficientIs(h: Vec3, field: Vec3, r: real)
    requires field.NormSq() > 0.0 && r == 1.0 / field.NormSq()
    ensures Coefficient(h, field) == r * h.Dot(field) && r * field.NormSq() == 1.0
    ensures Coefficient(h, field) * field.NormSq() == h.Dot(field)
  {
  }

  /** -((h x B) x B) / |B|^2 is the perpendicular part of h. */
  lemma CrossIsPerpendicular(h: Vec3, field: Vec3)
    requires field.NormSq() > 0.0
    ensures h.Cross(field).Cross(field).Scaled(1.0 / field.NormSq()) == Perpendicular(h, field).Scaled(-1.0)
  {
    hide Vec3.Dot, Vec3.NormSq, Vec3.Cross, Coefficient, CrossTerm, Sum3;
    var r, k := 1.0 / field.NormSq(), Coefficient(h, field);
    CoefficientIs(h, field, r);
    CrossNumbers(h, field);
    DotIsSum3(h, field);
    DotIsSum3(field, h);
    Sum3Cycle(h.x, field.x, h.y, field.y, h.z, field.z);
    Sum3Cycle(field.x, field.x, field.y, field.y, field.z, field.z);
    DoubleCross(h.x, h.y, h.z, field.x, field.y, field.z, r, k);
    DoubleCross(h.y, h.z, h.x, field.y, field.z, field.x, r, k);
    DoubleCross(h.z, h.x, h.y, field.z, field.x, field.y, r, k);
  }

  // Perpendicular(h, field) has no component along the field, and its square is what remains of |h|^2.

  lemma ProjectionNumbers(a: real, b: real, c: real, x: real, y: real, z: real, k: real, p: real, q: real, r: real)
    requires k * Sum3(x, x, y, y, z, z) == Sum3(a, x, b, y, c, z)
    requires p == a - k * x && q == b - k * y && r == c - k * z
    ensures Sum3(p, x, q, y, r, z) == 0.0
    ensures Sum3(p, p, q, q, r, r) == Sum3(a, a, b, b, c, c) - k * Sum3(a, x, b, y, c, z)
  {
  }

  lemma ProjectionShrinks(k: real, sq: real, dot: real)
    requires sq > 0.0 && k * sq == dot
    ensures k * dot >= 0.0
  {
  }

  lemma PerpendicularPart(h: Vec3, field: Vec3)
    requires field.NormSq() > 0.0
    ensures Perpendicular(h, field).Dot(field) == 0.0
    ensures Perpendicular(h, field).NormSq() <= h.NormSq()
  {
    hide Sum3, Vec3.Dot, Vec3.NormSq, Coefficient;
    var k, p := Coefficient(h, field), Perpendicular(h, field);
    CoefficientIs(h, field, 1.0 / field.NormSq());
    DotIsSum3(h, field);
    DotIsSum3(field, h);
    DotIsSum3(p, field);
    ProjectionNumbers(h.x, h.y, h.z, field.x, field.y, field.z, k, p.x, p.y, p.z);
    ProjectionShrinks(k, field.NormSq(), h.Dot(field));
  }

  lemma ScaledTwice(v: Vec3, g: real)
    ensures v.Scaled(-1.0).Scaled(-g) == v.Scaled(g)
  {
  }

  lemma ScaledDot(v: Vec3, u: Vec3, g: real)
    ensures v.Scaled(g).Dot(u) == g * v.Dot(u)
  {
  }

  lemma ScaledSquare(v: Vec3, g: real)
    ensures v.Scaled(g).NormSq() == Square(g) * v.NormSq()
  {
  }

  /** The field passes both thresholds of the code.  The second adds nothing unless the limit is negative. */
  predicate Usable(field: Vec3, cfg: Config, sqrt: real -> real) {
    Norm(field, sqrt) > cfg.minField && field.NormSq() >= Square(cfg.minField)
  }

  /** The dipole is zero outside desaturation and in weak fields.  Otherwise it is the gain times the
      part of the wheel momentum perpendicular to the field: it has no component along the field, and
      its magnitude is at most the gain times that of the momentum. */
  lemma DipoleIsPerpendicular(phase: Phase, h: Vec3, field: Vec3, cfg: Config, sqrt: real -> real)
    requires IsSqrt(sqrt)
    ensures cfg.minField >= 0.0 ==> (Usable(field, cfg, sqrt) <==> Norm(field, sqrt) > cfg.minField)
    ensures var m := Dipole(phase, h, field, cfg, sqrt);
            && (phase != DESATURATING || !Usable(field, cfg, sqrt) ==> m == ZERO3)
            && (phase == DESATURATING && Usable(field, cfg, sqrt) ==>
                  field.NormSq() > 0.0 && m == Perpendicular(h, field).Scaled(cfg.gain))
            && m.Dot(field) == 0.0
            && m.NormSq() <= Square(cfg.gain) * h.NormSq()
  {
    hide Square, Perpendicular, Vec3.Cross, Vec3.Scaled, Vec3.NormSq, Vec3.Dot, Norm, IsNorm;
    ZeroDipole(h, field, cfg.gain);
    NormIsNorm(field, sqrt);
    if Norm(field, sqrt) > cfg.minField {
      FieldIsUsable(field, Norm(field, sqrt), cfg.minField);
    }
    if phase == DESATURATING && Usable(field, cfg, sqrt) {
      StrongField(h, field, cfg);
    }
  }

  lemma ZeroDipole(h: Vec3, field: Vec3, g: real)
    ensures ZERO3.Dot(field) == 0.0 && ZERO3.NormSq() <= Square(g) * h.NormSq()
  {
  }

  lemma StrongField(h: Vec3, field: Vec3, cfg: Config)
    requires field.NormSq() > 0.0 || Square(cfg.minField) > 0.0
    requires field.NormSq() >= Square(cfg.minField)
    ensures field.NormSq() > 0.0
    ensures var m := BCrossH(h, field, cfg);
            && m == Perpendicular(h, field).Scaled(cfg.gain)
            && m.Dot(field) == 0.0
            && m.NormSq() <= Square(cfg.gain) * h.NormSq()
  {
    hide Square, Perpendicular, Vec3.Cross, Vec3.Scaled, Vec3.NormSq, Vec3.Dot;
    var p := Perpendicular(h, field);
    CrossIsPerpendicular(h, field);
    ScaledTwice(p, cfg.gain);
    PerpendicularPart(h, field);
    ScaledDot(p, field, cfg.gain);
    ScaledSquare(p, cfg.gain);
    ProductMonotone(Square(cfg.gain), Square(cfg.gain), p.NormSq(), h.NormSq());
  }

  lemma TripleProduct(g: real, h: Vec3, field: Vec3, k: real)
    ensures h.Minus(field.Scaled(k)).Scaled(g).Cross(field).Dot(h) == 0.0
  {
  }

  /** The torque of this dipole in the field is orthogonal to the wheel momentum: to first order it
      turns the momentum and does not shrink it. */
  lemma TorqueIsOrthogonalToMomentum(phase: Phase, h: Vec3, field: Vec3, cfg: Config, sqrt: real -> real)
    requires IsSqrt(sqrt)
    ensures Dipole(phase, h, field, cfg, sqrt).Cross(field).Dot(h) == 0.0
  {
    hide Square, Vec3.NormSq, Vec3.Dot, Vec3.Cross, Norm;
    DipoleIsPerpendicular(phase, h, field, cfg, sqrt);
    if phase == DESATURATING && Usable(field, cfg, sqrt) {
      TripleProduct(cfg.gain, h, field, Coefficient(h, field));
    } else {
      ZeroTorque(h, field);
    }
  }

  lemma ZeroTorque(h: Vec3, field: Vec3)
    ensures ZERO3.Cross(field).Dot(h) == 0.0
  {
  }

  // ---------- Runs without a reset ----------

  function Run(s: State, inputs: seq<Input>, cfg: Config, sqrt: real -> real): State
    decreases |inputs|
  {
    if inputs == [] then s
    else Updated(Run(s, inputs[..|inputs| - 1], cfg, sqrt), inputs[|inputs| - 1], cfg, sqrt)
  }

  function Elapsed(inputs: seq<Input>): real
    decreases |inputs|
  {
    if inputs == [] then 0.0 else Elapsed(inputs[..|inputs| - 1]) + inputs[|inputs| - 1].dt
  }

  /** The phase after the first k updates. */
  function PhaseAt(s: State, inputs: seq<Input>, k: nat, cfg: Config, sqrt: real -> real): Phase
    requires k <= |inputs|
  {
    Run(s, inputs[..k], cfg, sqrt).phase
  }

  /** An update keeps the timer running or enters another phase with the timer at zero. */
  lemma UpdateTimes(s: State, x: Input, cfg: Config, sqrt: real -> real)
    ensures var t := Updated(s, x, cfg, sqrt);
            && (t.phase == s.phase ==> t.time == s.time + x.dt)
            && (t.phase != s.phase ==> t.time == 0.0)
            && (t.phase == DESATURATING && s.phase == DESATURATING ==> t.time <= cfg.maxDuration)
            && (t.phase == DESATURATING ==> s.phase != COOLDOWN)
            && (t.phase == IDLE && s.phase == COOLDOWN ==> s.time + x.dt > cfg.minTimeBetween)
            && (t.phase == IDLE ==> s.phase != DESATURATING)
            && (t.phase == COOLDOWN ==> s.phase != IDLE)
  {
  }

  /** The timer is the time since the phase was entered. */
  lemma {:induction false} TimerIsStay(s: State, inputs: seq<Input>, i: nat, cfg: Config, sqrt: real -> real)
    requires 0 < i <= |inputs|
    requires PhaseAt(s, inputs, i - 1, cfg, sqrt) != PhaseAt(s, inputs, i, cfg, sqrt)
    requires forall k :: i <= k <= |inputs| ==> PhaseAt(s, inputs, k, cfg, sqrt) == PhaseAt(s, inputs, i, cfg, sqrt)
    ensures Run(s, inputs, cfg, sqrt).time == Elapsed(inputs[i..])
    decreases |inputs|
  {
    hide Updated;
    var n := |inputs|;
    var before := inputs[..n - 1];
    assert inputs[..n] == inputs;
    assert PhaseAt(s, inputs, n, cfg, sqrt) == PhaseAt(s, inputs, i, cfg, sqrt);
    UpdateTimes(Run(s, before, cfg, sqrt), inputs[n - 1], cfg, sqrt);
    if i == n {
      assert inputs[i..] == [];
    } else {
      assert PhaseAt(s, inputs, n - 1, cfg, sqrt) == PhaseAt(s, inputs, i, cfg, sqrt);
      forall k | i - 1 <= k <= n - 1 ensures PhaseAt(s, before, k, cfg, sqrt) == PhaseAt(s, inputs, k, cfg, sqrt) {
        assert before[..k] == inputs[..k];
      }
      TimerIsStay(s, before, i, cfg, sqrt);
      assert inputs[i..][..n - i - 1] == before[i..];
    }
  }

  /** A stay in DESATURATING, from the update that enters it, lasts at most the maximum duration (which
      counts as zero when it is negative). */
  lemma DesaturationIsBrief(s: State, inputs: seq<Input>, i: nat, cfg: Config, sqrt: real -> real)
    requires 0 < i <= |inputs|
    requires PhaseAt(s, inputs, i - 1, cfg, sqrt) != DESATURATING
    requires forall k :: i <= k <= |inputs| ==> PhaseAt(s, inputs, k, cfg, sqrt) == DESATURATING
    ensures Elapsed(inputs[i..]) <= if cfg.maxDuration < 0.0 then 0.0 else cfg.maxDuration
  {
    hide Updated;
    var n := |inputs|;
    TimerIsStay(s, inputs, i, cfg, sqrt);
    assert inputs[..n] == inputs;
    assert PhaseAt(s, inputs, n, cfg, sqrt) == DESATURATING;
    UpdateTimes(Run(s, inputs[..n - 1], cfg, sqrt), inputs[n - 1], cfg, sqrt);
    if i < n {
      assert PhaseAt(s, inputs, n - 1, cfg, sqrt) == DESATURATING;
    } else {
      assert inputs[i..] == [];
    }
  }

  /** From the update that leaves DESATURATING until it is next entered, more than the minimum time
      passes. */
  lemma {:induction false} ReentryTakesTime(s: State, inputs: seq<Input>, i: nat, cfg: Config, sqrt: real -> real)
    requires forall k :: 0 <= k < |inputs| ==> inputs[k].dt >= 0.0
    requires 0 < i <= |inputs|
    requires PhaseAt(s, inputs, i - 1, cfg, sqrt) == DESATURATING && PhaseAt(s, inputs, i, cfg, sqrt) != DESATURATING
    ensures Elapsed(inputs[i..]) >= 0.0
    ensures PhaseAt(s, inputs, |inputs|, cfg, sqrt) == COOLDOWN ==>
              Run(s, inputs, cfg, sqrt).time <= Elapsed(inputs[i..])
    ensures PhaseAt(s, inputs, |inputs|, cfg, sqrt) != COOLDOWN ==> Elapsed(inputs[i..]) > cfg.minTimeBetween
    decreases |inputs|
  {
    hide Updated;
    var n := |inputs|;
    var before := inputs[..n - 1];
    assert inputs[..n] == inputs;
    UpdateTimes(Run(s, before, cfg, sqrt), inputs[n - 1], cfg, sqrt);
    if i == n {
      assert inputs[i..] == [];
    } else {
      assert before[..i - 1] == inputs[..i - 1] && before[..i] == inputs[..i] && before[..n - 1] == before;
      ReentryTakesTime(s, before, i, cfg, sqrt);
      assert inputs[i..][..n - i - 1] == before[i..];
    }
  }

  // ---------- When the phase changes ----------

  /** What the first three wheels report: their momenta, or the largest ones they can hold. */
  predicate Reports(wheels: seq<Reading>, h: Vec3, capacity: Vec3) {
    if |wheels| < 3 then h == ZERO3 && capacity == ZERO3
    else
      && h == Vec3(wheels[0].momentum, wheels[1].momentum, wheels[2].momentum)
      && capacity == Vec3(wheels[0].maxMomentum, wheels[1].maxMomentum, wheels[2].maxMomentum)
  }

  /** The first positive capacity that the wheels report in a run; zero if they never do. */
  function Capacity(inputs: seq<Input>, sqrt: real -> real): real
    decreases |inputs|
  {
    if inputs == [] then 0.0
    else
      var known, wheels := Capacity(inputs[..|inputs| - 1], sqrt), inputs[|inputs| - 1].wheels;
      if known > 0.0 then known
      else if |wheels| < 3 then 0.0
      else Norm(Vec3(wheels[0].maxMomentum, wheels[1].maxMomentum, wheels[2].maxMomentum), sqrt)
  }

  lemma {:induction false} CapacityIsKept(inputs: seq<Input>, cfg: Config, sqrt: real -> real)
    requires IsSqrt(sqrt)
    ensures Run(Initial(), inputs, cfg, sqrt).maxMomentum == Capacity(inputs, sqrt) >= 0.0
    decreases |inputs|
  {
    hide Norm, IsSqrt, Vec3.NormSq;
    if inputs != [] {
      var wheels := inputs[|inputs| - 1].wheels;
      CapacityIsKept(inputs[..|inputs| - 1], cfg, sqrt);
      NormOfZero(sqrt);
      if |wheels| >= 3 {
        NormIsNorm(Vec3(wheels[0].maxMomentum, wheels[1].maxMomentum, wheels[2].maxMomentum), sqrt);
      }
    }
  }

  lemma RatioCompares(h: real, c: real, limit: real)
    requires c > 0.0
    ensures h / c > limit <==> h > limit * c
    ensures h / c < limit <==> h < limit * c
  {
    var q := h / c;
    assert q * c == h;
    ProductSign(q - limit, c, (q - limit) * c);
    ProductSign(limit - q, c, (limit - q) * c);
  }

  /** Over any run from the start, with h the norm of the momenta that the last update reads, c the capacity of
      the wheels and stay the time in the phase before it: an idle unit starts to desaturate exactly when h
      exceeds the threshold times c; it stops exactly when h is below 0.7 of that or the stay too long; a
      cooling unit becomes idle exactly when the stay exceeds the minimum.  Without a capacity the ratio
      counts as zero. */
  lemma PhaseLaw(inputs: seq<Input>, x: Input, cfg: Config, sqrt: real -> real, u: Vec3, capacity: Vec3, h: real)
    requires IsSqrt(sqrt) && Reports(x.wheels, u, capacity) && IsNorm(u, h)
    ensures var s, t := Run(Initial(), inputs, cfg, sqrt), Run(Initial(), inputs + [x], cfg, sqrt);
            var c, stay := Capacity(inputs + [x], sqrt), s.time + x.dt;
            && (s.phase == IDLE ==>
                  && t.phase in {IDLE, DESATURATING}
                  && (t.phase == DESATURATING <==>
                        if c > 0.0 then h > cfg.thresholdRatio * c else 0.0 > cfg.thresholdRatio))
            && (s.phase == DESATURATING ==>
                  && t.phase in {DESATURATING, COOLDOWN}
                  && (t.phase == COOLDOWN <==>
                        || stay > cfg.maxDuration
                        || if c > 0.0 then h < (cfg.thresholdRatio * 0.7) * c else 0.0 < cfg.thresholdRatio * 0.7))
            && (s.phase == COOLDOWN ==>
                  t.phase in {COOLDOWN, IDLE} && (t.phase == IDLE <==> stay > cfg.minTimeBetween))
  {
    hide Norm, IsSqrt, Vec3.NormSq, IsNorm, Capacity, Updated;
    var all := inputs + [x];
    assert all[..|inputs|] == inputs;
    CapacityIsKept(inputs, cfg, sqrt);
    CapacityIsKept(all, cfg, sqrt);
    var c := Capacity(all, sqrt);
    NormIsNorm(u, sqrt);
    NormUnique(u, h, Norm(u, sqrt));
    assert TotalMomentum(x.wheels) == u;
    UpdateLaw(Run(Initial(), inputs, cfg, sqrt), x, cfg, sqrt, h, c);
  }

  lemma UpdateLaw(s: State, x: Input, cfg: Config, sqrt: real -> real, h: real, c: real)
    requires Norm(TotalMomentum(x.wheels), sqrt) == h && Updated(s, x, cfg, sqrt).maxMomentum == c
    ensures var t, stay := Updated(s, x, cfg, sqrt), s.time + x.dt;
            && (s.phase == IDLE ==>
                  && t.phase in {IDLE, DESATURATING}
                  && (t.phase == DESATURATING <==>
                        if c > 0.0 then h > cfg.thresholdRatio * c else 0.0 > cfg.thresholdRatio))
            && (s.phase == DESATURATING ==>
                  && t.phase in {DESATURATING, COOLDOWN}
                  && (t.phase == COOLDOWN <==>
                        || stay > cfg.maxDuration
                        || if c > 0.0 then h < (cfg.thresholdRatio * 0.7) * c else 0.0 < cfg.thresholdRatio * 0.7))
            && (s.phase == COOLDOWN ==>
                  t.phase in {COOLDOWN, IDLE} && (t.phase == IDLE <==> stay > cfg.minTimeBetween))
  {
    hide Norm, TotalMomentum, MaxMomentum;
    if c > 0.0 {
      RatioCompares(h, c, cfg.thresholdRatio);
      RatioCompares(h, c, cfg.thresholdRatio * 0.7);
    }
  }

  lemma ClearedFraction(h: Vec3, field: Vec3, g: real)
    requires field.NormSq() > 0.0
    ensures Perpendicular(h, field).Scaled(g).Scaled(field.NormSq())
         == h.Scaled(field.NormSq()).Minus(field.Scaled(h.Dot(field))).Scaled(g)
  {
    hide Vec3.NormSq, Vec3.Dot, Coefficient;
    CoefficientIs(h, field, 1.0 / field.NormSq());
    ClearedBy(h, field, Coefficient(h, field), field.NormSq(), h.Dot(field), g);
  }

  lemma ClearedBy(h: Vec3, field: Vec3, k: real, n: real, d: real, g: real)
    requires k * n == d
    ensures h.Minus(field.Scaled(k)).Scaled(g).Scaled(n) == h.Scaled(n).Minus(field.Scaled(d)).Scaled(g)
  {
    ClearedComponent(h.x, field.x, k, n, d, g);
    ClearedComponent(h.y, field.y, k, n, d, g);
    ClearedComponent(h.z, field.z, k, n, d, g);
  }

  lemma ClearedComponent(a: real, b: real, k: real, n: real, d: real, g: real)
    requires k * n == d
    ensures n * (g * (a - k * b)) == g * (n * a - d * b)
  {
    assert n * (k * b) == d * b;
  }

  /** The dipole that an update returns, from the readings alone: without a field above both thresholds, or
      outside desaturation, it is zero; otherwise the gain times what is left of the momenta when the part
      along the field is taken away. */
  lemma DipoleOfReadings(s: State, x: Input, cfg: Config, sqrt: real -> real, u: Vec3, capacity: Vec3, b: real)
    requires IsSqrt(sqrt) && Reports(x.wheels, u, capacity) && IsNorm(x.field, b)
    ensures var t, n := Updated(s, x, cfg, sqrt), x.field.NormSq();
            var m := Dipole(t.phase, TotalMomentum(x.wheels), x.field, cfg, sqrt);
            if t.phase == DESATURATING && b > cfg.minField && n >= cfg.minField * cfg.minField then
              m.Scaled(n) == u.Scaled(n).Minus(x.field.Scaled(u.Dot(x.field))).Scaled(cfg.gain) && n > 0.0
            else m == ZERO3
  {
    hide Updated, Dipole, Perpendicular, Norm, IsSqrt, Vec3.NormSq, Vec3.Dot, Vec3.Scaled, Vec3.Minus;
    NormIsNorm(x.field, sqrt);
    NormUnique(x.field, b, Norm(x.field, sqrt));
    var phase := Updated(s, x, cfg, sqrt).phase;
    DipoleIsPerpendicular(phase, u, x.field, cfg, sqrt);
    assert TotalMomentum(x.wheels) == u;
    if phase == DESATURATING && Usable(x.field, cfg, sqrt) {
      ClearedFraction(u, x.field, cfg.gain);
    }
  }

  // ---------- The object ----------

  class Desaturator {
    const cfg: Config
    const sqrt: real -> real
    var phase: Phase
    var maxMomentum: real
    var totalMomentum: real
    var time: real

    function Value(): State
      reads this
    {
      State(phase, maxMomentum, totalMomentum, time)
    }

    constructor (cfg: Config, sqrt: real -> real)
      ensures this.cfg == cfg && this.sqrt == sqrt && Value() == Initial() == State(IDLE, 0.0, 0.0, 0.0)
    {
      this.cfg, this.sqrt := cfg, sqrt;
      phase, maxMomentum, totalMomentum, time := IDLE, 0.0, 0.0, 0.0;
    }

    method Update(wheels: seq<Reading>, field: Vec3, dt: real) returns (dipole: Vec3)
      requires IsSqrt(sqrt)
      modifies this
      ensures Value() == Updated(old(Value()), Input(wheels, field, dt), cfg, sqrt)
      ensures dipole == Dipole(phase, TotalMomentum(wheels), field, cfg, sqrt)
    {
      hide Norm, MaxMomentum, TotalMomentum, BCrossH, Square, Ratio, Vec3.NormSq, IsNorm;
      time := time + dt;
      var h := TotalMomentum(wheels);
      totalMomentum := Norm(h, sqrt);
      if maxMomentum <= 0.0 {
        maxMomentum := MaxMomentum(wheels, sqrt);
      }
      UpdateStateMachine();
      dipole := ZERO3;
      if phase == DESATURATING {
        var magnitude := Norm(field, sqrt);
        if magnitude > cfg.minField {
          NormIsNorm(field, sqrt);
          FieldIsUsable(field, magnitude, cfg.minField);
          dipole := BCrossH(h, field, cfg);
        }
      }
    }

    method UpdateStateMachine()
      modifies `phase, `time
      ensures Value() == Machine(old(Value()), cfg)
    {
      var ratio := if maxMomentum > 0.0 then totalMomentum / maxMomentum else 0.0;
      match phase {
        case IDLE =>
          if ratio > cfg.thresholdRatio {
            phase := DESATURATING;
            time := 0.0;
          }
        case DESATURATING =>
          if ratio < cfg.thresholdRatio * 0.7 {
            phase := COOLDOWN;
            time := 0.0;
          } else if time > cfg.maxDuration {
            phase := COOLDOWN;
            time := 0.0;
          }
        case COOLDOWN =>
          if time > cfg.minTimeBetween {
            phase := IDLE;
            time := 0.0;
          }
      }
    }

    method Reset()
      modifies `phase, `time
      ensures phase == IDLE && time == 0.0
    {
      phase := IDLE;
      time := 0.0;
    }
  }
}
