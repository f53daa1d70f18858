/** Three-axis attitude control: gain scheduling, one PID per axis, rate feedback and a limit on the
    rate of change of the commanded torque.  Attitude error vector and angle are inputs. */
module AttitudeController {
  import opened Reals
  import opened Vectors3
  import P = Pid

  datatype Config = Config(
    nominal: P.Config, largeError: P.Config, maxTorqueRate: real,
    smallErrorThreshold: real, largeErrorThreshold: real, rateFeedbackGain: real)

  // ---------- Gain scheduling ----------

  /** 1 for small errors, 0 for large ones, linear in between. */
  function GainFactor(angle: real, cfg: Config): real {
    if angle <= cfg.smallErrorThreshold then 1.0
    else if angle >= cfg.largeErrorThreshold then 0.0
    else 1.0 - (angle - cfg.smallErrorThreshold) / (cfg.largeErrorThreshold - cfg.smallErrorThreshold)
  }

  function Blend(alpha: real, a: real, b: real): real {
    alpha * a + (1.0 - alpha) * b
  }

  function ScheduledGains(angle: real, cfg: Config): P.Gains {
    var alpha := GainFactor(angle, cfg);
    var n, l := cfg.nominal.gains, cfg.largeError.gains;
    if alpha < 1.0 then n.(kp := Blend(alpha, n.kp, l.kp), kd := Blend(alpha, n.kd, l.kd)) else n
  }

  lemma Quotient(x: real, r: real)
    requires 0.0 < x < r
    ensures 0.0 < x / r < 1.0
  {
    var q := x / r;
    assert q * r == x;
    if q <= 0.0 {
      ProductSign(-q, r, -x);
    } else if q >= 1.0 {
      ProductSign(q - 1.0, r, x - r);
    }
  }

  lemma QuotientMonotone(x: real, y: real, r: real)
    requires x <= y && r > 0.0
    ensures x / r <= y / r
  {
  }

  /** The factor lies between 0 and 1, is exactly 1 or 0 at the two ends, and never grows with the
      error, even when the thresholds are out of order. */
  lemma GainFactorIsMonotone(a: real, b: real, cfg: Config)
    requires a <= b
    ensures 0.0 <= GainFactor(a, cfg) <= 1.0
    ensures GainFactor(b, cfg) <= GainFactor(a, cfg)
    ensures GainFactor(a, cfg) == 1.0 <==> a <= cfg.smallErrorThreshold
    ensures GainFactor(a, cfg) == 0.0 <==> cfg.smallErrorThreshold < a && a >= cfg.largeErrorThreshold
  {
    var lo, hi := cfg.smallErrorThreshold, cfg.largeErrorThreshold;
    if lo < a < hi {
      Quotient(a - lo, hi - lo);
    }
    if lo < b < hi {
      Quotient(b - lo, hi - lo);
      if lo < a {
        QuotientMonotone(a - lo, b - lo, hi - lo);
      }
    }
  }

  predicate Between(x: real, a: real, b: real) {
    a <= x <= b || b <= x <= a
  }

  /** Which gains are in force: the nominal ones at small errors, at large ones the other proportional and
      derivative gains, in between the point that divides the two sets as the angle divides the thresholds.  The
      integral gain is always the nominal one. */
  lemma GainsFollowAngle(angle: real, cfg: Config)
    ensures var g, n, l := ScheduledGains(angle, cfg), cfg.nominal.gains, cfg.largeError.gains;
            var lo, hi := cfg.smallErrorThreshold, cfg.largeErrorThreshold;
            && g.ki == n.ki
            && (angle <= lo ==> g == n)
            && (lo < angle && hi <= angle ==> g.kp == l.kp && g.kd == l.kd)
            && (lo < angle < hi ==>
                  && (g.kp - n.kp) * (hi - lo) == (l.kp - n.kp) * (angle - lo)
                  && (g.kd - n.kd) * (hi - lo) == (l.kd - n.kd) * (angle - lo))
  {
    var lo, hi := cfg.smallErrorThreshold, cfg.largeErrorThreshold;
    if lo < angle < hi {
      var q := (angle - lo) / (hi - lo);
      Quotient(angle - lo, hi - lo);
      Divides(q, cfg.nominal.gains.kp, cfg.largeError.gains.kp, angle - lo, hi - lo);
      Divides(q, cfg.nominal.gains.kd, cfg.largeError.gains.kd, angle - lo, hi - lo);
    }
  }

  lemma Divides(q: real, n: real, l: real, x: real, r: real)
    requires r > 0.0 && q == x / r
    ensures (Blend(1.0 - q, n, l) - n) * r == (l - n) * x
  {
    assert q * r == x;
    assert Blend(1.0 - q, n, l) - n == (l - n) * q;
    assert ((l - n) * q) * r == (l - n) * (q * r);
  }

  /** Scheduled gains lie between the two tuned sets. */
  lemma ScheduledGainsAreBetween(angle: real, cfg: Config)
    ensures var g, n, l := ScheduledGains(angle, cfg), cfg.nominal.gains, cfg.largeError.gains;
            Between(g.kp, n.kp, l.kp) && Between(g.kd, n.kd, l.kd)
  {
  }

  // ---------- Rate limiting ----------

  /** How far the torque may move in a time. */
  function Reach(rate: real, t: real): real {
    rate * t
  }

  lemma ReachIsNonNegative(rate: real, t: real)
    requires rate >= 0.0 && t >= 0.0
    ensures Reach(rate, t) >= 0.0
  {
  }

  lemma ReachAdds(rate: real, s: real, t: real)
    ensures Reach(rate, 0.0) == 0.0 && Reach(rate, s + t) == Reach(rate, s) + Reach(rate, t)
  {
  }

  /** A negative reach has no direction when the request is met already: the code divides zero by zero. */
  predicate Limitable(last: Vec3, desired: Vec3, rate: real, dt: real, sqrt: real -> real) {
    dt <= 0.0 || Reach(rate, dt) >= 0.0 || Norm(desired.Minus(last), sqrt) != 0.0
  }

  lemma AlwaysLimitable(last: Vec3, desired: Vec3, rate: real, dt: real, sqrt: real -> real)
    requires rate >= 0.0
    ensures Limitable(last, desired, rate, dt, sqrt)
  {
    if dt > 0.0 {
      ReachIsNonNegative(rate, dt);
    }
  }

  function Limited(last: Vec3, desired: Vec3, rate: real, dt: real, sqrt: real -> real): Vec3
    requires Limitable(last, desired, rate, dt, sqrt)
  {
    if dt <= 0.0 then last
    else
      var delta := desired.Minus(last);
      var n, reach := Norm(delta, sqrt), Reach(rate, dt);
      last.Plus(if n > reach then delta.Scaled(reach / n) else delta)
  }

  lemma ScaledNorm(v: Vec3, n: real, k: real, m: real)
    requires IsNorm(v, n) && m == Abs(k) * n
    ensures IsNorm(v.Scaled(k), m)
  {
  }

  lemma Fraction(n: real, m: real)
    requires m < n && n > 0.0
    ensures m / n < 1.0 && (m / n >= 0.0 <==> m >= 0.0)
    ensures (m / n) * n == m && (1.0 - m / n) * n == n - m && Abs(m / n) * n == Abs(m)
  {
    var q := m / n;
    assert q * n == m;
    if q >= 1.0 {
      ProductSign(q - 1.0, n, m - n);
    }
    if q < 0.0 {
      ProductSign(-q, n, -m);
    } else {
      ProductSign(q, n, m);
    }
  }

  lemma RestOfDelta(last: Vec3, desired: Vec3, k: real)
    ensures desired.Minus(last.Plus(desired.Minus(last).Scaled(k))) == desired.Minus(last).Scaled(1.0 - k)
    ensures last.Plus(desired.Minus(last).Scaled(k)).Minus(last) == desired.Minus(last).Scaled(k)
    ensures desired.Minus(last.Plus(desired.Minus(last))) == ZERO3
    ensures last.Plus(desired.Minus(last)) == desired
  {
  }

  function Positive(t: real): real {
    if t > 0.0 then t else 0.0
  }

  lemma ShortStep(last: Vec3, desired: Vec3, d: real, reach: real)
    requires IsNorm(desired.Minus(last), d) && reach < d && d != 0.0
    ensures var next := last.Plus(desired.Minus(last).Scaled(reach / d));
            IsNorm(desired.Minus(next), d - reach) && IsNorm(next.Minus(last), Abs(reach))
  {
    NormIsNonNegative(desired.Minus(last), d);
    hide IsNorm, Vec3.Plus, Vec3.Minus, Vec3.Scaled;
    var delta := desired.Minus(last);
    Fraction(d, reach);
    RestOfDelta(last, desired, reach / d);
    ScaledNorm(delta, d, reach / d, Abs(reach));
    ScaledNorm(delta, d, 1.0 - reach / d, d - reach);
  }

  lemma NormIsNonNegative(v: Vec3, d: real)
    requires IsNorm(v, d)
    ensures d >= 0.0
  {
  }

  lemma ZeroIsNorm(v: Vec3)
    ensures IsNorm(ZERO3, 0.0) && v.Minus(v) == ZERO3
  {
  }

  /** One call moves the torque along the straight line to the request, by the smaller of the
      distance and the reach: the distance left is exactly what the reach does not cover. */
  lemma LimiterStep(last: Vec3, desired: Vec3, rate: real, dt: real, sqrt: real -> real, d: real)
    requires IsSqrt(sqrt) && rate >= 0.0 && IsNorm(desired.Minus(last), d)
    ensures Limitable(last, desired, rate, dt, sqrt)
    ensures var next, reach := Limited(last, desired, rate, dt, sqrt), Reach(rate, Positive(dt));
            && reach >= 0.0
            && IsNorm(desired.Minus(next), Positive(d - reach))
            && IsNorm(next.Minus(last), if d <= reach then d else reach)
  {
    hide IsNorm, Norm, Reach, IsSqrt, Vec3.Plus, Vec3.Minus, Vec3.Scaled;
    var delta, reach := desired.Minus(last), Reach(rate, Positive(dt));
    AlwaysLimitable(last, desired, rate, dt, sqrt);
    ReachIsNonNegative(rate, Positive(dt));
    NormIsNonNegative(delta, d);
    NormIsNorm(delta, sqrt);
    NormUnique(delta, d, Norm(delta, sqrt));
    ZeroIsNorm(last);
    ReachAdds(rate, 0.0, 0.0);
    if dt > 0.0 {
      if d > reach {
        ShortStep(last, desired, d, reach);
      } else {
        RestOfDelta(last, desired, 0.0);
      }
    }
  }

  /** With a negative rate every call moves the torque away from a request it has not met. */
  lemma NegativeRateMovesAway(last: Vec3, desired: Vec3, rate: real, dt: real, sqrt: real -> real, d: real)
    requires IsSqrt(sqrt) && rate < 0.0 && dt > 0.0 && IsNorm(desired.Minus(last), d) && d != 0.0
    ensures Limitable(last, desired, rate, dt, sqrt)
    ensures IsNorm(desired.Minus(Limited(last, desired, rate, dt, sqrt)), d + Reach(-rate, dt))
    ensures Reach(-rate, dt) > 0.0
  {
    hide IsNorm, Norm, IsSqrt, Vec3.Plus, Vec3.Minus, Vec3.Scaled;
    var delta := desired.Minus(last);
    NormIsNonNegative(delta, d);
    NormIsNorm(delta, sqrt);
    NormUnique(delta, d, Norm(delta, sqrt));
    ReachIsPositive(-rate, dt);
    assert Reach(rate, dt) == -Reach(-rate, dt);
    ShortStep(last, desired, d, Reach(rate, dt));
  }

  // ---------- Runs of the limiter ----------

  datatype Request = Request(desired: Vec3, dt: real)

  function Slew(start: Vec3, requests: seq<Request>, rate: real, sqrt: real -> real): Vec3
    requires rate >= 0.0
    decreases |requests|
  {
    if requests == [] then start
    else
      var last, r := Slew(start, requests[..|requests| - 1], rate, sqrt), requests[|requests| - 1];
      AlwaysLimitable(last, r.desired, rate, r.dt, sqrt);
      Limited(last, r.desired, rate, r.dt, sqrt)
  }

  function Elapsed(requests: seq<Request>): (t: real)
    ensures t >= 0.0
    decreases |requests|
  {
    if requests == [] then 0.0 else Elapsed(requests[..|requests| - 1]) + Positive(requests[|requests| - 1].dt)
  }

  /** Over any run, for any requests and steps, the torque moves by at most the rate times the time. */
  lemma {:induction false} SlewIsBounded(start: Vec3, requests: seq<Request>, rate: real, sqrt: real -> real)
    requires IsSqrt(sqrt) && rate >= 0.0
    ensures Within(Slew(start, requests, rate, sqrt).Minus(start), Reach(rate, Elapsed(requests)))
    decreases |requests|
  {
    hide Limited, Reach, Norm;
    if requests == [] {
      ReachAdds(rate, 0.0, 0.0);
      assert start.Minus(start) == ZERO3;
    } else {
      var before, r := requests[..|requests| - 1], requests[|requests| - 1];
      var last := Slew(start, before, rate, sqrt);
      SlewIsBounded(start, before, rate, sqrt);
      NormIsNorm(r.desired.Minus(last), sqrt);
      LimiterStep(last, r.desired, rate, r.dt, sqrt, Norm(r.desired.Minus(last), sqrt));
      var next := Limited(last, r.desired, rate, r.dt, sqrt);
      StepWithin(next.Minus(last), Norm(r.desired.Minus(last), sqrt), Reach(rate, Positive(r.dt)));
      ReachAdds(rate, Elapsed(before), Positive(r.dt));
      WithinSum(last.Minus(start), next.Minus(last), Reach(rate, Elapsed(before)), Reach(rate, Positive(r.dt)));
      assert last.Minus(start).Plus(next.Minus(last)) == next.Minus(start);
    }
  }

  /** One call moves along the straight line to the request. */
  lemma LimitedIsBetween(last: Vec3, desired: Vec3, rate: real, dt: real, sqrt: real -> real) returns (k: real)
    requires IsSqrt(sqrt) && rate >= 0.0 && Limitable(last, desired, rate, dt, sqrt)
    ensures 0.0 <= k <= 1.0
    ensures Limited(last, desired, rate, dt, sqrt) == last.Plus(desired.Minus(last).Scaled(k))
  {
    var delta := desired.Minus(last);
    if dt <= 0.0 {
      k := 0.0;
    } else {
      var n, reach := Norm(delta, sqrt), Reach(rate, dt);
      ReachIsNonNegative(rate, dt);
      if n > reach {
        Fraction(n, reach);
        k := reach / n;
      } else {
        k := 1.0;
      }
    }
  }

  ghost predicate AllWithin(requests: seq<Request>, r: real) {
    forall i :: 0 <= i < |requests| ==> Within(requests[i].desired, r)
  }

  /** Over any run the torque stays in every ball that holds the start and all requests, however long. */
  lemma {:induction false} SlewStaysInBall(start: Vec3, requests: seq<Request>, rate: real, sqrt: real -> real, r: real)
    requires IsSqrt(sqrt) && rate >= 0.0 && Within(start, r)
    requires AllWithin(requests, r)
    ensures Within(Slew(start, requests, rate, sqrt), r)
    decreases |requests|
  {
    hide Limited, Limitable, Within, Reach, IsSqrt;
    if requests != [] {
      var before, x := requests[..|requests| - 1], requests[|requests| - 1];
      SlewStaysInBall(start, before, rate, sqrt, r);
      var last := Slew(start, before, rate, sqrt);
      AlwaysLimitable(last, x.desired, rate, x.dt, sqrt);
      var k := LimitedIsBetween(last, x.desired, rate, x.dt, sqrt);
      WithinBlend(last, x.desired, r, k);
    }
  }

  lemma StepWithin(v: Vec3, d: real, reach: real)
    requires reach >= 0.0 && IsNorm(v, if d <= reach then d else reach)
    ensures Within(v, reach)
  {
  }

  /** For a constant request the distance left is exactly max(0, d0 - rate * time), so the torque
      never overshoots, and it has arrived exactly when the reach covers the first distance. */
  lemma {:induction false} ConstantRequest(start: Vec3, desired: Vec3, requests: seq<Request>, rate: real,
                                           sqrt: real -> real, d0: real)
    requires IsSqrt(sqrt) && rate >= 0.0 && IsNorm(desired.Minus(start), d0)
    requires forall i :: 0 <= i < |requests| ==> requests[i].desired == desired
    ensures var left := Positive(d0 - Reach(rate, Elapsed(requests)));
            && IsNorm(desired.Minus(Slew(start, requests, rate, sqrt)), left)
            && (Slew(start, requests, rate, sqrt) == desired <==> d0 <= Reach(rate, Elapsed(requests)))
    decreases |requests|
  {
    hide Limited, Reach, IsNorm, IsSqrt, Vec3.Minus;
    NormIsNonNegative(desired.Minus(start), d0);
    if requests == [] {
      ReachAdds(rate, 0.0, 0.0);
    } else {
      var before, r := requests[..|requests| - 1], requests[|requests| - 1];
      ConstantRequest(start, desired, before, rate, sqrt, d0);
      var d := Positive(d0 - Reach(rate, Elapsed(before)));
      LimiterStep(Slew(start, before, rate, sqrt), desired, rate, r.dt, sqrt, d);
      ReachAdds(rate, Elapsed(before), Positive(r.dt));
    }
    ArrivedWhenNoDistance(desired, Slew(start, requests, rate, sqrt), Positive(d0 - Reach(rate, Elapsed(requests))));
  }

  lemma ArrivedWhenNoDistance(a: Vec3, b: Vec3, d: real)
    requires IsNorm(a.Minus(b), d)
    ensures d == 0.0 <==> b == a
  {
    hide IsNorm, Vec3.NormSq;
    NoNormNoVector(a.Minus(b), d);
  }

  lemma NoNormNoVector(v: Vec3, d: real)
    requires IsNorm(v, d)
    ensures d == 0.0 <==> v == ZERO3
  {
    hide Vec3.NormSq, Vec3.Minus;
    ZeroIsNorm(v);
    if v == ZERO3 {
      NormUnique(v, d, 0.0);
    }
    if d == 0.0 {
      ZeroOnlyAtZero(v);
    }
  }

  // ---------- Arrival ----------

  /** The same request, n times at a constant step. */
  function Repeated(desired: Vec3, dt: real, n: nat): (requests: seq<Request>)
    ensures |requests| == n
  {
    seq(n, i => Request(desired, dt))
  }

  lemma {:induction false} ReachOfRepeated(desired: Vec3, rate: real, dt: real, n: nat)
    requires dt > 0.0
    ensures Reach(rate, Elapsed(Repeated(desired, dt, n))) == Multiple(n, Reach(rate, dt))
  {
    hide Reach, Multiple;
    MultipleStep(n, Reach(rate, dt));
    ReachAdds(rate, 0.0, 0.0);
    if n > 0 {
      MultipleStep(n - 1, Reach(rate, dt));
      ReachOfRepeated(desired, rate, dt, n - 1);
      assert Repeated(desired, dt, n)[..n - 1] == Repeated(desired, dt, n - 1);
      ReachAdds(rate, Elapsed(Repeated(desired, dt, n - 1)), dt);
    }
  }

  lemma Cover(d: real, step: real) returns (n: nat)
    requires d >= 0.0 && step > 0.0
    ensures d <= Multiple(n, step) && (n == 0 || Multiple(n - 1, step) < d)
  {
    hide Multiple, Steps;
    n := if Steps(d, step) < 0 then 0 else Steps(d, step);
    StepsCover(d, step, n);
    if n > 0 {
      StepsCover(d, step, n - 1);
    }
  }

  /** At a positive rate a constant request is reached in finitely many equal calls, and not before
      the last of them. */
  lemma Arrives(start: Vec3, desired: Vec3, rate: real, dt: real, sqrt: real -> real) returns (n: nat)
    requires IsSqrt(sqrt) && rate > 0.0 && dt > 0.0
    ensures Slew(start, Repeated(desired, dt, n), rate, sqrt) == desired
    ensures n > 0 ==> Slew(start, Repeated(desired, dt, n - 1), rate, sqrt) != desired
  {
    hide Reach, Multiple, Slew, IsNorm, Norm, IsSqrt;
    var d := Norm(desired.Minus(start), sqrt);
    NormIsNorm(desired.Minus(start), sqrt);
    NormIsNonNegative(desired.Minus(start), d);
    assert Reach(rate, dt) > 0.0 by { ReachIsPositive(rate, dt); }
    n := Cover(d, Reach(rate, dt));
    ReachOfRepeated(desired, rate, dt, n);
    ConstantRequest(start, desired, Repeated(desired, dt, n), rate, sqrt, d);
    if n > 0 {
      ReachOfRepeated(desired, rate, dt, n - 1);
      ConstantRequest(start, desired, Repeated(desired, dt, n - 1), rate, sqrt, d);
    }
  }

  lemma ReachIsPositive(rate: real, t: real)
    requires rate > 0.0 && t > 0.0
    ensures Reach(rate, t) > 0.0
  {
  }

  // ---------- The controller ----------

  datatype State = State(config: Config, roll: P.State, pitch: P.State, yaw: P.State, last: Vec3)

  function Initial(config: Config): State {
    State(config, P.Initial(config.nominal), P.Initial(config.nominal), P.Initial(config.nominal), ZERO3)
  }

  /** What one update sees: attitude error vector and angle, rate error, and time step. */
  datatype Sample = Sample(error: Vec3, angle: real, rateError: Vec3, dt: real)

  function Axis(pid: P.State, gains: P.Gains, error: real, dt: real): P.State {
    P.Step(P.Step(pid, P.SetGains(gains)), P.Sample(error, dt))
  }

  /** The direct rate feedback. */
  function Damping(x: Sample, cfg: Config): Vec3 {
    x.rateError.Scaled(-cfg.rateFeedbackGain)
  }

  /** The torque before rate limiting. */
  function Desired(s: State, x: Sample): Vec3 {
    var g := ScheduledGains(x.angle, s.config);
    Vec3(Axis(s.roll, g, x.error.x, x.dt).lastOutput,
         Axis(s.pitch, g, x.error.y, x.dt).lastOutput,
         Axis(s.yaw, g, x.error.z, x.dt).lastOutput)
    .Plus(Damping(x, s.config))
  }

  predicate Updatable(s: State, x: Sample, sqrt: real -> real) {
    Limitable(s.last, Desired(s, x), s.config.maxTorqueRate, x.dt, sqrt)
  }

  function Updated(s: State, x: Sample, sqrt: real -> real): State
    requires Updatable(s, x, sqrt)
  {
    var g := ScheduledGains(x.angle, s.config);
    s.(roll := Axis(s.roll, g, x.error.x, x.dt),
       pitch := Axis(s.pitch, g, x.error.y, x.dt),
       yaw := Axis(s.yaw, g, x.error.z, x.dt),
       last := Limited(s.last, Desired(s, x), s.config.maxTorqueRate, x.dt, sqrt))
  }

  /** Nominal gains take effect on the axes at once, large-error gains at the next update. */
  function Retuned(s: State, gains: P.Gains, nominal: bool): State {
    if nominal then
      State(s.config.(nominal := s.config.nominal.(gains := gains)), P.Step(s.roll, P.SetGains(gains)),
            P.Step(s.pitch, P.SetGains(gains)), P.Step(s.yaw, P.SetGains(gains)), s.last)
    else s.(config := s.config.(largeError := s.config.largeError.(gains := gains)))
  }

  /** The axes and the limiter start again; gains and last axis outputs stay. */
  function Restarted(s: State): State {
    s.(roll := P.Step(s.roll, P.Reset), pitch := P.Step(s.pitch, P.Reset), yaw := P.Step(s.yaw, P.Reset), last := ZERO3)
  }

  datatype Event = Update(sample: Sample) | SetGains(gains: P.Gains, nominal: bool) | Reset

  predicate Possible(s: State, e: Event, sqrt: real -> real) {
    e.Update? ==> Updatable(s, e.sample, sqrt)
  }

  function Step(s: State, e: Event, sqrt: real -> real): (t: State)
    requires Possible(s, e, sqrt)
    ensures t.config.maxTorqueRate == s.config.maxTorqueRate
  {
    match e
    case Update(x) => Updated(s, x, sqrt)
    case SetGains(gains, nominal) => Retuned(s, gains, nominal)
    case Reset => Restarted(s)
  }

  lemma AlwaysPossible(s: State, e: Event, sqrt: real -> real)
    requires s.config.maxTorqueRate >= 0.0
    ensures Possible(s, e, sqrt)
  {
    hide Limitable, Desired;
    if e.Update? {
      AlwaysLimitable(s.last, Desired(s, e.sample), s.config.maxTorqueRate, e.sample.dt, sqrt);
    }
  }

  function Run(s: State, events: seq<Event>, sqrt: real -> real): (t: State)
    requires s.config.maxTorqueRate >= 0.0
    ensures t.config.maxTorqueRate == s.config.maxTorqueRate
    decreases |events|
  {
    if events == [] then s
    else
      var before, e := Run(s, events[..|events| - 1], sqrt), events[|events| - 1];
      AlwaysPossible(before, e, sqrt);
      Step(before, e, sqrt)
  }

  /** The requests that the controller has made of its rate limiter since the last reset. */
  function Requests(s: State, events: seq<Event>, sqrt: real -> real): seq<Request>
    requires s.config.maxTorqueRate >= 0.0
    decreases |events|
  {
    if events == [] then []
    else
      var before, e := events[..|events| - 1], events[|events| - 1];
      match e
      case Update(x) => Requests(s, before, sqrt) + [Request(Desired(Run(s, before, sqrt), x), x.dt)]
      case SetGains(_, _) => Requests(s, before, sqrt)
      case Reset => []
  }

  /** The time that updates have covered since the last reset. */
  function UpdateTime(events: seq<Event>): real
    decreases |events|
  {
    if events == [] then 0.0
    else
      var before, e := events[..|events| - 1], events[|events| - 1];
      match e
      case Update(x) => UpdateTime(before) + Positive(x.dt)
      case SetGains(_, _) => UpdateTime(before)
      case Reset => 0.0
  }

  lemma {:induction false} ControllerSlews(config: Config, events: seq<Event>, sqrt: real -> real)
    requires config.maxTorqueRate >= 0.0
    ensures var requests := Requests(Initial(config), events, sqrt);
            && Run(Initial(config), events, sqrt).last == Slew(ZERO3, requests, config.maxTorqueRate, sqrt)
            && Elapsed(requests) == UpdateTime(events)
    decreases |events|
  {
    hide Limited, Limitable, Desired, Axis, ScheduledGains;
    if events != [] {
      var s, before, e := Initial(config), events[..|events| - 1], events[|events| - 1];
      ControllerSlews(config, before, sqrt);
      if e.Update? {
        var rs := Requests(s, before, sqrt);
        var r := Request(Desired(Run(s, before, sqrt), e.sample), e.sample.dt);
        assert (rs + [r])[..|rs|] == rs;
      }
    }
  }

  /** Over any run of updates, gain changes and resets the commanded torque is at most the maximum rate
      times the time since the last reset, and each axis output stays within the nominal limit. */
  lemma TorqueMovesSlowly(config: Config, events: seq<Event>, sqrt: real -> real)
    requires IsSqrt(sqrt) && config.maxTorqueRate >= 0.0 && config.nominal.limit >= 0.0
    ensures var t := Run(Initial(config), events, sqrt);
            && Within(t.last.Minus(ZERO3), Reach(config.maxTorqueRate, UpdateTime(events)))
            && AxesBounded(t, config.nominal.limit)
  {
    hide Requests, Run, Slew;
    ControllerSlews(config, events, sqrt);
    SlewIsBounded(ZERO3, Requests(Initial(config), events, sqrt), config.maxTorqueRate, sqrt);
    AxesStayBounded(config, events, sqrt);
  }

  predicate AxisBounded(pid: P.State, limit: real) {
    pid.config.limit == limit && Abs(pid.lastOutput) <= limit
  }

  predicate AxesBounded(s: State, limit: real) {
    AxisBounded(s.roll, limit) && AxisBounded(s.pitch, limit) && AxisBounded(s.yaw, limit)
  }

  lemma AxisStaysBounded(pid: P.State, gains: P.Gains, error: real, dt: real, limit: real)
    requires limit >= 0.0 && AxisBounded(pid, limit)
    ensures AxisBounded(Axis(pid, gains, error, dt), limit)
  {
  }

  lemma {:induction false} AxesStayBounded(config: Config, events: seq<Event>, sqrt: real -> real)
    requires config.maxTorqueRate >= 0.0 && config.nominal.limit >= 0.0
    ensures AxesBounded(Run(Initial(config), events, sqrt), config.nominal.limit)
    decreases |events|
  {
    hide Limited, Desired, Axis, ScheduledGains;
    if events != [] {
      var s, e := Run(Initial(config), events[..|events| - 1], sqrt), events[|events| - 1];
      AxesStayBounded(config, events[..|events| - 1], sqrt);
      match e
      case Update(x) =>
        var g := ScheduledGains(x.angle, s.config);
        AxisStaysBounded(s.roll, g, x.error.x, x.dt, config.nominal.limit);
        AxisStaysBounded(s.pitch, g, x.error.y, x.dt, config.nominal.limit);
        AxisStaysBounded(s.yaw, g, x.error.z, x.dt, config.nominal.limit);
      case SetGains(gains, nominal) =>
      case Reset =>
    }
  }

  lemma {:induction false} FeedbackIsKept(config: Config, events: seq<Event>, sqrt: real -> real)
    requires config.maxTorqueRate >= 0.0
    ensures Run(Initial(config), events, sqrt).config.rateFeedbackGain == config.rateFeedbackGain
    decreases |events|
  {
    hide Limited, Limitable, Desired, Axis, ScheduledGains;
    if events != [] {
      FeedbackIsKept(config, events[..|events| - 1], sqrt);
    }
  }

  /** New gains take effect on the next update: nominal ones at small errors, the others at large ones, and
      neither disturbs the other set. */
  lemma TuningTakesEffect(config: Config, events: seq<Event>, gains: P.Gains, nominal: bool, angle: real,
                          sqrt: real -> real)
    requires config.maxTorqueRate >= 0.0
    ensures var s := Run(Initial(config), events, sqrt);
            var t := Run(Initial(config), events + [SetGains(gains, nominal)], sqrt);
            var g := ScheduledGains(angle, t.config);
            var lo, hi := s.config.smallErrorThreshold, s.config.largeErrorThreshold;
            && (angle <= lo ==> g == if nominal then gains else s.config.nominal.gains)
            && (lo < angle && hi <= angle ==>
                  && g.kp == (if nominal then s.config.largeError.gains else gains).kp
                  && g.kd == (if nominal then s.config.largeError.gains else gains).kd
                  && g.ki == (if nominal then gains else s.config.nominal.gains).ki)
  {
    hide ScheduledGains, Updated;
    assert (events + [SetGains(gains, nominal)])[..|events|] == events;
    GainsFollowAngle(angle, Run(Initial(config), events + [SetGains(gains, nominal)], sqrt).config);
  }

  /** The radius that the axis limits and the rate feedback allow. */
  function Radius(limit: real, gain: real, w: real, root: real): real {
    root * limit + Abs(gain) * w
  }

  lemma NegatedGain(gain: real, w: real)
    ensures Abs(-gain) * w == Abs(gain) * w
  {
  }

  lemma DesiredStaysInBall(s: State, x: Sample, limit: real, w: real, root: real)
    requires limit >= 0.0 && AxesBounded(s, limit) && Within(x.rateError, w)
    requires root >= 0.0 && root * root == 3.0
    ensures Within(Desired(s, x), Radius(limit, s.config.rateFeedbackGain, w, root))
  {
    hide Axis, ScheduledGains, Within;
    var g := ScheduledGains(x.angle, s.config);
    AxisStaysBounded(s.roll, g, x.error.x, x.dt, limit);
    AxisStaysBounded(s.pitch, g, x.error.y, x.dt, limit);
    AxisStaysBounded(s.yaw, g, x.error.z, x.dt, limit);
    var v := Vec3(Axis(s.roll, g, x.error.x, x.dt).lastOutput, Axis(s.pitch, g, x.error.y, x.dt).lastOutput,
                  Axis(s.yaw, g, x.error.z, x.dt).lastOutput);
    RootProducts(root, limit, root * limit);
    BoxInBall(v, limit, root * limit);
    NegatedGain(s.config.rateFeedbackGain, w);
    WithinScaled(x.rateError, w, -s.config.rateFeedbackGain, Abs(s.config.rateFeedbackGain) * w);
    WithinSum(v, Damping(x, s.config), root * limit, Abs(s.config.rateFeedbackGain) * w);
  }

  /** All rate errors seen stay within w. */
  ghost predicate RatesWithin(events: seq<Event>, w: real) {
    forall i :: 0 <= i < |events| && events[i].Update? ==> Within(events[i].sample.rateError, w)
  }

  lemma {:induction false} RequestsStayInBall(config: Config, events: seq<Event>, sqrt: real -> real, w: real,
                                              root: real)
    requires config.maxTorqueRate >= 0.0 && config.nominal.limit >= 0.0 && RatesWithin(events, w)
    requires root >= 0.0 && root * root == 3.0
    ensures AllWithin(Requests(Initial(config), events, sqrt),
                      Radius(config.nominal.limit, config.rateFeedbackGain, w, root))
    decreases |events|
  {
    hide Limited, Limitable, Desired, Axis, ScheduledGains, Within, Radius, AxesBounded, Run;
    if events != [] {
      var s, before, e := Initial(config), events[..|events| - 1], events[|events| - 1];
      assert RatesWithin(before, w);
      RequestsStayInBall(config, before, sqrt, w, root);
      if e.Update? {
        AxesStayBounded(config, before, sqrt);
        FeedbackIsKept(config, before, sqrt);
        DesiredStaysInBall(Run(s, before, sqrt), e.sample, config.nominal.limit, w, root);
      }
    }
  }

  /** Over any run, however long, the commanded torque is at most what the axis limits and the rate
      feedback allow: sqrt(3) times the axis limit plus the feedback gain times the largest rate error. */
  lemma TorqueStaysBounded(config: Config, events: seq<Event>, sqrt: real -> real, w: real, root: real)
    requires IsSqrt(sqrt) && config.maxTorqueRate >= 0.0 && config.nominal.limit >= 0.0
    requires w >= 0.0 && RatesWithin(events, w) && root >= 0.0 && root * root == 3.0
    ensures Within(Run(Initial(config), events, sqrt).last,
                   Radius(config.nominal.limit, config.rateFeedbackGain, w, root))
  {
    hide Requests, Run, Slew, IsSqrt, Within, Radius, AllWithin;
    var r := Radius(config.nominal.limit, config.rateFeedbackGain, w, root);
    RadiusIsPositive(config.nominal.limit, config.rateFeedbackGain, w, root);
    RequestsStayInBall(config, events, sqrt, w, root);
    ControllerSlews(config, events, sqrt);
    SlewStaysInBall(ZERO3, Requests(Initial(config), events, sqrt), config.maxTorqueRate, sqrt, r);
  }

  lemma RadiusIsPositive(limit: real, gain: real, w: real, root: real)
    requires limit >= 0.0 && w >= 0.0 && root >= 0.0
    ensures Within(ZERO3, Radius(limit, gain, w, root))
  {
    ProductSign(root, limit, root * limit);
    ProductSign(Abs(gain), w, Abs(gain) * w);
    var r := Radius(limit, gain, w, root);
    ProductSign(r, r, r * r);
  }

  // ---------- The commanded torque in numbers ----------

  /** The integral part and the whole output of one axis, before any limit. */
  function IntegralPart(pid: P.State, g: P.Gains, error: real, dt: real): real {
    Times(g.ki, pid.integral + Times(error, dt))
  }

  function AxisTorque(pid: P.State, g: P.Gains, error: real, dt: real): real
    requires dt > 0.0
  {
    Times(g.kp, error) + IntegralPart(pid, g, error, dt)
    + if pid.firstRun then 0.0 else g.kd * (error - pid.lastError) / dt
  }

  /** Neither limit of the axis is met. */
  predicate Free(pid: P.State, g: P.Gains, error: real, dt: real)
    requires dt > 0.0
  {
    && Abs(IntegralPart(pid, g, error, dt)) <= pid.config.antiWindup
    && Abs(AxisTorque(pid, g, error, dt)) <= pid.config.limit
  }

  lemma AxisLaw(pid: P.State, g: P.Gains, error: real, dt: real)
    requires dt > 0.0 && Free(pid, g, error, dt)
    ensures Axis(pid, g, error, dt).lastOutput == AxisTorque(pid, g, error, dt)
  {
    hide Times, P.Slope, Abs, P.Clamp;
    Unclamped(IntegralPart(pid, g, error, dt), pid.config.antiWindup);
    Unclamped(AxisTorque(pid, g, error, dt), pid.config.limit);
    SlopeInNumbers(g.kd, error - pid.lastError, dt);
  }

  lemma Unclamped(x: real, limit: real)
    requires Abs(x) <= limit
    ensures P.Clamp(x, limit) == x
  {
    P.ClampBounds(x, limit);
  }

  lemma SlopeInNumbers(k: real, change: real, dt: real)
    requires dt > 0.0
    ensures P.Slope(k, change, dt) == k * change / dt
  {
  }

  lemma WithinReach(last: Vec3, wanted: Vec3, rate: real, dt: real, sqrt: real -> real)
    requires IsSqrt(sqrt) && dt > 0.0 && Norm(wanted.Minus(last), sqrt) <= rate * dt
    ensures Limitable(last, wanted, rate, dt, sqrt) && Limited(last, wanted, rate, dt, sqrt) == wanted
  {
    hide IsSqrt, Norm;
    RestOfDelta(last, wanted, 0.0);
    NormIsNorm(wanted.Minus(last), sqrt);
  }

  /** The law of the commanded torque: while no limit is met, each component is the PID output of its own
      axis less the feedback gain times the rate error. */
  lemma TorqueLaw(s: State, x: Sample, sqrt: real -> real, wanted: Vec3)
    requires IsSqrt(sqrt) && x.dt > 0.0
    requires var g := ScheduledGains(x.angle, s.config);
             && Free(s.roll, g, x.error.x, x.dt)
             && Free(s.pitch, g, x.error.y, x.dt)
             && Free(s.yaw, g, x.error.z, x.dt)
    requires var g, k := ScheduledGains(x.angle, s.config), s.config.rateFeedbackGain;
             && wanted.x == AxisTorque(s.roll, g, x.error.x, x.dt) - k * x.rateError.x
             && wanted.y == AxisTorque(s.pitch, g, x.error.y, x.dt) - k * x.rateError.y
             && wanted.z == AxisTorque(s.yaw, g, x.error.z, x.dt) - k * x.rateError.z
    requires Norm(wanted.Minus(s.last), sqrt) <= s.config.maxTorqueRate * x.dt
    ensures Possible(s, Update(x), sqrt) && Step(s, Update(x), sqrt).last == wanted
  {
    hide Axis, AxisTorque, Free, ScheduledGains, IsSqrt, Norm;
    var g := ScheduledGains(x.angle, s.config);
    AxisLaw(s.roll, g, x.error.x, x.dt);
    AxisLaw(s.pitch, g, x.error.y, x.dt);
    AxisLaw(s.yaw, g, x.error.z, x.dt);
    assert Desired(s, x) == wanted;
    WithinReach(s.last, wanted, s.config.maxTorqueRate, x.dt, sqrt);
  }

  function Outputs(s: State): Vec3 {
    Vec3(s.roll.lastOutput, s.pitch.lastOutput, s.yaw.lastOutput)
  }

  lemma OpposedDot(v: Vec3, k: real)
    ensures v.Scaled(-k).Dot(v) == -k * v.NormSq()
  {
  }

  /** In every update, limited axes and unreached requests included: what the request adds to the three axis
      outputs works against the rate error, by the feedback gain times its square, so with a gain that is not
      negative the feedback never drives the rate up.  A request within reach is the torque commanded. */
  lemma FeedbackOpposesRate(s: State, x: Sample, sqrt: real -> real)
    requires IsSqrt(sqrt) && x.dt > 0.0 && Possible(s, Update(x), sqrt)
    ensures var t, r, k := Step(s, Update(x), sqrt), Desired(s, x), s.config.rateFeedbackGain;
            && r.Minus(Outputs(t)).Dot(x.rateError) == -k * x.rateError.NormSq()
            && (k >= 0.0 ==> r.Minus(Outputs(t)).Dot(x.rateError) <= 0.0)
            && (Norm(r.Minus(s.last), sqrt) <= s.config.maxTorqueRate * x.dt ==> t.last == r)
  {
    hide Axis, ScheduledGains, IsSqrt, Norm;
    var t, r, k := Step(s, Update(x), sqrt), Desired(s, x), s.config.rateFeedbackGain;
    OpposedDot(x.rateError, k);
    assert r.Minus(Outputs(t)) == x.rateError.Scaled(-k);
    if k >= 0.0 {
      ProductSign(k, x.rateError.NormSq(), k * x.rateError.NormSq());
    }
    if Norm(r.Minus(s.last), sqrt) <= s.config.maxTorqueRate * x.dt {
      WithinReach(s.last, r, s.config.maxTorqueRate, x.dt, sqrt);
    }
  }

  /** With no attitude error, after a reset, the commanded torque is the rate feedback alone. */
  lemma DampingAlone(before: State, x: Sample, sqrt: real -> real)
    requires IsSqrt(sqrt) && x.dt > 0.0 && x.error == ZERO3
    requires before.roll.config.limit >= 0.0 && before.pitch.config.limit >= 0.0 && before.yaw.config.limit >= 0.0
    requires before.roll.config.antiWindup >= 0.0 && before.pitch.config.antiWindup >= 0.0
    requires before.yaw.config.antiWindup >= 0.0
    requires Norm(x.rateError.Scaled(-before.config.rateFeedbackGain), sqrt) <= before.config.maxTorqueRate * x.dt
    ensures var s := Step(before, Reset, sqrt);
            && Possible(s, Update(x), sqrt)
            && Step(s, Update(x), sqrt).last == x.rateError.Scaled(-before.config.rateFeedbackGain)
  {
    hide ScheduledGains, IsSqrt, Norm, AxisTorque, Free;
    var s, wanted := Step(before, Reset, sqrt), x.rateError.Scaled(-before.config.rateFeedbackGain);
    var g := ScheduledGains(x.angle, s.config);
    NoErrorNoOutput(s.roll, g, x.dt);
    NoErrorNoOutput(s.pitch, g, x.dt);
    NoErrorNoOutput(s.yaw, g, x.dt);
    assert wanted.Minus(s.last) == wanted;
    TorqueLaw(s, x, sqrt, wanted);
  }

  lemma NoErrorNoOutput(pid: P.State, g: P.Gains, dt: real)
    requires dt > 0.0 && pid.integral == 0.0 && pid.firstRun
    requires pid.config.limit >= 0.0 && pid.config.antiWindup >= 0.0
    ensures Free(pid, g, 0.0, dt) && AxisTorque(pid, g, 0.0, dt) == 0.0
  {
  }

  class Controller {
    var config: Config
    const roll: P.PID
    const pitch: P.PID
    const yaw: P.PID
    var lastTorque: Vec3
    const sqrt: real -> real

    ghost predicate Valid()
      reads this
    {
      && IsSqrt(sqrt)
      && roll != pitch && roll != yaw && pitch != yaw
    }

    function Value(): State
      reads this, roll, pitch, yaw
    {
      State(config, roll.Value(), pitch.Value(), yaw.Value(), lastTorque)
    }

    constructor (config: Config, sqrt: real -> real)
      requires IsSqrt(sqrt)
      ensures Valid() && Value() == Initial(config) && this.sqrt == sqrt
      ensures fresh(roll) && fresh(pitch) && fresh(yaw)
    {
      this.config, this.sqrt := config, sqrt;
      roll := new P.PID(config.nominal);
      pitch := new P.PID(config.nominal);
      yaw := new P.PID(config.nominal);
      lastTorque := ZERO3;
    }

    method Update(x: Sample) returns (torque: Vec3)
      requires Valid() && Updatable(Value(), x, sqrt)
      modifies this, roll, pitch, yaw
      ensures Valid()
      ensures Value() == Step(old(Value()), Event.Update(x), sqrt)
      ensures torque == lastTorque
    {
      hide Limited, Limitable, P.Calculate, IsSqrt;
      var alpha := GainFactor(x.angle, config);
      var gains := config.nominal.gains;
      if alpha < 1.0 {
        gains := gains.(kp := Blend(alpha, config.nominal.gains.kp, config.largeError.gains.kp),
                        kd := Blend(alpha, config.nominal.gains.kd, config.largeError.gains.kd));
      }
      assert gains == ScheduledGains(x.angle, config);
      hide GainFactor, Blend;
      roll.SetGains(gains);
      pitch.SetGains(gains);
      yaw.SetGains(gains);
      var tx := roll.Calculate(x.error.x, x.dt);
      var ty := pitch.Calculate(x.error.y, x.dt);
      var tz := yaw.Calculate(x.error.z, x.dt);
      var damping := x.rateError.Scaled(-config.rateFeedbackGain);
      torque := Vec3(tx, ty, tz).Plus(damping);
      assert torque == Desired(old(Value()), x);
      torque := ApplyRateLimiting(torque, x.dt);
    }

    method ApplyRateLimiting(desired: Vec3, dt: real) returns (limited: Vec3)
      requires Limitable(lastTorque, desired, config.maxTorqueRate, dt, sqrt) && IsSqrt(sqrt)
      modifies `lastTorque
      ensures limited == lastTorque == Limited(old(lastTorque), desired, config.maxTorqueRate, dt, sqrt)
    {
      hide Norm, Reach, IsSqrt;
      if dt <= 0.0 {
        return lastTorque;
      }
      var delta := desired.Minus(lastTorque);
      var norm := Norm(delta, sqrt);
      var maxDelta := Reach(config.maxTorqueRate, dt);
      if norm > maxDelta {
        delta := delta.Scaled(maxDelta / norm);
      }
      limited := lastTorque.Plus(delta);
      lastTorque := limited;
    }

    method SetGains(gains: P.Gains, nominal: bool)
      requires Valid()
      modifies this, roll, pitch, yaw
      ensures Valid()
      ensures Value() == Step(old(Value()), Event.SetGains(gains, nominal), sqrt)
    {
      if nominal {
        config := config.(nominal := config.nominal.(gains := gains));
        roll.SetGains(gains);
        pitch.SetGains(gains);
        yaw.SetGains(gains);
      } else {
        config := config.(largeError := config.largeError.(gains := gains));
      }
    }

    method Reset()
      requires Valid()
      modifies this, roll, pitch, yaw
      ensures Valid() && Value() == Step(old(Value()), Event.Reset, sqrt)
    {
      roll.Reset();
      pitch.Reset();
      yaw.Reset();
      lastTorque := ZERO3;
    }
  }
}
