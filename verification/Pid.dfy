/** Discrete PID control with a clamped integral term and a saturated output. */
module Pid {
  import opened Reals

  datatype Gains = Gains(kp: real, ki: real, kd: real)

  datatype Config = Config(gains: Gains, limit: real, antiWindup: real)

  datatype State = State(config: Config, integral: real, lastError: real, lastOutput: real, firstRun: bool)

  function Initial(config: Config): State {
    State(config, 0.0, 0.0, 0.0, true)
  }

  function Min(a: real, b: real): real {
    if b < a then b else a
  }

  function Max(a: real, b: real): real {
    if a < b then b else a
  }

  /** max(-limit, min(limit, x)), as the source nests them. */
  function Clamp(x: real, limit: real): real {
    Max(-limit, Min(limit, x))
  }

  function Slope(k: real, change: real, dt: real): real
    requires dt > 0.0
  {
    k * change / dt
  }

  function IntegralTerm(s: State, error: real, dt: real): real {
    Clamp(Times(s.config.gains.ki, s.integral + Times(error, dt)), s.config.antiWindup)
  }

  /** The sum of the three terms before saturation. */
  function Unsaturated(s: State, error: real, dt: real): real
    requires dt > 0.0
  {
    var g := s.config.gains;
    Times(g.kp, error) + IntegralTerm(s, error, dt) + (if s.firstRun then 0.0 else Slope(g.kd, error - s.lastError, dt))
  }

  function Calculate(s: State, error: real, dt: real): State {
    if dt <= 0.0 then s
    else
      var ki, iTerm := s.config.gains.ki, IntegralTerm(s, error, dt);
      var integral := if Abs(ki) > 0.000000001 then iTerm / ki else s.integral + Times(error, dt);
      State(s.config, integral, error, Clamp(Unsaturated(s, error, dt), s.config.limit), false)
  }

  /** Clamping bounds the magnitude exactly when the limit is not negative, and then leaves what is within the
      limit alone and cuts the rest to the limit on its side.  A negative limit gives a constant. */
  lemma ClampBounds(x: real, limit: real)
    ensures Abs(Clamp(x, limit)) <= limit <==> limit >= 0.0
    ensures limit >= 0.0 && Abs(x) <= limit ==> Clamp(x, limit) == x
    ensures limit >= 0.0 && x > limit ==> Clamp(x, limit) == limit
    ensures limit >= 0.0 && x < -limit ==> Clamp(x, limit) == -limit
    ensures limit < 0.0 ==> Clamp(x, limit) == -limit
  {
  }

  /** After a call with a positive step the output is within the limit, and for a non-negligible
      integral gain the integral contribution is within the anti-windup limit, each exactly when that
      limit is not negative. */
  lemma CallIsSaturated(s: State, error: real, dt: real)
    requires dt > 0.0
    ensures var t := Calculate(s, error, dt);
            && (Abs(t.lastOutput) <= s.config.limit <==> s.config.limit >= 0.0)
            && (Abs(s.config.gains.ki) > 0.000000001 ==>
                  (Abs(Times(s.config.gains.ki, t.integral)) <= s.config.antiWindup <==> s.config.antiWindup >= 0.0))
  {
  }

  /** What a call with a positive step remembers: the grown integral, cut so that the integral part of the output
      stays at the anti-windup limit on its side; without an integral gain to speak of it is not cut. */
  lemma IntegralIsCut(s: State, error: real, dt: real, grown: real, part: real)
    requires dt > 0.0 && grown == s.integral + Times(error, dt) && part == Times(s.config.gains.ki, grown)
    ensures var t, ki, limit := Calculate(s, error, dt), s.config.gains.ki, s.config.antiWindup;
            && (Abs(ki) <= 0.000000001 ==> t.integral == grown)
            && (Abs(ki) > 0.000000001 && limit >= 0.0 ==>
                  Times(ki, t.integral) == if part > limit then limit else if part < -limit then -limit else part)
            && t.lastError == error && !t.firstRun && t.config == s.config
  {
    var ki := s.config.gains.ki;
    ClampBounds(part, s.config.antiWindup);
    hide Clamp, Unsaturated, Times;
    assert IntegralTerm(s, error, dt) == Clamp(part, s.config.antiWindup);
    if Abs(ki) > 0.000000001 {
      DividedBack(ki, Clamp(part, s.config.antiWindup));
    }
  }

  lemma DividedBack(k: real, x: real)
    requires k != 0.0
    ensures Times(k, x / k) == x
  {
  }

  // ---------- Runs ----------

  datatype Event = Sample(error: real, dt: real) | SetGains(gains: Gains) | Reset

  function Step(s: State, e: Event): State {
    match e
    case Sample(error, dt) => Calculate(s, error, dt)
    case SetGains(gains) => s.(config := s.config.(gains := gains))
    case Reset => s.(integral := 0.0, lastError := 0.0, firstRun := true)
  }

  function Run(s: State, events: seq<Event>): State
    decreases |events|
  {
    if events == [] then s else Step(Run(s, events[..|events| - 1]), events[|events| - 1])
  }

  lemma {:induction false} LimitsAreKept(config: Config, events: seq<Event>)
    ensures var s := Run(Initial(config), events);
            s.config.limit == config.limit && s.config.antiWindup == config.antiWindup
    decreases |events|
  {
    if events != [] {
      hide Calculate;
      LimitsAreKept(config, events[..|events| - 1]);
      match events[|events| - 1]
      case Sample(error, dt) => ConfigIsKept(Run(Initial(config), events[..|events| - 1]), error, dt);
      case SetGains(_) =>
      case Reset =>
    }
  }

  /** The last output stays within the output limit over any run, through changes of gains, resets and
      calls with no time step (which repeat it). */
  lemma {:induction false} OutputStaysBounded(config: Config, events: seq<Event>)
    requires config.limit >= 0.0
    ensures Abs(Run(Initial(config), events).lastOutput) <= config.limit
    decreases |events|
  {
    if events != [] {
      hide Calculate;
      var s := Run(Initial(config), events[..|events| - 1]);
      OutputStaysBounded(config, events[..|events| - 1]);
      LimitsAreKept(config, events[..|events| - 1]);
      match events[|events| - 1]
      case Sample(error, dt) =>
        ConfigIsKept(s, error, dt);
        if dt > 0.0 {
          CallIsSaturated(s, error, dt);
        }
      case SetGains(_) =>
      case Reset =>
    }
  }

  lemma ConfigIsKept(s: State, error: real, dt: real)
    ensures Calculate(s, error, dt).config == s.config
    ensures dt <= 0.0 ==> Calculate(s, error, dt) == s
  {
  }

  /** After every call in a run, whatever gains were set before, the integral contribution under the
      gain now in force is within the anti-windup limit. */
  lemma IntegralStaysBounded(config: Config, events: seq<Event>, error: real, dt: real)
    requires config.antiWindup >= 0.0 && dt > 0.0
    ensures var s := Run(Initial(config), events + [Sample(error, dt)]);
            Abs(s.config.gains.ki) > 0.000000001 ==> Abs(Times(s.config.gains.ki, s.integral)) <= config.antiWindup
  {
    hide Calculate;
    var s := Run(Initial(config), events);
    assert (events + [Sample(error, dt)])[..|events|] == events;
    LimitsAreKept(config, events);
    ConfigIsKept(s, error, dt);
    CallIsSaturated(s, error, dt);
  }

  /** After a reset the next call with a positive step does what it would do in a new controller with the gains
      now in force; until then the last output is repeated. */
  lemma ResetStartsAgain(config: Config, events: seq<Event>, error: real, dt: real)
    ensures var s := Run(Initial(config), events);
            && (dt > 0.0 ==>
                  Run(Initial(config), events + [Reset, Sample(error, dt)])
                  == Run(Initial(s.config), [Sample(error, dt)]))
            && (dt <= 0.0 ==>
                  Run(Initial(config), events + [Reset, Sample(error, dt)]).lastOutput == s.lastOutput)
  {
    hide IntegralTerm, Clamp, Unsaturated;
    var s, e := Run(Initial(config), events), Sample(error, dt);
    var all := events + [Reset, e];
    assert all[..|all| - 1] == events + [Reset] && (events + [Reset])[..|events|] == events;
    assert [e][..0] == [];
    assert Run(Initial(config), all) == Step(Step(s, Reset), e);
    assert Run(Initial(s.config), [e]) == Step(Initial(s.config), e);
    FirstCall(Step(s, Reset), Initial(s.config), error, dt);
  }

  lemma FirstCall(s: State, t: State, error: real, dt: real)
    requires s == t.(lastOutput := s.lastOutput) && s.firstRun
    ensures dt > 0.0 ==> Calculate(s, error, dt) == Calculate(t, error, dt)
  {
  }

  // ---------- The textbook law ----------

  /** Samples only, each with a positive time step. */
  predicate Sampled(events: seq<Event>) {
    forall i :: 0 <= i < |events| ==> events[i].Sample? && events[i].dt > 0.0
  }

  /** The integral of the error so far. */
  function ErrorSum(events: seq<Event>): real
    requires Sampled(events)
    decreases |events|
  {
    if events == [] then 0.0
    else ErrorSum(events[..|events| - 1]) + Times(events[|events| - 1].error, events[|events| - 1].dt)
  }

  /** The integral term of no prefix reaches the anti-windup limit. */
  ghost predicate NeverWindsUp(config: Config, events: seq<Event>)
    requires Sampled(events)
  {
    forall k :: 0 <= k <= |events| ==> Abs(Times(config.gains.ki, ErrorSum(events[..k]))) <= config.antiWindup
  }

  lemma PrefixNeverWindsUp(config: Config, events: seq<Event>)
    requires events != [] && Sampled(events) && NeverWindsUp(config, events)
    ensures NeverWindsUp(config, events[..|events| - 1])
    ensures Abs(Times(config.gains.ki, ErrorSum(events))) <= config.antiWindup
  {
    hide Times, ErrorSum, Abs;
    var before := events[..|events| - 1];
    assert events[..|events|] == events;
    assert forall k :: 0 <= k <= |before| ==> before[..k] == events[..k];
  }

  lemma IntegralStep(s: State, error: real, dt: real)
    requires dt > 0.0 && Abs(Times(s.config.gains.ki, s.integral + Times(error, dt))) <= s.config.antiWindup
    ensures Calculate(s, error, dt).integral == s.integral + Times(error, dt)
    ensures IntegralTerm(s, error, dt) == Times(s.config.gains.ki, s.integral + Times(error, dt))
  {
    hide Times, Unsaturated;
    var ki, grown := s.config.gains.ki, s.integral + Times(error, dt);
    ClampBounds(Times(ki, grown), s.config.antiWindup);
    if Abs(ki) > 0.000000001 {
      assert Times(ki, grown) / ki == grown by { TimesDivided(ki, grown); }
    }
  }

  lemma TimesDivided(k: real, x: real)
    requires k != 0.0
    ensures Times(k, x) / k == x
  {
  }

  lemma {:induction false} IntegralIsErrorSum(config: Config, events: seq<Event>)
    requires Sampled(events) && NeverWindsUp(config, events)
    ensures var s := Run(Initial(config), events);
            && s.config == config
            && s.integral == ErrorSum(events)
            && (s.firstRun <==> events == [])
            && (events != [] ==> s.lastError == events[|events| - 1].error)
    decreases |events|
  {
    if events != [] {
      var before, e := events[..|events| - 1], events[|events| - 1];
      hide Calculate, Times, Slope, NeverWindsUp;
      PrefixNeverWindsUp(config, events);
      IntegralIsErrorSum(config, before);
      var s := Run(Initial(config), before);
      IntegralStep(s, e.error, e.dt);
      CalculateKeeps(s, e.error, e.dt);
    }
  }

  lemma ErrorSumGrows(events: seq<Event>)
    requires events != [] && Sampled(events)
    ensures var n := |events| - 1;
            ErrorSum(events) == ErrorSum(events[..n]) + Times(events[n].error, events[n].dt)
  {
  }

  lemma CalculateKeeps(s: State, error: real, dt: real)
    requires dt > 0.0
    ensures var t := Calculate(s, error, dt);
            t.config == s.config && t.lastError == error && !t.firstRun
  {
  }

  lemma PrefixIsSampled(events: seq<Event>)
    requires events != [] && Sampled(events)
    ensures Sampled(events[..|events| - 1])
    ensures events[|events| - 1].Sample? && events[|events| - 1].dt > 0.0
    ensures |events| > 1 ==> events[|events| - 2].Sample?
  {
  }

  lemma LawStep(s: State, error: real, dt: real, total: real, previous: real)
    requires dt > 0.0 && total == s.integral + Times(error, dt) && (!s.firstRun ==> s.lastError == previous)
    requires Abs(Times(s.config.gains.ki, total)) <= s.config.antiWindup
    ensures var g := s.config.gains;
            Calculate(s, error, dt).lastOutput
            == Clamp(Times(g.kp, error) + Times(g.ki, total)
                     + (if s.firstRun then 0.0 else Slope(g.kd, error - previous, dt)), s.config.limit)
  {
    hide Times, Slope, Clamp, IntegralTerm;
    IntegralStep(s, error, dt);
  }

  /** While the integral term stays within its limit the output is the saturated textbook law: kp times
      the error, ki times its integral over the whole run, kd times its difference quotient, which the
      first call leaves out. */
  lemma TextbookLaw(config: Config, events: seq<Event>)
    requires events != [] && Sampled(events) && NeverWindsUp(config, events)
    ensures var n, g := |events| - 1, config.gains;
            var rate := if n == 0 then 0.0 else Slope(g.kd, events[n].error - events[n - 1].error, events[n].dt);
            Run(Initial(config), events).lastOutput
            == Clamp(Times(g.kp, events[n].error) + Times(g.ki, ErrorSum(events)) + rate, config.limit)
  {
    hide Times, Slope, Clamp, Calculate, Sampled, NeverWindsUp, ErrorSum, Abs;
    var n := |events| - 1;
    var e := events[n];
    PrefixIsSampled(events);
    PrefixNeverWindsUp(config, events);
    IntegralIsErrorSum(config, events[..n]);
    ErrorSumGrows(events);
    LawStep(Run(Initial(config), events[..n]), e.error, e.dt, ErrorSum(events),
            if n == 0 then 0.0 else events[n - 1].error);
  }

  class PID {
    var config: Config
    var integral: real
    var lastError: real
    var lastOutput: real
    var firstRun: bool

    function Value(): State
      reads this
    {
      State(config, integral, lastError, lastOutput, firstRun)
    }

    constructor (config: Config)
      ensures Value() == Initial(config) == State(config, 0.0, 0.0, 0.0, true)
    {
      this.config := config;
      integral, lastError, lastOutput, firstRun := 0.0, 0.0, 0.0, true;
    }

    method Calculate(error: real, dt: real) returns (output: real)
      modifies this
      ensures Value() == Step(old(Value()), Sample(error, dt))
      ensures output == lastOutput
    {
      if dt <= 0.0 {
        return lastOutput;
      }
      ghost var before := Value();
      var pTerm := Times(config.gains.kp, error);
      integral := integral + Times(error, dt);
      var iTerm := Times(config.gains.ki, integral);
      iTerm := Max(-config.antiWindup, Min(config.antiWindup, iTerm));
      assert iTerm == IntegralTerm(before, error, dt);
      if Abs(config.gains.ki) > 0.000000001 {
        integral := iTerm / config.gains.ki;
      }
      var dTerm := 0.0;
      if !firstRun {
        dTerm := Slope(config.gains.kd, error - lastError, dt);
      }
      firstRun := false;
      output := pTerm + iTerm + dTerm;
      assert output == Unsaturated(before, error, dt);
      output := Max(-config.limit, Min(config.limit, output));
      lastError := error;
      lastOutput := output;
    }

    method Reset()
      modifies this
      ensures Value() == Step(old(Value()), Event.Reset)
    {
      integral := 0.0;
      lastError := 0.0;
      firstRun := true;
    }

    method SetGains(gains: Gains)
      modifies this
      ensures Value() == Step(old(Value()), Event.SetGains(gains))
    {
      config := config.(gains := gains);
    }
  }
}
