/** Mission modes and the rules by which they change. */
module ModeManager {
  import opened Reals
  import opened Vectors3

  datatype Mode = SAFE | NOMINAL | SCIENCE | DOWNLINK | DEGRADED | CONTINGENCY

  datatype Config = Config(safeToNominal: real, nominalToSafe: real, minTime: real)

  datatype State = State(current: Mode, previous: Mode, time: real)

  function Initial(): State {
    State(SAFE, SAFE, 0.0)
  }

  /** Where the thresholds send a mode at a given angular rate, timing aside. */
  function Target(m: Mode, rate: real, cfg: Config): Mode {
    match m
    case SAFE => if rate < cfg.safeToNominal then NOMINAL else SAFE
    case CONTINGENCY => CONTINGENCY
    case _ => if rate > cfg.nominalToSafe then SAFE else m
  }

  function Transition(s: State, m: Mode): State {
    if m == s.current then s else State(m, s.current, 0.0)
  }

  function AfterUpdate(s: State, rate: real, dt: real, cfg: Config): State {
    var t := s.(time := s.time + dt);
    if t.time >= cfg.minTime then Transition(t, Target(t.current, rate, cfg)) else t
  }

  // ---------- Runs ----------

  datatype Event = Tick(rate: real, dt: real) | Change(mode: Mode)

  /** Commands, forced changes and resets all go through the same transition. */
  function Step(s: State, e: Event, cfg: Config): State {
    match e
    case Tick(rate, dt) => AfterUpdate(s, rate, dt, cfg)
    case Change(m) => Transition(s, m)
  }

  function Run(s: State, events: seq<Event>, cfg: Config): State
    decreases |events|
  {
    if events == [] then s else Step(Run(s, events[..|events| - 1], cfg), events[|events| - 1], cfg)
  }

  function Elapsed(events: seq<Event>): real
    decreases |events|
  {
    if events == [] then 0.0
    else
      var e := events[|events| - 1];
      Elapsed(events[..|events| - 1]) + if e.Tick? then e.dt else 0.0
  }

  /** The number of mode changes made by updates, as opposed to commands and forced changes. */
  function Automatic(s: State, events: seq<Event>, cfg: Config): nat
    decreases |events|
  {
    if events == [] then 0
    else
      var before := events[..|events| - 1];
      Automatic(s, before, cfg)
      + if events[|events| - 1].Tick? && Run(s, events, cfg).current != Run(s, before, cfg).current then 1 else 0
  }

  ghost predicate Forward(events: seq<Event>) {
    forall i :: 0 <= i < |events| && events[i].Tick? ==> events[i].dt >= 0.0
  }

  lemma {:induction false} ElapsedForward(events: seq<Event>)
    requires Forward(events)
    ensures Elapsed(events) >= 0.0
    decreases |events|
  {
    if events != [] {
      ElapsedForward(events[..|events| - 1]);
    }
  }

  lemma StepBudget(s: State, e: Event, cfg: Config)
    requires s.time >= 0.0 && cfg.minTime >= 0.0 && (e.Tick? ==> e.dt >= 0.0)
    ensures var t := Step(s, e, cfg);
            && 0.0 <= t.time <= s.time + (if e.Tick? then e.dt else 0.0)
            && (e.Tick? && t.current != s.current ==> cfg.minTime + t.time <= s.time + e.dt)
  {
  }

  lemma {:induction false} TimeBudget(s: State, events: seq<Event>, cfg: Config)
    requires s.time >= 0.0 && cfg.minTime >= 0.0 && Forward(events)
    ensures Run(s, events, cfg).time >= 0.0
    ensures Multiple(Automatic(s, events, cfg), cfg.minTime) + Run(s, events, cfg).time <= s.time + Elapsed(events)
    decreases |events|
  {
    hide Multiple, Step;
    MultipleStep(0, cfg.minTime);
    if events != [] {
      var before := events[..|events| - 1];
      TimeBudget(s, before, cfg);
      StepBudget(Run(s, before, cfg), events[|events| - 1], cfg);
      MultipleStep(Automatic(s, before, cfg), cfg.minTime);
    }
  }

  /** The minimum time throttles the automatic transitions over any mixed run, forced and commanded
      changes included. */
  lemma AutomaticChangesAreThrottled(s: State, events: seq<Event>, cfg: Config)
    requires s.time >= 0.0 && Forward(events)
    ensures Multiple(Automatic(s, events, cfg), cfg.minTime) <= s.time + Elapsed(events)
  {
    hide Multiple;
    ElapsedForward(events);
    if cfg.minTime >= 0.0 {
      TimeBudget(s, events, cfg);
    } else {
      NegativeMultiple(Automatic(s, events, cfg), cfg.minTime);
    }
  }

  lemma NegativeMultiple(n: nat, k: real)
    requires k < 0.0
    ensures Multiple(n, k) <= 0.0
  {
  }

  /** The mode differs on the two sides of event k - 1. */
  predicate ChangedAt(s: State, events: seq<Event>, k: nat, cfg: Config)
    requires 0 < k <= |events|
  {
    Run(s, events[..k - 1], cfg).current != Run(s, events[..k], cfg).current
  }

  /** The last mode change of the run happened k events into it; k = 0 when there was none. */
  ghost predicate LastChange(s: State, events: seq<Event>, k: nat, cfg: Config) {
    && k <= |events|
    && (k > 0 ==> ChangedAt(s, events, k, cfg))
    && forall j :: k < j <= |events| ==> !ChangedAt(s, events, j, cfg)
  }

  lemma StepTime(s: State, e: Event, cfg: Config)
    ensures Step(s, e, cfg).current == s.current ==>
              Step(s, e, cfg) == s.(time := s.time + if e.Tick? then e.dt else 0.0)
    ensures Step(s, e, cfg).current != s.current ==>
              Step(s, e, cfg).time == 0.0 && Step(s, e, cfg).previous == s.current
  {
  }

  lemma LastChangeOfPrefix(s: State, events: seq<Event>, k: nat, cfg: Config)
    requires k < |events| && LastChange(s, events, k, cfg)
    ensures LastChange(s, events[..|events| - 1], k, cfg)
  {
    var before := events[..|events| - 1];
    assert forall j :: 0 <= j <= |before| ==> before[..j] == events[..j];
    forall j | k < j <= |before| ensures !ChangedAt(s, before, j, cfg) {
      assert !ChangedAt(s, events, j, cfg);
    }
  }

  /** The timer reads exactly the time since the last change of mode, and the previous mode is the
      one that change left. */
  lemma {:induction false} TimerIsTimeSinceChange(s: State, events: seq<Event>, k: nat, cfg: Config)
    requires LastChange(s, events, k, cfg)
    ensures var t := Run(s, events, cfg);
            && t.time == (if k == 0 then s.time else 0.0) + Elapsed(events[k..])
            && t.previous == if k == 0 then s.previous else Run(s, events[..k - 1], cfg).current
    decreases |events|
  {
    if |events| > 0 {
      var before := events[..|events| - 1];
      StepTime(Run(s, before, cfg), events[|events| - 1], cfg);
      assert events[..|events|] == events;
      if k < |events| {
        LastChangeOfPrefix(s, events, k, cfg);
        TimerIsTimeSinceChange(s, before, k, cfg);
        assert !ChangedAt(s, events, |events|, cfg);
        assert before[k..] == events[k..][..|events| - k - 1];
        assert k > 0 ==> before[..k - 1] == events[..k - 1];
      }
    }
  }

  lemma {:induction false} LastChangeExists(s: State, events: seq<Event>, cfg: Config) returns (k: nat)
    ensures LastChange(s, events, k, cfg)
    decreases |events|
  {
    if events == [] {
      k := 0;
    } else if ChangedAt(s, events, |events|, cfg) {
      k := |events|;
    } else {
      var before := events[..|events| - 1];
      k := LastChangeExists(s, before, cfg);
      assert forall j :: 0 <= j <= |before| ==> before[..j] == events[..j];
      forall j | k < j <= |events| ensures !ChangedAt(s, events, j, cfg) {
        if j <= |before| {
          assert !ChangedAt(s, before, j, cfg);
        }
      }
    }
  }

  /** The rules, over any run from the start.  With k the last change before an update and waited the time
      since then: SAFE gives way to NOMINAL exactly when the minimum time has passed and the rate is below the
      lower threshold; the other modes fall back to SAFE exactly when it has passed and the rate is above the
      upper one, CONTINGENCY never.  A commanded or forced change always happens. */
  lemma ChangeLaw(events: seq<Event>, e: Event, k: nat, cfg: Config)
    requires LastChange(Initial(), events, k, cfg)
    ensures var m, m' := Run(Initial(), events, cfg).current, Run(Initial(), events + [e], cfg).current;
            match e
            case Tick(rate, dt) =>
              var due := Elapsed(events[k..]) + dt >= cfg.minTime;
              && (m == SAFE ==> m' == if due && rate < cfg.safeToNominal then NOMINAL else SAFE)
              && (m in {NOMINAL, SCIENCE, DOWNLINK, DEGRADED} ==>
                    m' == if due && rate > cfg.nominalToSafe then SAFE else m)
              && (m == CONTINGENCY ==> m' == CONTINGENCY)
            case Change(mode) => m' == mode
  {
    TimerIsTimeSinceChange(Initial(), events, k, cfg);
    assert (events + [e])[..|events|] == events;
  }

  // ---------- Hysteresis ----------

  /** Updates at a constant rate. */
  function Ticks(rate: real, dts: seq<real>): (events: seq<Event>)
    ensures |events| == |dts|
  {
    seq(|dts|, i requires 0 <= i < |dts| => Tick(rate, dts[i]))
  }

  ghost predicate AtMostOneAutomatic(cfg: Config) {
    forall s: State, rate: real, dts: seq<real> ::
      rate >= 0.0 ==> Automatic(s, Ticks(rate, dts), cfg) <= 1
  }

  lemma {:induction false} SettlesOnce(s: State, rate: real, dts: seq<real>, cfg: Config)
    requires rate >= 0.0 && (cfg.safeToNominal <= cfg.nominalToSafe || cfg.safeToNominal <= 0.0)
    ensures var n, m := Automatic(s, Ticks(rate, dts), cfg), Run(s, Ticks(rate, dts), cfg).current;
            n == 0 || (n == 1 && Target(m, rate, cfg) == m)
    decreases |dts|
  {
    if dts != [] {
      var before := dts[..|dts| - 1];
      SettlesOnce(s, rate, before, cfg);
      assert Ticks(rate, dts)[..|dts| - 1] == Ticks(rate, before);
    }
  }

  lemma Oscillation(cfg: Config)
    requires cfg.safeToNominal > cfg.nominalToSafe && cfg.safeToNominal > 0.0
    ensures !AtMostOneAutomatic(cfg)
  {
    var floor := if cfg.nominalToSafe > 0.0 then cfg.nominalToSafe else 0.0;
    var rate := (floor + cfg.safeToNominal) / 2.0;
    var wait := if cfg.minTime > 0.0 then cfg.minTime else 0.0;
    var events := Ticks(rate, [wait, wait]);
    assert events == [Tick(rate, wait), Tick(rate, wait)];
    assert events[..1] == [Tick(rate, wait)] && events[..1][..0] == [];
    assert Run(Initial(), [], cfg) == Initial();
    assert Run(Initial(), events[..1], cfg) == State(NOMINAL, SAFE, 0.0);
    assert Run(Initial(), events, cfg) == State(SAFE, NOMINAL, 0.0);
    assert Automatic(Initial(), events[..1], cfg) == 1;
    assert Automatic(Initial(), events, cfg) == 2;
  }

  /** A constant rate causes at most one automatic transition, whatever the start and the steps,
      exactly when the lower threshold does not exceed the upper one (or can never be undercut). */
  lemma HysteresisStopsOscillation(cfg: Config)
    ensures AtMostOneAutomatic(cfg) <==> cfg.safeToNominal <= cfg.nominalToSafe || cfg.safeToNominal <= 0.0
  {
    if cfg.safeToNominal <= cfg.nominalToSafe || cfg.safeToNominal <= 0.0 {
      forall s: State, rate: real, dts: seq<real> | rate >= 0.0
        ensures Automatic(s, Ticks(rate, dts), cfg) <= 1
      {
        SettlesOnce(s, rate, dts, cfg);
      }
    } else {
      Oscillation(cfg);
    }
  }

  class Manager {
    var current: Mode
    var previous: Mode
    var timeInMode: real
    const config: Config

    function Value(): State
      reads this
    {
      State(current, previous, timeInMode)
    }

    constructor (config: Config)
      ensures this.config == config && Value() == Initial() == State(SAFE, SAFE, 0.0)
    {
      this.config := config;
      current, previous, timeInMode := SAFE, SAFE, 0.0;
    }

    method Update(angularVelocity: Vec3, dt: real, sqrt: real -> real)
      requires IsSqrt(sqrt)
      modifies this
      ensures Value() == AfterUpdate(old(Value()), Norm(angularVelocity, sqrt), dt, config)
    {
      timeInMode := timeInMode + dt;
      EvaluateTransitions(Norm(angularVelocity, sqrt));
    }

    method EvaluateTransitions(rate: real)
      modifies this
      ensures Value() == if old(timeInMode) < config.minTime then old(Value())
                         else Transition(old(Value()), Target(old(current), rate, config))
    {
      if timeInMode < config.minTime {
        return;
      }
      var target := current;
      match current {
        case SAFE =>
          if rate < config.safeToNominal {
            target := NOMINAL;
          }
        case NOMINAL | SCIENCE | DOWNLINK | DEGRADED =>
          if rate > config.nominalToSafe {
            target := SAFE;
          }
        case CONTINGENCY =>
      }
      if target != current {
        TransitionToMode(target);
      }
    }

    method TransitionToMode(mode: Mode)
      modifies this
      ensures Value() == Transition(old(Value()), mode)
    {
      if mode == current {
        return;
      }
      previous := current;
      current := mode;
      timeInMode := 0.0;
    }

    method CommandMode(mode: Mode) returns (ok: bool)
      modifies this
      ensures ok && Value() == Transition(old(Value()), mode)
    {
      if mode == current {
        return true;
      }
      TransitionToMode(mode);
      return true;
    }

    method ForceModeChange(mode: Mode)
      modifies this
      ensures Value() == Transition(old(Value()), mode)
    {
      if mode == current {
        return;
      }
      TransitionToMode(mode);
    }

    method Reset()
      modifies this
      ensures Value() == Transition(old(Value()), SAFE)
    {
      TransitionToMode(SAFE);
    }
  }
}
