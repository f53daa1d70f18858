/** The control cycle: wheel fault detection, allocator reconfiguration, mode management, control and
    allocation in sequence.  The outputs of the two controllers are inputs of the model. */
module FlightSoftware {
  import opened HealthStatuses
  import opened LinearAlgebra
  import opened Reals
  import opened Streaks
  import opened Vectors3
  import A = ControlAllocator
  import F = FdirManager
  import M = ModeManager
  import W = WheelHealth

  /** What one cycle sees: the estimated rate, the wheel speeds, and the torque that the detumbling
      or the attitude controller would command (zero without a controller). */
  datatype Inputs = Inputs(rate: Vec3, speeds: seq<real>, detumble: Vec3, pointing: Vec3, dt: real)

  datatype System = System(
    mode: M.State, wheels: seq<W.Wheel>, healthy: seq<bool>, commands: seq<real>, torque: Vec3, elapsed: real,
    autoMode: bool)

  /** Four wheels, with four stored commands or none. */
  predicate FourWheels(s: System) {
    |s.wheels| == |s.healthy| == 4 && |s.commands| in {0, 4}
  }

  const INITIAL := System(M.Initial(), W.Fresh(4), [true, true, true, true], Zeros(4), ZERO3, 0.0, true)

  /** The stored commands suffice for the wheels that a cycle reports. */
  predicate Covers(commands: seq<real>, in_: Inputs) {
    in_.dt > 0.0 && |in_.speeds| == 4 ==> W.Complete(W.Call(in_.speeds, commands, in_.dt))
  }

  function HealthyFlags(wheels: seq<W.Wheel>): (healthy: seq<bool>)
    ensures |healthy| == 4
  {
    seq(4, i requires 0 <= i < 4 => W.StatusOf(wheels, i) != FAILED)
  }

  /** Wheel fault detection and allocator reconfiguration, when four speeds are reported. */
  function Detected(s: System, in_: Inputs): System
    requires in_.dt > 0.0 && Covers(s.commands, in_)
  {
    if |in_.speeds| != 4 then s
    else
      var wheels := W.AfterCall(s.wheels, W.Call(in_.speeds, s.commands, in_.dt));
      var before, after := W.FailedCount(s.wheels), W.FailedCount(wheels);
      s.(wheels := wheels, healthy := HealthyFlags(wheels),
         mode := if s.autoMode then W.Response(before, after, s.mode) else s.mode)
  }

  /** Control and allocation in the mode just settled. */
  function Controlled(s: System, in_: Inputs): System
    requires |s.healthy| == 4
  {
    if s.mode.current == M.SAFE then s.(commands := Zeros(4), torque := in_.detumble)
    else if |in_.speeds| != 4 then s.(commands := [], torque := in_.pointing)
    else if A.HealthyCount(s.healthy) >= 3 then
      A.RankTest(s.healthy);
      s.(commands := A.Command(s.healthy, in_.pointing), torque := in_.pointing)
    else s.(mode := M.Transition(s.mode, M.SAFE), commands := Zeros(4), torque := ZERO3)
  }

  function Cycle(s: System, in_: Inputs, cfg: M.Config, sqrt: real -> real): System
    requires |s.healthy| == 4 && Covers(s.commands, in_)
  {
    if in_.dt <= 0.0 then s
    else
      var d := Detected(s.(elapsed := s.elapsed + in_.dt), in_);
      var t := d.(mode := M.AfterUpdate(d.mode, Norm(in_.rate, sqrt), in_.dt, cfg));
      Controlled(t, in_)
  }

  // ---------- One cycle ----------

  lemma FlagsCountFailures(wheels: seq<W.Wheel>)
    requires |wheels| == 4
    ensures A.HealthyCount(HealthyFlags(wheels)) + W.FailedCount(wheels) == 4
  {
    var h := HealthyFlags(wheels);
    A.CountOfFour(h);
    assert wheels[..3][..2] == wheels[..2] && wheels[..2][..1] == wheels[..1] && wheels[..1][..0] == [];
    assert W.FailedCount(wheels[..1]) == if wheels[0].status == FAILED then 1 else 0;
    assert W.FailedCount(wheels[..2]) == W.FailedCount(wheels[..1]) + if wheels[1].status == FAILED then 1 else 0;
    assert W.FailedCount(wheels[..3]) == W.FailedCount(wheels[..2]) + if wheels[2].status == FAILED then 1 else 0;
  }

  /** What holds of the system between cycles: the allocator knows which wheels have failed, no
      failed wheel is commanded, and none at all once two have failed. */
  ghost predicate Consistent(s: System) {
    && FourWheels(s)
    && s.healthy == HealthyFlags(s.wheels)
    && (forall i :: 0 <= i < |s.commands| && s.wheels[i].status == FAILED ==> s.commands[i] == 0.0)
    && (W.FailedCount(s.wheels) >= 2 ==> s.commands == Zeros(|s.commands|))
  }

  /** The stored commands are the allocation of the returned torque to three or four healthy wheels. */
  ghost predicate Allocated(s: System) {
    && |s.healthy| == 4
    && A.HealthyCount(s.healthy) >= 3
    && A.Inverse3.Det(A.Gram(s.healthy)) != 0.0
    && s.commands == A.Command(s.healthy, s.torque)
  }

  lemma ControlIsSafe(s: System, in_: Inputs)
    requires FourWheels(s) && s.healthy == HealthyFlags(s.wheels)
    ensures var t := Controlled(s, in_);
            var kept := |in_.speeds| == 4 || s.mode.current == M.SAFE;
            && Consistent(t)
            && t.wheels == s.wheels
            && (|t.commands| == 4 <==> kept)
            && (W.FailedCount(s.wheels) >= 2 ==> (t.mode.current == M.SAFE && t.commands == Zeros(4) <==> kept))
            && (t.mode.current != M.SAFE && |in_.speeds| == 4 ==> W.FailedCount(s.wheels) <= 1 && Allocated(t))
  {
    hide W.FailedCount, A.HealthyCount, A.BodyTorque, A.Command, A.Gram, A.Inverse3.Det, A.Idle;
    FlagsCountFailures(s.wheels);
    if s.mode.current != M.SAFE && |in_.speeds| == 4 && A.HealthyCount(s.healthy) >= 3 {
      A.RankTest(s.healthy);
      A.CommandIsLeastNorm(s.healthy, in_.pointing, []);
      IdleWheels(s.healthy, A.Command(s.healthy, in_.pointing));
    }
  }

  lemma IdleWheels(healthy: seq<bool>, u: seq<real>)
    requires |healthy| == |u| && A.Idle(healthy, u)
    ensures forall i :: 0 <= i < |u| && !healthy[i] ==> u[i] == 0.0
  {
  }

  /** The cycle ends with four stored commands: four speeds are reported, or the mode manager's update
      ends in SAFE. */
  predicate Keeps(s: System, in_: Inputs, cfg: M.Config, sqrt: real -> real) {
    |in_.speeds| == 4 || M.AfterUpdate(s.mode, Norm(in_.rate, sqrt), in_.dt, cfg).current == M.SAFE
  }

  /** Every cycle with a positive step keeps the system consistent and never heals a wheel.  With two
      failed wheels it ends in SAFE with four zero commands exactly when it keeps its commands; with four
      speeds and outside SAFE it leaves the allocation of the torque it returns. */
  lemma CycleIsSafe(s: System, in_: Inputs, cfg: M.Config, sqrt: real -> real)
    requires Consistent(s) && in_.dt > 0.0 && Covers(s.commands, in_)
    ensures FourWheels(s)
    ensures var t, kept := Cycle(s, in_, cfg, sqrt), Keeps(s, in_, cfg, sqrt);
            && Consistent(t)
            && (|t.commands| == 4 <==> kept)
            && W.FailedCount(t.wheels) >= W.FailedCount(s.wheels)
            && (W.FailedCount(t.wheels) >= 2 ==> (t.mode.current == M.SAFE && t.commands == Zeros(4) <==> kept))
            && (t.mode.current != M.SAFE && |in_.speeds| == 4 ==> W.FailedCount(t.wheels) <= 1 && Allocated(t))
  {
    ConsistentShape(s);
    hide W.FailedCount, Detected, Consistent, Controlled, M.AfterUpdate, A.Command, A.HealthyCount, Allocated, Covers;
    DetectionIsSafe(s.(elapsed := s.elapsed + in_.dt), in_);
    var d := Detected(s.(elapsed := s.elapsed + in_.dt), in_);
    var t := d.(mode := M.AfterUpdate(d.mode, Norm(in_.rate, sqrt), in_.dt, cfg));
    ControlIsSafe(t, in_);
  }

  lemma DetectionIsSafe(s: System, in_: Inputs)
    requires FourWheels(s) && s.healthy == HealthyFlags(s.wheels)
    requires in_.dt > 0.0 && Covers(s.commands, in_)
    ensures var d := Detected(s, in_);
            && FourWheels(d) && d.healthy == HealthyFlags(d.wheels)
            && W.FailedCount(d.wheels) >= W.FailedCount(s.wheels)
            && (|in_.speeds| != 4 ==> d == s)
  {
    hide W.FailedCount, W.AfterCall, W.NoBetter, W.Response;
    if |in_.speeds| == 4 {
      W.CallNeverHeals(s.wheels, W.Call(in_.speeds, s.commands, in_.dt));
    }
  }

  lemma ConsistentShape(s: System)
    requires Consistent(s)
    ensures FourWheels(s) && s.healthy == HealthyFlags(s.wheels)
  {
  }

  predicate AllSaturated(speeds: seq<real>) {
    forall i :: 0 <= i < |speeds| ==> Abs(speeds[i]) >= W.MAX_SPEED
  }

  /** A cycle looks at a stored command for every reported wheel below the speed limit, but a cycle outside
      SAFE without four speeds drops the commands.  After any cycle the next one with four speeds finds what
      it looks for exactly when the commands were kept, or when it looks for none. */
  lemma CommandsAreThereExactlyWhen(s: System, in_: Inputs, next: Inputs, cfg: M.Config, sqrt: real -> real)
    requires |s.healthy| == 4 && Covers(s.commands, in_) && in_.dt > 0.0
    requires next.dt > 0.0 && |next.speeds| == 4
    ensures Covers(Cycle(s, in_, cfg, sqrt).commands, next) <==> Keeps(s, in_, cfg, sqrt) || AllSaturated(next.speeds)
  {
    hide Detected, M.AfterUpdate, A.Command, A.HealthyCount, A.Gram, A.Inverse3.Det;
    var t := Cycle(s, in_, cfg, sqrt);
    assert |t.commands| == if Keeps(s, in_, cfg, sqrt) then 4 else 0 by { KeptCommands(s, in_, cfg, sqrt); }
    if !AllSaturated(next.speeds) {
      var i :| 0 <= i < 4 && Abs(next.speeds[i]) < W.MAX_SPEED;
    }
  }

  lemma KeptCommands(s: System, in_: Inputs, cfg: M.Config, sqrt: real -> real)
    requires |s.healthy| == 4 && Covers(s.commands, in_) && in_.dt > 0.0
    ensures |Cycle(s, in_, cfg, sqrt).commands| == if Keeps(s, in_, cfg, sqrt) then 4 else 0
  {
    hide W.AfterCall, W.FailedCount, W.Response, M.AfterUpdate, A.Command, A.HealthyCount, A.Gram, A.Inverse3.Det;
  }

  // ---------- Runs ----------

  /** Between cycles anyone may change the mode (ground commands, the sensor fault responses) or switch
      the automatic mode changes of fault detection. */
  datatype Event = Step(inputs: Inputs) | ModeChange(mode: M.Mode) | Enable(autoMode: bool)

  function After(s: System, e: Event, cfg: M.Config, sqrt: real -> real): (t: System)
    requires FourWheels(s) && (e.Step? ==> Covers(s.commands, e.inputs))
    ensures FourWheels(t)
  {
    match e
    case Step(in_) => Cycle(s, in_, cfg, sqrt)
    case ModeChange(m) => s.(mode := M.Transition(s.mode, m))
    case Enable(autoMode) => s.(autoMode := autoMode)
  }

  /** No cycle of the list misses a command. */
  predicate Runnable(s: System, events: seq<Event>, cfg: M.Config, sqrt: real -> real)
    requires FourWheels(s)
    decreases |events|, 0
  {
    events == []
    || (var before, e := events[..|events| - 1], events[|events| - 1];
        Runnable(s, before, cfg, sqrt) && (e.Step? ==> Covers(Run(s, before, cfg, sqrt).commands, e.inputs)))
  }

  function Run(s: System, events: seq<Event>, cfg: M.Config, sqrt: real -> real): (t: System)
    requires FourWheels(s) && Runnable(s, events, cfg, sqrt)
    ensures FourWheels(t)
    decreases |events|, 1
  {
    if events == [] then s
    else After(Run(s, events[..|events| - 1], cfg, sqrt), events[|events| - 1], cfg, sqrt)
  }

  lemma InitialIsConsistent()
    ensures Consistent(INITIAL)
  {
  }

  lemma EventKeepsConsistent(s: System, e: Event, cfg: M.Config, sqrt: real -> real)
    requires Consistent(s) && (e.Step? ==> Covers(s.commands, e.inputs))
    ensures FourWheels(s) && Consistent(After(s, e, cfg, sqrt))
    ensures W.FailedCount(After(s, e, cfg, sqrt).wheels) >= W.FailedCount(s.wheels)
  {
    if e.Step? && e.inputs.dt > 0.0 {
      hide Cycle, Consistent, W.FailedCount, Covers;
      CycleIsSafe(s, e.inputs, cfg, sqrt);
    }
  }

  /** The consistency is an invariant of every run that misses no command, and the failed count never
      drops along one. */
  lemma {:induction false} RunStaysConsistent(s: System, events: seq<Event>, cfg: M.Config, sqrt: real -> real)
    requires Consistent(s) && FourWheels(s) && Runnable(s, events, cfg, sqrt)
    ensures Consistent(Run(s, events, cfg, sqrt))
    ensures W.FailedCount(Run(s, events, cfg, sqrt).wheels) >= W.FailedCount(s.wheels)
    decreases |events|
  {
    hide After, Consistent, Covers, W.FailedCount;
    if events != [] {
      RunStaysConsistent(s, events[..|events| - 1], cfg, sqrt);
      EventKeepsConsistent(Run(s, events[..|events| - 1], cfg, sqrt), events[|events| - 1], cfg, sqrt);
    }
  }

  predicate IsCycle(e: Event) {
    e.Step? && e.inputs.dt > 0.0
  }

  /** Event i is the last cycle of the list. */
  ghost predicate LastCycle(events: seq<Event>, i: nat) {
    i < |events| && IsCycle(events[i]) && forall j :: i < j < |events| ==> !IsCycle(events[j])
  }

  lemma {:induction false} PrefixIsRunnable(s: System, events: seq<Event>, i: nat, cfg: M.Config, sqrt: real -> real)
    requires FourWheels(s) && Runnable(s, events, cfg, sqrt) && i <= |events|
    ensures Runnable(s, events[..i], cfg, sqrt)
    ensures i < |events| && events[i].Step? ==> Covers(Run(s, events[..i], cfg, sqrt).commands, events[i].inputs)
    decreases |events|
  {
    hide Covers, After;
    if i == |events| {
      assert events[..i] == events;
    } else {
      var before := events[..|events| - 1];
      PrefixIsRunnable(s, before, i, cfg, sqrt);
      assert before[..i] == events[..i];
    }
  }

  /** After any run with a cycle there are four stored commands exactly when its last cycle kept them. */
  lemma {:induction false} CommandsAfterRun(events: seq<Event>, i: nat, cfg: M.Config, sqrt: real -> real)
    requires Runnable(INITIAL, events, cfg, sqrt) && LastCycle(events, i)
    ensures Runnable(INITIAL, events[..i], cfg, sqrt)
    ensures |Run(INITIAL, events, cfg, sqrt).commands| == 4 <==>
              Keeps(Run(INITIAL, events[..i], cfg, sqrt), events[i].inputs, cfg, sqrt)
    decreases |events|
  {
    hide Covers, Keeps, Cycle;
    PrefixIsRunnable(INITIAL, events, i, cfg, sqrt);
    var before, e := events[..|events| - 1], events[|events| - 1];
    if i == |events| - 1 {
      KeptCommands(Run(INITIAL, before, cfg, sqrt), e.inputs, cfg, sqrt);
    } else {
      assert before[..i] == events[..i];
      CommandsAfterRun(before, i, cfg, sqrt);
      assert !IsCycle(e);
      IdleCycle(Run(INITIAL, before, cfg, sqrt), e, cfg, sqrt);
    }
  }

  lemma IdleCycle(s: System, e: Event, cfg: M.Config, sqrt: real -> real)
    requires FourWheels(s) && !IsCycle(e)
    ensures After(s, e, cfg, sqrt).commands == s.commands
  {
  }

  /** Before the first cycle there are four, all zero. */
  lemma {:induction false} CommandsBeforeCycles(events: seq<Event>, cfg: M.Config, sqrt: real -> real)
    requires forall i :: 0 <= i < |events| ==> !IsCycle(events[i])
    ensures Runnable(INITIAL, events, cfg, sqrt) && Run(INITIAL, events, cfg, sqrt).commands == Zeros(4)
    decreases |events|
  {
    if events != [] {
      CommandsBeforeCycles(events[..|events| - 1], cfg, sqrt);
      IdleCycle(Run(INITIAL, events[..|events| - 1], cfg, sqrt), events[|events| - 1], cfg, sqrt);
    }
  }

  /** A run that misses its commands: commanded to NOMINAL, one cycle at rest without wheel speeds, and
      then four wheels at rest are reported. */
  lemma CommandsCanBeMissing(sqrt: real -> real)
    requires IsSqrt(sqrt)
    ensures var cfg := M.Config(0.02, 0.1, 10.0);
            var blind := Inputs(ZERO3, [], ZERO3, ZERO3, 0.1);
            var next := Inputs(ZERO3, [0.0, 0.0, 0.0, 0.0], ZERO3, ZERO3, 0.1);
            var events := [ModeChange(M.NOMINAL), Step(blind)];
            && Runnable(INITIAL, events, cfg, sqrt)
            && !Covers(Run(INITIAL, events, cfg, sqrt).commands, next)
            && !Runnable(INITIAL, events + [Step(next)], cfg, sqrt)
  {
    var cfg := M.Config(0.02, 0.1, 10.0);
    var blind := Inputs(ZERO3, [], ZERO3, ZERO3, 0.1);
    var next := Inputs(ZERO3, [0.0, 0.0, 0.0, 0.0], ZERO3, ZERO3, 0.1);
    var s := INITIAL.(mode := M.Transition(INITIAL.mode, M.NOMINAL));
    assert Covers(s.commands, blind);
    RunOfTwo(blind, cfg, sqrt);
    RunGrows([ModeChange(M.NOMINAL), Step(blind)], Step(next), cfg, sqrt);
    assert |Cycle(s, blind, cfg, sqrt).commands| == 0 by {
      hide Cycle, W.Complete;
      NormOfZero(sqrt);
      KeptCommands(s, blind, cfg, sqrt);
    }
    hide Cycle, Run, Runnable;
    assert Abs(next.speeds[0]) < W.MAX_SPEED;
  }

  lemma RunOfTwo(in_: Inputs, cfg: M.Config, sqrt: real -> real)
    requires Covers(INITIAL.commands, in_)
    ensures var s := INITIAL.(mode := M.Transition(INITIAL.mode, M.NOMINAL));
            var events := [ModeChange(M.NOMINAL), Step(in_)];
            Runnable(INITIAL, events, cfg, sqrt) && Run(INITIAL, events, cfg, sqrt) == Cycle(s, in_, cfg, sqrt)
  {
    hide Covers, Cycle, M.Transition;
    var first := [ModeChange(M.NOMINAL)];
    assert [] + first == first;
    RunGrows([], ModeChange(M.NOMINAL), cfg, sqrt);
    RunGrows(first, Step(in_), cfg, sqrt);
    assert first + [Step(in_)] == [ModeChange(M.NOMINAL), Step(in_)];
  }

  lemma RunGrows(events: seq<Event>, e: Event, cfg: M.Config, sqrt: real -> real)
    requires Runnable(INITIAL, events, cfg, sqrt)
    ensures Runnable(INITIAL, events + [e], cfg, sqrt) <==>
              (e.Step? ==> Covers(Run(INITIAL, events, cfg, sqrt).commands, e.inputs))
    ensures Runnable(INITIAL, events + [e], cfg, sqrt) ==>
              Run(INITIAL, events + [e], cfg, sqrt) == After(Run(INITIAL, events, cfg, sqrt), e, cfg, sqrt)
  {
    hide Covers, After;
    assert (events + [e])[..|events|] == events;
  }

  /** Four wheel speeds in every cycle. */
  ghost predicate FourSpeeds(events: seq<Event>) {
    forall i :: 0 <= i < |events| && events[i].Step? ==> |events[i].inputs.speeds| == 4
  }

  /** Runs with four speeds in every cycle miss no command. */
  lemma {:induction false} FourSpeedsRun(s: System, events: seq<Event>, cfg: M.Config, sqrt: real -> real)
    requires FourWheels(s) && |s.commands| == 4 && FourSpeeds(events)
    ensures Runnable(s, events, cfg, sqrt) && |Run(s, events, cfg, sqrt).commands| == 4
    decreases |events|
  {
    if events != [] {
      var before, e := events[..|events| - 1], events[|events| - 1];
      FourSpeedsRun(s, before, cfg, sqrt);
      var t := Run(s, before, cfg, sqrt);
      if IsCycle(e) {
        hide Cycle;
        KeptCommands(t, e.inputs, cfg, sqrt);
      } else {
        IdleCycle(t, e, cfg, sqrt);
      }
    }
  }

  /** In every reachable state, no wheel diagnosed as failed is commanded, and the allocator's flags
      are the diagnoses. */
  lemma FailedWheelsAreIdle(events: seq<Event>, cfg: M.Config, sqrt: real -> real)
    requires Runnable(INITIAL, events, cfg, sqrt)
    ensures var t := Run(INITIAL, events, cfg, sqrt);
            forall i :: 0 <= i < 4 && W.StatusOf(t.wheels, i) == FAILED ==>
              !t.healthy[i] && (i < |t.commands| ==> t.commands[i] == 0.0)
  {
    hide Run, Runnable, W.FailedCount;
    InitialIsConsistent();
    RunStaysConsistent(INITIAL, events, cfg, sqrt);
  }

  /** Once two wheels have failed, no wheel is ever commanded again, and a later cycle ends in SAFE with
      four zero commands exactly when it reports four speeds or the mode manager's update ends in SAFE,
      whatever happened in between. */
  lemma TwoFailuresAreFinal(events: seq<Event>, more: seq<Event>, in_: Inputs, cfg: M.Config, sqrt: real -> real)
    requires Runnable(INITIAL, events, cfg, sqrt) && W.FailedCount(Run(INITIAL, events, cfg, sqrt).wheels) >= 2
    requires Runnable(Run(INITIAL, events, cfg, sqrt), more, cfg, sqrt)
    requires in_.dt > 0.0 && Covers(Run(Run(INITIAL, events, cfg, sqrt), more, cfg, sqrt).commands, in_)
    ensures var s := Run(Run(INITIAL, events, cfg, sqrt), more, cfg, sqrt);
            var t := Cycle(s, in_, cfg, sqrt);
            && W.FailedCount(t.wheels) >= 2
            && t.commands in {[], [0.0, 0.0, 0.0, 0.0]}
            && (t.mode.current == M.SAFE && t.commands == [0.0, 0.0, 0.0, 0.0] <==> Keeps(s, in_, cfg, sqrt))
  {
    hide Run, Runnable, Cycle, W.FailedCount, Consistent, Keeps, Covers;
    InitialIsConsistent();
    RunStaysConsistent(INITIAL, events, cfg, sqrt);
    var s := Run(INITIAL, events, cfg, sqrt);
    RunStaysConsistent(s, more, cfg, sqrt);
    CycleIsSafe(Run(s, more, cfg, sqrt), in_, cfg, sqrt);
    ZeroCommands(Cycle(Run(s, more, cfg, sqrt), in_, cfg, sqrt));
  }

  lemma ZeroCommands(s: System)
    requires Consistent(s) && W.FailedCount(s.wheels) >= 2
    ensures Zeros(4) == [0.0, 0.0, 0.0, 0.0] && s.commands in {[], [0.0, 0.0, 0.0, 0.0]}
  {
    assert Zeros(4) == [0.0, 0.0, 0.0, 0.0] && Zeros(0) == [];
  }

  /** With four wheel speeds in every cycle: once two wheels have failed, every later cycle ends in SAFE
      with all wheels at zero torque, whatever modes are commanded in between and whether or not fault
      responses may change the mode. */
  lemma TwoFailuresForceSafe(events: seq<Event>, more: seq<Event>, in_: Inputs, cfg: M.Config, sqrt: real -> real)
    requires FourSpeeds(events) && FourSpeeds(more) && |in_.speeds| == 4 && in_.dt > 0.0
    ensures Runnable(INITIAL, events, cfg, sqrt) && Runnable(Run(INITIAL, events, cfg, sqrt), more, cfg, sqrt)
    ensures Covers(Run(Run(INITIAL, events, cfg, sqrt), more, cfg, sqrt).commands, in_)
    ensures W.FailedCount(Run(INITIAL, events, cfg, sqrt).wheels) >= 2 ==>
              var t := Cycle(Run(Run(INITIAL, events, cfg, sqrt), more, cfg, sqrt), in_, cfg, sqrt);
              t.mode.current == M.SAFE && t.commands == [0.0, 0.0, 0.0, 0.0]
  {
    hide Run, Runnable, Cycle, W.FailedCount;
    FourSpeedsRun(INITIAL, events, cfg, sqrt);
    FourSpeedsRun(Run(INITIAL, events, cfg, sqrt), more, cfg, sqrt);
    if W.FailedCount(Run(INITIAL, events, cfg, sqrt).wheels) >= 2 {
      TwoFailuresAreFinal(events, more, in_, cfg, sqrt);
    }
  }

  // ---------- From wheel samples to the response ----------

  predicate Reports(e: Event) {
    IsCycle(e) && |e.inputs.speeds| == 4
  }

  /** What wheel fault detection is called with along a run: the speeds of each cycle that reports four, and
      the commands stored before it. */
  function CallsOf(events: seq<Event>, cfg: M.Config, sqrt: real -> real): (calls: W.Calls)
    requires Runnable(INITIAL, events, cfg, sqrt)
    decreases |events|
  {
    if events == [] then []
    else
      var before, e := events[..|events| - 1], events[|events| - 1];
      CallsOf(before, cfg, sqrt)
      + if Reports(e) then [W.Call(e.inputs.speeds, Run(INITIAL, before, cfg, sqrt).commands, e.inputs.dt)] else []
  }

  lemma WheelsAfter(s: System, e: Event, cfg: M.Config, sqrt: real -> real)
    requires FourWheels(s) && (e.Step? ==> Covers(s.commands, e.inputs))
    ensures After(s, e, cfg, sqrt).wheels ==
            if Reports(e) then W.AfterCall(s.wheels, W.Call(e.inputs.speeds, s.commands, e.inputs.dt)) else s.wheels
  {
    hide W.AfterCall, W.FailedCount, W.Response, M.AfterUpdate, A.Command, A.HealthyCount, A.Gram, A.Inverse3.Det;
  }

  /** The wheel records of a run are those of its calls, so everything proved of histories of calls holds in
      the closed loop. */
  lemma {:induction false} WheelsFollowCalls(events: seq<Event>, cfg: M.Config, sqrt: real -> real)
    requires Runnable(INITIAL, events, cfg, sqrt)
    ensures Run(INITIAL, events, cfg, sqrt).wheels == W.FleetRun(CallsOf(events, cfg, sqrt))
    decreases |events|
  {
    hide Covers, After, W.AfterCall;
    if events != [] {
      var before, e := events[..|events| - 1], events[|events| - 1];
      WheelsFollowCalls(before, cfg, sqrt);
      WheelsAfter(Run(INITIAL, before, cfg, sqrt), e, cfg, sqrt);
      var calls := CallsOf(before, cfg, sqrt);
      if Reports(e) {
        var c := W.Call(e.inputs.speeds, Run(INITIAL, before, cfg, sqrt).commands, e.inputs.dt);
        assert (calls + [c])[..|calls|] == calls;
      } else {
        assert calls + [] == calls;
      }
    }
  }

  /** The samples of wheel i show a failure: one reached the speed limit, or ten in a row met the stuck test. */
  ghost predicate Broken(calls: W.Calls, i: nat) {
    var samples := W.SamplesOf(calls, i);
    W.EverSaturated(samples) || HasRun(W.StuckFlags(samples), W.STUCK_SAMPLES)
  }

  lemma TwoFailed(wheels: seq<W.Wheel>)
    requires |wheels| == 4
    ensures W.FailedCount(wheels) >= 2 <==>
              exists i, j :: 0 <= i < j < 4 && wheels[i].status == FAILED && wheels[j].status == FAILED
  {
    FlagsCountFailures(wheels);
    var h := HealthyFlags(wheels);
    A.CountOfFour(h);
    hide W.FailedCount, A.HealthyCount;
    assert forall i :: 0 <= i < 4 ==> h[i] == (wheels[i].status != FAILED);
    assert wheels[0].status == FAILED && wheels[1].status == FAILED ==> W.FailedCount(wheels) >= 2;
  }

  /** Two wheels have failed exactly when the samples of two wheels show it. */
  lemma FailuresAreInTheSamples(events: seq<Event>, cfg: M.Config, sqrt: real -> real)
    requires Runnable(INITIAL, events, cfg, sqrt)
    ensures var calls := CallsOf(events, cfg, sqrt);
            W.FailedCount(Run(INITIAL, events, cfg, sqrt).wheels) >= 2 <==>
              exists i, j :: 0 <= i < j < 4 && Broken(calls, i) && Broken(calls, j)
  {
    var calls, wheels := CallsOf(events, cfg, sqrt), Run(INITIAL, events, cfg, sqrt).wheels;
    WheelsFollowCalls(events, cfg, sqrt);
    TwoFailed(wheels);
    forall i | 0 <= i < 4 ensures wheels[i].status == FAILED <==> Broken(calls, i) {
      W.FailedExactlyWhen(calls, i);
    }
  }

  /** Two wheels broken by their samples: no wheel is ever commanded again, and exactly the cycles that keep
      their commands end in SAFE with four zero commands. */
  lemma BrokenWheelsAreFinal(events: seq<Event>, more: seq<Event>, in_: Inputs, i: nat, j: nat, cfg: M.Config,
                             sqrt: real -> real)
    requires Runnable(INITIAL, events, cfg, sqrt) && Runnable(Run(INITIAL, events, cfg, sqrt), more, cfg, sqrt)
    requires in_.dt > 0.0 && Covers(Run(Run(INITIAL, events, cfg, sqrt), more, cfg, sqrt).commands, in_)
    requires i < j < 4 && Broken(CallsOf(events, cfg, sqrt), i) && Broken(CallsOf(events, cfg, sqrt), j)
    ensures var s := Run(Run(INITIAL, events, cfg, sqrt), more, cfg, sqrt);
            var t := Cycle(s, in_, cfg, sqrt);
            && t.commands in {[], [0.0, 0.0, 0.0, 0.0]}
            && (t.mode.current == M.SAFE && t.commands == [0.0, 0.0, 0.0, 0.0] <==> Keeps(s, in_, cfg, sqrt))
  {
    hide Run, Runnable, Cycle, Covers, Keeps, Broken, CallsOf, W.FailedCount;
    FailuresAreInTheSamples(events, cfg, sqrt);
    TwoFailuresAreFinal(events, more, in_, cfg, sqrt);
  }

  /** Cycle k reports wheel i at the speed limit. */
  predicate Overspeed(events: seq<Event>, k: nat, i: nat) {
    k < |events| && Reports(events[k]) && i < 4 && Abs(events[k].inputs.speeds[i]) >= W.MAX_SPEED
  }

  lemma SamplesGrow(calls: W.Calls, c: W.Call, i: nat)
    requires W.Complete(c) && i < |c.speeds|
    ensures W.SamplesOf(calls + [c], i) == W.SamplesOf(calls, i) + [W.SampleOf(c, i)]
  {
    assert (calls + [c])[..|calls|] == calls;
  }

  lemma SaturatedGrows(samples: seq<W.Sample>, x: W.Sample)
    ensures W.EverSaturated(samples + [x]) <==> W.EverSaturated(samples) || W.Saturated(x)
  {
    var longer := samples + [x];
    assert longer[|samples|] == x;
    assert forall i :: 0 <= i < |samples| ==> longer[i] == samples[i];
  }

  lemma {:induction false} OverspeedIsSeen(events: seq<Event>, k: nat, i: nat, cfg: M.Config, sqrt: real -> real)
    requires Runnable(INITIAL, events, cfg, sqrt) && Overspeed(events, k, i)
    ensures W.EverSaturated(W.SamplesOf(CallsOf(events, cfg, sqrt), i))
    decreases |events|
  {
    hide W.SamplesOf, W.EverSaturated, Run;
    var before, e := events[..|events| - 1], events[|events| - 1];
    var calls := CallsOf(before, cfg, sqrt);
    if k < |events| - 1 {
      OverspeedIsSeen(before, k, i, cfg, sqrt);
    }
    if Reports(e) {
      var c := W.Call(e.inputs.speeds, Run(INITIAL, before, cfg, sqrt).commands, e.inputs.dt);
      assert CallsOf(events, cfg, sqrt) == calls + [c];
      SamplesGrow(calls, c, i);
      SaturatedGrows(W.SamplesOf(calls, i), W.SampleOf(c, i));
    } else {
      assert calls + [] == calls;
    }
  }

  /** From the reported speeds alone, with four of them in every cycle: once two wheels have been reported at
      the speed limit, at any times, every later cycle ends in SAFE with all wheels at zero torque. */
  lemma OverspeedForcesSafe(events: seq<Event>, more: seq<Event>, in_: Inputs, i: nat, k: nat, j: nat, l: nat,
                            cfg: M.Config, sqrt: real -> real)
    requires FourSpeeds(events) && FourSpeeds(more) && |in_.speeds| == 4 && in_.dt > 0.0
    requires i < j && Overspeed(events, k, i) && Overspeed(events, l, j)
    ensures Runnable(INITIAL, events, cfg, sqrt) && Runnable(Run(INITIAL, events, cfg, sqrt), more, cfg, sqrt)
    ensures Covers(Run(Run(INITIAL, events, cfg, sqrt), more, cfg, sqrt).commands, in_)
    ensures var t := Cycle(Run(Run(INITIAL, events, cfg, sqrt), more, cfg, sqrt), in_, cfg, sqrt);
            t.mode.current == M.SAFE && t.commands == [0.0, 0.0, 0.0, 0.0]
  {
    hide Run, Runnable, Cycle, Covers, CallsOf, W.FailedCount, W.EverSaturated, W.SamplesOf, FourSpeeds;
    TwoFailuresForceSafe(events, more, in_, cfg, sqrt);
    OverspeedIsSeen(events, k, i, cfg, sqrt);
    OverspeedIsSeen(events, l, j, cfg, sqrt);
    assert Broken(CallsOf(events, cfg, sqrt), i) && Broken(CallsOf(events, cfg, sqrt), j);
    FailuresAreInTheSamples(events, cfg, sqrt);
  }

  /** Which torque a cycle returns and what it does with it, in every cycle of every run.  A raised number of
      failed wheels forces DEGRADED for the first and SAFE for more, as far as such changes are in force; then
      the mode manager's update settles the mode.  In SAFE the torque is the detumbling one and the wheels rest.
      In any other mode it is the pointing torque: with four speeds and at most one failed wheel the wheels are
      commanded to produce it, and the mode stays.  With four speeds and two failed wheels it is zero, the
      wheels rest, and the mode becomes SAFE. */
  lemma TorqueFollowsMode(events: seq<Event>, in_: Inputs, cfg: M.Config, sqrt: real -> real)
    requires Runnable(INITIAL, events, cfg, sqrt) && Covers(Run(INITIAL, events, cfg, sqrt).commands, in_)
    requires in_.dt > 0.0
    ensures var s := Run(INITIAL, events, cfg, sqrt);
            var t := Cycle(s, in_, cfg, sqrt);
            var n, m := W.FailedCount(s.wheels), W.FailedCount(t.wheels);
            var forced := if s.autoMode && n < m then M.Transition(s.mode, if m == 1 then M.DEGRADED else M.SAFE)
                          else s.mode;
            var settled := M.AfterUpdate(forced, Norm(in_.rate, sqrt), in_.dt, cfg);
            && n <= m
            && (settled.current == M.SAFE ==>
                  t.torque == in_.detumble && t.commands == [0.0, 0.0, 0.0, 0.0] && t.mode == settled)
            && (settled.current != M.SAFE && |in_.speeds| != 4 ==>
                  t.torque == in_.pointing && t.commands == [] && t.mode == settled)
            && (settled.current != M.SAFE && |in_.speeds| == 4 && m < 2 ==>
                  && t.torque == in_.pointing && t.mode == settled
                  && |t.commands| == 4
                  && A.BodyTorque(t.commands) == [in_.pointing.x, in_.pointing.y, in_.pointing.z])
            && (settled.current != M.SAFE && |in_.speeds| == 4 && m >= 2 ==>
                  t.torque == ZERO3 && t.commands == [0.0, 0.0, 0.0, 0.0] && t.mode.current == M.SAFE)
  {
    hide Run, Runnable, Detected, Controlled, Consistent, M.AfterUpdate, W.FailedCount, A.HealthyCount, Covers;
    hide M.Transition;
    InitialIsConsistent();
    RunStaysConsistent(INITIAL, events, cfg, sqrt);
    var s := Run(INITIAL, events, cfg, sqrt);
    ConsistentShape(s);
    var later := s.(elapsed := s.elapsed + in_.dt);
    DetectionIsSafe(later, in_);
    DetectionForcesMode(later, in_);
    var d := Detected(later, in_);
    ControlReturns(d.(mode := M.AfterUpdate(d.mode, Norm(in_.rate, sqrt), in_.dt, cfg)), in_);
  }

  lemma DetectionForcesMode(s: System, in_: Inputs)
    requires in_.dt > 0.0 && Covers(s.commands, in_)
    ensures var d := Detected(s, in_);
            var n, m := W.FailedCount(s.wheels), W.FailedCount(d.wheels);
            && n <= m
            && d.mode == if s.autoMode && n < m then M.Transition(s.mode, if m == 1 then M.DEGRADED else M.SAFE)
                         else s.mode
  {
    hide W.AfterCall, W.FailedCount, M.Transition, W.NoBetter;
    if |in_.speeds| == 4 {
      W.CallNeverHeals(s.wheels, W.Call(in_.speeds, s.commands, in_.dt));
    }
  }

  /** The last setting of the automatic mode changes; they start enabled. */
  function AutoModeOf(events: seq<Event>): bool
    decreases |events|
  {
    if events == [] then true
    else
      match events[|events| - 1]
      case Enable(autoMode) => autoMode
      case _ => AutoModeOf(events[..|events| - 1])
  }

  lemma {:induction false} AutoModeIsLastSetting(events: seq<Event>, cfg: M.Config, sqrt: real -> real)
    requires Runnable(INITIAL, events, cfg, sqrt)
    ensures Run(INITIAL, events, cfg, sqrt).autoMode == AutoModeOf(events)
    decreases |events|
  {
    hide Covers, W.AfterCall, W.FailedCount, W.Response, M.AfterUpdate, A.Command, A.HealthyCount, A.Gram;
    hide A.Inverse3.Det;
    if events != [] {
      AutoModeIsLastSetting(events[..|events| - 1], cfg, sqrt);
    }
  }

  lemma ControlReturns(s: System, in_: Inputs)
    requires FourWheels(s) && s.healthy == HealthyFlags(s.wheels)
    ensures var t := Controlled(s, in_);
            && t.wheels == s.wheels
            && (s.mode.current == M.SAFE ==>
                  t.torque == in_.detumble && t.commands == [0.0, 0.0, 0.0, 0.0] && t.mode == s.mode)
            && (s.mode.current != M.SAFE && |in_.speeds| != 4 ==>
                  t.torque == in_.pointing && t.commands == [] && t.mode == s.mode)
            && (s.mode.current != M.SAFE && |in_.speeds| == 4 && W.FailedCount(s.wheels) < 2 ==>
                  && t.torque == in_.pointing && t.mode == s.mode
                  && |t.commands| == 4
                  && A.BodyTorque(t.commands) == [in_.pointing.x, in_.pointing.y, in_.pointing.z])
            && (s.mode.current != M.SAFE && |in_.speeds| == 4 && W.FailedCount(s.wheels) >= 2 ==>
                  t.torque == ZERO3 && t.commands == [0.0, 0.0, 0.0, 0.0] && t.mode.current == M.SAFE)
  {
    hide W.FailedCount, A.HealthyCount, A.BodyTorque, A.Command, A.Gram, A.Inverse3.Det, A.Idle;
    FlagsCountFailures(s.wheels);
    assert Zeros(4) == [0.0, 0.0, 0.0, 0.0];
    if s.mode.current != M.SAFE && |in_.speeds| == 4 && A.HealthyCount(s.healthy) >= 3 {
      A.RankTest(s.healthy);
      A.CommandIsLeastNorm(s.healthy, in_.pointing, []);
    }
  }

  /** Outside SAFE, the commands stored by any four-speed cycle of a run produce exactly the pointing torque,
      with the least squared norm among commands that spare the failed wheels. */
  lemma CommandsProduceTorque(events: seq<Event>, in_: Inputs, cfg: M.Config, sqrt: real -> real, u: seq<real>)
    requires Runnable(INITIAL, events, cfg, sqrt) && Covers(Run(INITIAL, events, cfg, sqrt).commands, in_)
    requires |in_.speeds| == 4 && in_.dt > 0.0
    ensures var t := Cycle(Run(INITIAL, events, cfg, sqrt), in_, cfg, sqrt);
            t.mode.current != M.SAFE ==>
              && |t.healthy| == |t.commands| == 4
              && A.BodyTorque(t.commands) == A.ToVec(in_.pointing)
              && (|u| == 4 && A.Idle(t.healthy, u) && A.BodyTorque(u) == A.ToVec(in_.pointing) ==>
                    NormSq(t.commands) <= NormSq(u))
  {
    hide Run, Runnable, Cycle, M.AfterUpdate, M.Transition, Covers, Keeps, Consistent, W.FailedCount, NormSq;
    hide A.HealthyCount, A.BodyTorque, A.Command, A.Gram, A.Inverse3.Det, A.Idle;
    InitialIsConsistent();
    RunStaysConsistent(INITIAL, events, cfg, sqrt);
    var s := Run(INITIAL, events, cfg, sqrt);
    CycleIsSafe(s, in_, cfg, sqrt);
    TorqueFollowsMode(events, in_, cfg, sqrt);
    var t := Cycle(s, in_, cfg, sqrt);
    if t.mode.current != M.SAFE {
      A.CommandIsLeastNorm(t.healthy, t.torque, u);
    }
  }

  // ---------- The object ----------

  class Controller {
    const cfg: M.Config
    const sqrt: real -> real
    const modeManager: M.Manager
    const fdir: F.FDIRManager
    const allocator: A.Allocator
    var commands: seq<real>
    var torque: Vec3
    var elapsed: real

    ghost predicate Valid()
      reads this, modeManager, fdir, allocator
    {
      && IsSqrt(sqrt)
      && modeManager.config == cfg
      && fdir.modeManager == modeManager
      && allocator.Valid()
    }

    ghost function Value(): System
      reads this, modeManager, fdir, allocator
    {
      System(modeManager.Value(), fdir.wheels, allocator.healthy, commands, torque, elapsed, fdir.autoMode)
    }

    constructor (cfg: M.Config, sqrt: real -> real)
      requires IsSqrt(sqrt)
      ensures Valid() && Value() == INITIAL
      ensures fresh(modeManager) && fresh(fdir) && fresh(allocator)
    {
      this.cfg, this.sqrt := cfg, sqrt;
      var manager := new M.Manager(cfg);
      var detector := new F.FDIRManager(sqrt);
      detector.modeManager := manager;
      modeManager, fdir := manager, detector;
      allocator := new A.Allocator();
      commands, torque, elapsed := Zeros(4), ZERO3, 0.0;
    }

    method ReconfigureAllocator()
      requires Valid()
      modifies allocator
      ensures allocator.healthy == HealthyFlags(fdir.wheels)
    {
      for i := 0 to 4
        invariant allocator.Valid()
        invariant forall j :: 0 <= j < i ==> allocator.healthy[j] == (W.StatusOf(fdir.wheels, j) != FAILED)
      {
        allocator.SetWheelHealth(i, fdir.WheelStatus(i) != FAILED);
      }
    }

    /** Wheel fault detection and reconfiguration, when four speeds are reported. */
    method Detect(in_: Inputs)
      requires Valid() && in_.dt > 0.0 && Covers(commands, in_)
      modifies modeManager, fdir`wheels, allocator
      ensures Valid()
      ensures Value() == Detected(old(Value()), in_)
    {
      hide W.AfterCall, W.Response, W.FailedCount, IsSqrt;
      if |in_.speeds| == 4 {
        fdir.UpdateWheels(in_.speeds, commands, in_.dt);
        ReconfigureAllocator();
      }
    }

    method Step(in_: Inputs) returns (command: Vec3)
      requires Valid() && Covers(commands, in_)
      modifies this, modeManager, fdir, allocator
      ensures Valid()
      ensures Value() == Cycle(old(Value()), in_, cfg, sqrt)
      ensures command == if in_.dt <= 0.0 then ZERO3 else torque
    {
      if in_.dt <= 0.0 {
        return ZERO3;
      }
      hide Detected, Controlled, M.AfterUpdate, IsSqrt, Norm;
      elapsed := elapsed + in_.dt;
      Detect(in_);
      modeManager.Update(in_.rate, in_.dt, sqrt);
      command := Control(in_);
    }

    /** Control and allocation in the current mode. */
    method Control(in_: Inputs) returns (command: Vec3)
      requires Valid()
      modifies `commands, `torque, modeManager
      ensures Valid()
      ensures Value() == Controlled(old(Value()), in_) && command == torque
    {
      hide A.HealthyCount, A.Command, A.Gram, A.Inverse3.Det, IsSqrt;
      command := ZERO3;
      if modeManager.current == M.SAFE {
        command := in_.detumble;
        commands := Zeros(4);
      } else {
        command := in_.pointing;
        if |in_.speeds| == 4 {
          var success, torques := allocator.Allocate(command);
          if success {
            commands := torques;
          } else {
            modeManager.ForceModeChange(M.SAFE);
            commands := Zeros(4);
            command := ZERO3;
          }
        } else {
          commands := [];
        }
      }
      torque := command;
    }
  }
}
