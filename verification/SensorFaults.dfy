/** Sensor faults over whole runs: from the readings of all sensors to the active sensors, the mode and
    the filter. */
module SensorFaults {
  import opened HealthStatuses
  import opened LinearAlgebra
  import opened Quaternions
  import opened Vectors3
  import Mekf
  import M = ModeManager
  import R = Redundancy
  import S = SensorHealth

  function VectorMetric(sqrt: real -> real): S.Metric<Vec3> {
    S.Metric((v: Vec3) => Norm(v, sqrt), (a: Vec3, b: Vec3) => Norm(a.Minus(b), sqrt))
  }

  /** The filter after a reset: the initial attitude, bias and covariance. */
  function Restarted(e: Mekf.Estimate): Mekf.Estimate {
    e.(q := Mekf.Initial().q, beta := ZERO3, P := Mekf.Initial().P)
  }

  /** The sensor side of the fault detection manager, with the mode and the filter it acts on. */
  datatype World = World(
    monitors: map<string, S.Monitor<Vec3>>, registry: R.Registry, powers: R.Powers,
    mode: M.State, filter: Mekf.Estimate)

  /** A reading comes with its monitor's settings at that time.  Elsewhere is whatever anyone else does to
      the mode and the filter. */
  datatype Event =
    | Reading(sensor: string, value: Vec3, cfg: S.Config)
    | Sensor(name: string)
    | ResetAll
    | Pair(group: string, primary: string, backup: string)
    | Enable(powers: R.Powers)
    | Elsewhere(mode: M.State, filter: Mekf.Estimate)

  function Responded(w: World, sensor: string, status: HealthStatus): (after: World)
    requires w.registry.Valid()
    ensures after.registry.Valid()
  {
    w.(registry := R.AfterStatus(w.registry, sensor, status),
       mode := R.ModeAfter(w.registry, sensor, status, w.powers, w.mode),
       filter := if R.ResetsFilter(w.registry, sensor, status, w.powers) then Restarted(w.filter) else w.filter)
  }

  function AfterReading(monitor: S.Monitor<Vec3>, value: Vec3, cfg: S.Config, sqrt: real -> real): S.Monitor<Vec3> {
    S.AfterReading(monitor, value, cfg, VectorMetric(sqrt))
  }

  function Step(w: World, e: Event, sqrt: real -> real): (after: World)
    requires w.registry.Valid()
    ensures after.registry.Valid()
  {
    match e
    case Reading(sensor, value, cfg) =>
      if sensor !in w.monitors then w
      else
        var was := w.monitors[sensor];
        var now := AfterReading(was, value, cfg, sqrt);
        var read := w.(monitors := w.monitors[sensor := now]);
        if now.status == was.status then read else Responded(read, sensor, now.status)
    case Sensor(name) => w.(monitors := w.monitors[name := S.Initial()])
    case ResetAll => w.(monitors := map n | n in w.monitors :: S.Initial())
    case Pair(group, primary, backup) => w.(registry := R.Register(w.registry, group, primary, backup))
    case Enable(powers) => w.(powers := powers)
    case Elsewhere(mode, filter) => w.(mode := mode, filter := filter)
  }

  predicate IsNew(w: World) {
    w.monitors == map[] && w.registry == R.EMPTY
  }

  function Run(w: World, events: seq<Event>, sqrt: real -> real): (after: World)
    requires w.registry.Valid()
    ensures after.registry.Valid()
    decreases |events|
  {
    if events == [] then w else Step(Run(w, events[..|events| - 1], sqrt), events[|events| - 1], sqrt)
  }

  // ---------- The readings of one sensor ----------

  predicate Registered(events: seq<Event>, name: string) {
    Sensor(name) in events
  }

  /** The readings of a sensor since it was last registered or reset. */
  function StreamOf(events: seq<Event>, name: string): seq<S.Reading<Vec3>>
    decreases |events|
  {
    if events == [] then []
    else
      var before := StreamOf(events[..|events| - 1], name);
      match events[|events| - 1]
      case Reading(sensor, value, cfg) => if sensor == name then before + [S.Reading(value, cfg)] else before
      case Sensor(sensor) => if sensor == name then [] else before
      case ResetAll => []
      case _ => before
  }

  function StatusOf(events: seq<Event>, name: string, sqrt: real -> real): HealthStatus {
    S.Run(StreamOf(events, name), VectorMetric(sqrt)).status
  }

  lemma StreamGrows(stream: seq<S.Reading<Vec3>>, r: S.Reading<Vec3>, sqrt: real -> real)
    ensures S.Run(stream + [r], VectorMetric(sqrt))
         == AfterReading(S.Run(stream, VectorMetric(sqrt)), r.value, r.cfg, sqrt)
    ensures S.Run([], VectorMetric(sqrt)) == S.Initial()
  {
    hide S.AfterReading;
    assert (stream + [r])[..|stream|] == stream;
  }

  lemma RegisteredGrows(events: seq<Event>, name: string)
    requires events != []
    ensures Registered(events, name) <==>
              Registered(events[..|events| - 1], name) || events[|events| - 1] == Sensor(name)
  {
    assert events == events[..|events| - 1] + [events[|events| - 1]];
  }

  /** Each registered sensor's monitor is a function of its own readings, whatever else happens. */
  lemma {:induction false} MonitorsFollowReadings(w: World, events: seq<Event>, name: string, sqrt: real -> real)
    requires w.registry.Valid() && IsNew(w)
    ensures name in Run(w, events, sqrt).monitors <==> Registered(events, name)
    ensures Registered(events, name) ==>
              Run(w, events, sqrt).monitors[name] == S.Run(StreamOf(events, name), VectorMetric(sqrt))
    decreases |events|
  {
    hide S.Run, AfterReading, Registered, VectorMetric, Responded;
    if events == [] {
      NothingRegistered(name);
    } else {
      var before, e := events[..|events| - 1], events[|events| - 1];
      MonitorsFollowReadings(w, before, name, sqrt);
      RegisteredGrows(events, name);
      var r := if e.Reading? then S.Reading(e.value, e.cfg) else S.Reading(ZERO3, S.DEFAULT);
      StreamGrows(StreamOf(before, name), r, sqrt);
      StepMonitors(Run(w, before, sqrt), e, sqrt);
    }
  }

  /** A registration or a reset forgets all readings before it, and every later reading counts. */
  lemma {:induction false} ReadingsRestart(before: seq<Event>, e: Event, after: seq<Event>, name: string)
    requires e == ResetAll || e == Sensor(name)
    ensures StreamOf(before + [e] + after, name) == StreamOf(after, name)
    ensures (forall i :: 0 <= i < |after| ==> after[i].Reading? && after[i].sensor == name) ==>
              && |StreamOf(after, name)| == |after|
              && forall i :: 0 <= i < |after| ==> StreamOf(after, name)[i] == S.Reading(after[i].value, after[i].cfg)
    decreases |after|
  {
    var all := before + [e] + after;
    if after == [] {
      assert all[..|all| - 1] == before && all[|all| - 1] == e;
    } else {
      var n := |after| - 1;
      ReadingsRestart(before, e, after[..n], name);
      assert all[..|all| - 1] == before + [e] + after[..n] && all[|all| - 1] == after[n];
      assert forall i :: 0 <= i < n ==> after[..n][i] == after[i];
    }
  }

  lemma NothingRegistered(name: string)
    ensures !Registered([], name)
  {
  }

  lemma StepMonitors(w: World, e: Event, sqrt: real -> real)
    requires w.registry.Valid()
    ensures e.Reading? && e.sensor in w.monitors ==>
              Step(w, e, sqrt).monitors
              == w.monitors[e.sensor := AfterReading(w.monitors[e.sensor], e.value, e.cfg, sqrt)]
  {
    hide AfterReading;
  }

  /** Reading i turns its sensor's status to FAILED. */
  predicate Fails(events: seq<Event>, i: nat, name: string, sqrt: real -> real) {
    && i < |events|
    && events[i].Reading? && events[i].sensor == name && Registered(events[..i], name)
    && StatusOf(events[..i], name, sqrt) != FAILED
    && StatusOf(events[..i + 1], name, sqrt) == FAILED
  }

  /** With stuck detection on, a sensor is FAILED exactly when its newest readings, as many pairs as the
      threshold and at least one, have not moved. */
  lemma FailedExactlyWhenStuck(w: World, events: seq<Event>, name: string, sqrt: real -> real)
    requires w.registry.Valid() && IsNew(w) && Registered(events, name)
    requires StreamOf(events, name) != [] && S.AlwaysWatching(StreamOf(events, name))
    ensures name in Run(w, events, sqrt).monitors
    ensures var stream := StreamOf(events, name);
            var k := stream[|stream| - 1].cfg.stuckSamples;
            var need := if k < 1 then 1 else k;
            Run(w, events, sqrt).monitors[name].status == FAILED <==>
              && need <= |stream| - 1
              && forall i :: |stream| - 1 - need <= i < |stream| - 1 ==>
                   Norm(stream[i + 1].value.Minus(stream[i].value), sqrt) < stream[i + 1].cfg.stuckTolerance
  {
    hide Run, StreamOf, S.Run, S.AlwaysWatching, Registered, Norm;
    var stream := StreamOf(events, name);
    MonitorsFollowReadings(w, events, name, sqrt);
    S.FailedExactlyWhenStuck(stream, VectorMetric(sqrt));
    forall i | 0 <= i < |stream| - 1
      ensures S.Unchanged(stream, i, VectorMetric(sqrt)) <==>
                Norm(stream[i + 1].value.Minus(stream[i].value), sqrt) < stream[i + 1].cfg.stuckTolerance
    {
    }
  }

  /** And between DEGRADED and HEALTHY its newest reading decides, by its norm and by how far it is from the
      one before. */
  lemma DegradedExactlyWhen(w: World, events: seq<Event>, name: string, sqrt: real -> real)
    requires w.registry.Valid() && IsNew(w) && Registered(events, name) && StreamOf(events, name) != []
    ensures name in Run(w, events, sqrt).monitors
    ensures var stream := StreamOf(events, name);
            var n, s := |stream| - 1, Run(w, events, sqrt).monitors[name].status;
            var cfg, size := stream[n].cfg, Norm(stream[n].value, sqrt);
            var outside := cfg.rangeOn && (size < cfg.minValue || cfg.maxValue < size);
            var jumped := cfg.rapidOn && n > 0
                          && Norm(stream[n].value.Minus(stream[n - 1].value), sqrt) > cfg.maxChange;
            && (s == DEGRADED <==> s != FAILED && (outside || jumped))
            && (s == HEALTHY <==> s != FAILED && !outside && !jumped)
            && (!cfg.stuckOn ==> s != FAILED)
  {
    hide Run, StreamOf, S.Run, Registered, Norm;
    MonitorsFollowReadings(w, events, name, sqrt);
    S.DegradedExactlyWhen(StreamOf(events, name), VectorMetric(sqrt));
  }

  /** In numbers, for a sensor left at its first settings: FAILED after fifty pairs in a row that moved less than
      10^-6, otherwise DEGRADED by a reading above 10^9 or one that jumps by more than that. */
  lemma FirstSettings(w: World, events: seq<Event>, name: string, sqrt: real -> real)
    requires IsSqrt(sqrt) && w.registry.Valid() && IsNew(w) && Registered(events, name)
    requires var stream := StreamOf(events, name);
             stream != [] && forall i :: 0 <= i < |stream| ==> stream[i].cfg == S.DEFAULT
    ensures name in Run(w, events, sqrt).monitors
    ensures var stream := StreamOf(events, name);
            var n, s := |stream| - 1, Run(w, events, sqrt).monitors[name].status;
            && (s == FAILED <==>
                  && n >= 50
                  && forall i :: n - 50 <= i < n ==>
                       Norm(stream[i + 1].value.Minus(stream[i].value), sqrt) < 0.000001)
            && (s == DEGRADED <==>
                  && s != FAILED
                  && (|| Norm(stream[n].value, sqrt) > 1000000000.0
                      || (n > 0 && Norm(stream[n].value.Minus(stream[n - 1].value), sqrt) > 1000000000.0)))
  {
    hide Run, StreamOf, S.Run, Registered, Norm;
    var stream := StreamOf(events, name);
    FailedExactlyWhenStuck(w, events, name, sqrt);
    DegradedExactlyWhen(w, events, name, sqrt);
    NormIsNorm(stream[|stream| - 1].value, sqrt);
  }

  // ---------- From readings to status changes ----------

  /** What an event tells the redundancy bookkeeping. */
  function Notice(w: World, e: Event, sqrt: real -> real): (notice: seq<R.Event>)
    ensures |notice| <= 1
  {
    match e
    case Reading(sensor, value, cfg) =>
      if sensor !in w.monitors then []
      else
        var now := AfterReading(w.monitors[sensor], value, cfg, sqrt).status;
        if now == w.monitors[sensor].status then [] else [R.Status(sensor, now)]
    case Pair(group, primary, backup) => [R.Pair(group, primary, backup)]
    case _ => []
  }

  /** The notices of the events from position p on. */
  function Notices(w: World, events: seq<Event>, p: nat, sqrt: real -> real): seq<R.Event>
    requires w.registry.Valid()
    decreases |events|
  {
    if |events| <= p then []
    else
      var before := events[..|events| - 1];
      Notices(w, before, p, sqrt) + Notice(Run(w, before, sqrt), events[|events| - 1], sqrt)
  }

  lemma RegistryStep(w: World, e: Event, sqrt: real -> real)
    requires w.registry.Valid()
    ensures Step(w, e, sqrt).registry == R.Run(w.registry, Notice(w, e, sqrt))
  {
    hide AfterReading, R.AfterStatus, R.Register;
    var notice := Notice(w, e, sqrt);
    if notice != [] {
      assert notice[..0] == [];
      assert R.Run(w.registry, notice) == R.Step(w.registry, notice[0]);
    }
  }

  lemma RunAppend(r: R.Registry, a: seq<R.Event>, b: seq<R.Event>)
    requires r.Valid() && |b| <= 1
    ensures R.Run(r, a + b) == R.Run(R.Run(r, a), b)
  {
    hide R.Step;
    if b == [] {
      assert a + b == a;
    } else {
      assert (a + b)[..|a|] == a && b[..0] == [];
    }
  }

  lemma {:induction false} RegistryFollowsNotices(w: World, events: seq<Event>, p: nat, sqrt: real -> real)
    requires w.registry.Valid() && p <= |events|
    ensures Run(w, events, sqrt).registry == R.Run(Run(w, events[..p], sqrt).registry, Notices(w, events, p, sqrt))
    decreases |events|
  {
    hide Step, Notice, R.Step;
    if |events| == p {
      assert events[..p] == events;
    } else {
      var before, e := events[..|events| - 1], events[|events| - 1];
      RegistryFollowsNotices(w, before, p, sqrt);
      assert before[..p] == events[..p];
      RegistryStep(Run(w, before, sqrt), e, sqrt);
      RunAppend(Run(w, events[..p], sqrt).registry, Notices(w, before, p, sqrt), Notice(Run(w, before, sqrt), e, sqrt));
    }
  }

  lemma NoticeOfFailure(w: World, events: seq<Event>, name: string, sqrt: real -> real)
    requires w.registry.Valid() && IsNew(w) && events != []
    ensures var n := |events| - 1;
            Fails(events, n, name, sqrt) <==>
              Notice(Run(w, events[..n], sqrt), events[n], sqrt) == [R.Status(name, FAILED)]
  {
    hide S.Run, AfterReading, Registered, VectorMetric;
    var n := |events| - 1;
    var before, e := events[..n], events[n];
    assert events[..n + 1] == events;
    if e.Reading? {
      MonitorsFollowReadings(w, before, e.sensor, sqrt);
      StreamGrows(StreamOf(before, e.sensor), S.Reading(e.value, e.cfg), sqrt);
    }
  }

  lemma FailsInPrefix(events: seq<Event>, n: nat, i: nat, name: string, sqrt: real -> real)
    requires i < n <= |events|
    ensures Fails(events[..n], i, name, sqrt) <==> Fails(events, i, name, sqrt)
  {
    hide StatusOf, Registered;
    assert events[..n][..i] == events[..i] && events[..n][..i + 1] == events[..i + 1];
  }

  /** Some reading from position p on makes the sensor fail. */
  predicate EverFails(events: seq<Event>, p: nat, name: string, sqrt: real -> real) {
    exists i :: p <= i < |events| && Fails(events, i, name, sqrt)
  }

  /** Some reading from position p on makes sensor a fail before any makes b fail. */
  predicate FailsFirst(events: seq<Event>, p: nat, a: string, b: string, sqrt: real -> real) {
    exists i :: p <= i < |events| && Fails(events, i, a, sqrt) && !EverFails(events[..i], p, b, sqrt)
  }

  lemma EverFailsGrows(events: seq<Event>, p: nat, name: string, sqrt: real -> real)
    requires p < |events|
    ensures var n := |events| - 1;
            EverFails(events, p, name, sqrt) <==> EverFails(events[..n], p, name, sqrt) || Fails(events, n, name, sqrt)
  {
    hide Fails;
    var n := |events| - 1;
    forall i | 0 <= i < n ensures Fails(events[..n], i, name, sqrt) <==> Fails(events, i, name, sqrt) {
      FailsInPrefix(events, n, i, name, sqrt);
    }
  }

  lemma FailsFirstGrows(events: seq<Event>, p: nat, a: string, b: string, sqrt: real -> real)
    requires p < |events|
    ensures var n := |events| - 1;
            FailsFirst(events, p, a, b, sqrt) <==>
              || FailsFirst(events[..n], p, a, b, sqrt)
              || (Fails(events, n, a, sqrt) && !EverFails(events[..n], p, b, sqrt))
  {
    hide Fails, EverFails;
    var n := |events| - 1;
    forall i | 0 <= i < n
      ensures Fails(events[..n], i, a, sqrt) <==> Fails(events, i, a, sqrt)
      ensures events[..n][..i] == events[..i]
    {
      FailsInPrefix(events, n, i, a, sqrt);
    }
  }

  lemma OneMoreNotice(notices: seq<R.Event>, notice: seq<R.Event>, a: string, b: string)
    requires |notice| <= 1
    ensures R.EverFailed(notices + notice, a) <==> R.EverFailed(notices, a) || notice == [R.Status(a, FAILED)]
    ensures R.FailedFirst(notices + notice, a, b) <==>
              R.FailedFirst(notices, a, b) || (notice == [R.Status(a, FAILED)] && !R.EverFailed(notices, b))
  {
    hide R.EverFailed, R.FailedFirst;
    if notice == [] {
      assert notices + notice == notices;
    } else {
      assert notice == [notice[0]];
      R.EverFailedGrows(notices, notice[0], a);
      R.FailedFirstGrows(notices, notice[0], a, b);
    }
  }

  lemma NoNotices(w: World, events: seq<Event>, p: nat, a: string, b: string, sqrt: real -> real)
    requires w.registry.Valid() && |events| == p
    ensures !R.EverFailed(Notices(w, events, p, sqrt), a) && !R.FailedFirst(Notices(w, events, p, sqrt), a, b)
    ensures !EverFails(events, p, a, sqrt) && !FailsFirst(events, p, a, b, sqrt)
  {
    hide Fails;
  }

  /** The failures in the notices are the failing readings, in their order. */
  lemma {:induction false} NoticesOfFailures(w: World, events: seq<Event>, p: nat, a: string, b: string,
                                             sqrt: real -> real)
    requires w.registry.Valid() && IsNew(w) && p <= |events|
    ensures R.EverFailed(Notices(w, events, p, sqrt), a) <==> EverFails(events, p, a, sqrt)
    ensures R.FailedFirst(Notices(w, events, p, sqrt), a, b) <==> FailsFirst(events, p, a, b, sqrt)
    decreases |events|
  {
    hide Notice, Run, R.EverFailed, R.FailedFirst, Fails, EverFails, FailsFirst;
    if |events| == p {
      NoNotices(w, events, p, a, b, sqrt);
    } else {
      var n := |events| - 1;
      NoticesOfFailures(w, events[..n], p, a, b, sqrt);
      NoticesOfFailures(w, events[..n], p, b, a, sqrt);
      EverFailsGrows(events, p, a, sqrt);
      FailsFirstGrows(events, p, a, b, sqrt);
      NoticeOfFailure(w, events, a, sqrt);
      OneMoreNotice(Notices(w, events[..n], p, sqrt), Notice(Run(w, events[..n], sqrt), events[n], sqrt), a, b);
    }
  }

  // ---------- What the readings explain ----------

  /** Events after position p do not register the pair again, nor its sensors in another. */
  ghost predicate Spares(events: seq<Event>, p: nat, g: R.Group, name: string) {
    forall i :: p < i < |events| && events[i].Pair? ==>
      && events[i].group != name
      && events[i].primary !in {g.primary, g.backup}
      && events[i].backup !in {g.primary, g.backup}
  }

  /** The pair is registered at position p, and not again. */
  ghost predicate PairedAt(events: seq<Event>, p: nat, g: R.Group, name: string) {
    && p < |events| && events[p] == Pair(name, g.primary, g.backup)
    && g.primary != g.backup
    && Spares(events, p, g, name)
  }

  lemma {:induction false} NoticesSpare(w: World, events: seq<Event>, p: nat, g: R.Group, name: string,
                                        sqrt: real -> real)
    requires w.registry.Valid() && p < |events| && Spares(events, p, g, name)
    ensures R.Spares(Notices(w, events, p + 1, sqrt), g, name)
    decreases |events|
  {
    hide Run, AfterReading;
    if |events| > p + 1 {
      NoticesSpare(w, events[..|events| - 1], p, g, name, sqrt);
    }
  }

  lemma PairExplained(w: World, events: seq<Event>, p: nat, g: R.Group, name: string, sqrt: real -> real)
    requires w.registry.Valid() && IsNew(w) && PairedAt(events, p, g, name)
    ensures R.Explains(Run(w, events, sqrt).registry, Notices(w, events, p + 1, sqrt), g, name)
  {
    hide R.Run, Notices, R.Explains, R.Register;
    RegistryFollowsNotices(w, events, p + 1, sqrt);
    NoticesSpare(w, events, p, g, name, sqrt);
    assert events[..p + 1][..p] == events[..p];
    var before := Run(w, events[..p], sqrt).registry;
    assert Run(w, events[..p + 1], sqrt).registry == R.Register(before, name, g.primary, g.backup);
    R.HistoryExplainsPair(before, Notices(w, events, p + 1, sqrt), g, name);
  }

  /** From the readings alone, in every run: the backup of a pair is available exactly while no reading
      since its registration has made either sensor fail, and the active sensor is the backup exactly when
      the primary failed first. */
  lemma ReadingsExplainPair(w: World, events: seq<Event>, p: nat, g: R.Group, name: string, sqrt: real -> real)
    requires w.registry.Valid() && IsNew(w) && PairedAt(events, p, g, name)
    ensures var r := Run(w, events, sqrt).registry;
            && name in r.groups
            && (r.groups[name].backupAvailable <==>
                  !EverFails(events, p + 1, g.primary, sqrt) && !EverFails(events, p + 1, g.backup, sqrt))
            && r.Active(name) == if FailsFirst(events, p + 1, g.primary, g.backup, sqrt) then g.backup else g.primary
  {
    hide Run, Notices, R.EverFailed, R.FailedFirst, EverFails, FailsFirst;
    PairExplained(w, events, p, g, name, sqrt);
    NoticesOfFailures(w, events, p + 1, g.primary, g.backup, sqrt);
    NoticesOfFailures(w, events, p + 1, g.backup, g.primary, sqrt);
  }

  /** The reading that makes a sensor of the pair fail decides mode and filter: the first failure of the pair,
      if it is the primary's, is absorbed by the backup and forces DEGRADED; every other one resets the filter
      and forces SAFE if the sensor is a gyro, and does nothing otherwise.  An action that is not in force
      changes nothing. */
  lemma FailingReadingResponse(w: World, events: seq<Event>, p: nat, g: R.Group, name: string, sensor: string,
                               sqrt: real -> real)
    requires w.registry.Valid() && IsNew(w) && events != []
    requires PairedAt(events[..|events| - 1], p, g, name)
    requires Fails(events, |events| - 1, sensor, sqrt)
    requires sensor in {g.primary, g.backup}
    ensures var before := events[..|events| - 1];
            var now, after := Run(w, before, sqrt), Run(w, events, sqrt);
            var absorbed := && sensor == g.primary
                            && !EverFails(before, p + 1, g.primary, sqrt)
                            && !EverFails(before, p + 1, g.backup, sqrt);
            var critical := sensor in {"gyro", "gyro_primary", "gyro_backup"};
            && after.mode == (if !now.powers.mode then now.mode
                              else if absorbed then M.Transition(now.mode, M.DEGRADED)
                              else if critical then M.Transition(now.mode, M.SAFE)
                              else now.mode)
            && after.filter == (if absorbed || !critical || !now.powers.filter then now.filter
                                else now.filter.(q := IDENTITY, beta := ZERO3, P := Identity(6)))
            && after.registry.Active(name) ==
               if absorbed || FailsFirst(before, p + 1, g.primary, g.backup, sqrt) then g.backup else g.primary
  {
    hide Run, Notices, Notice, Fails, R.EverFailed, R.FailedFirst, EverFails, FailsFirst, M.Transition;
    hide R.Explains, R.CanFailOver, R.AfterStatus, AfterReading, Step, PairedAt, IsNew;
    var before, now := events[..|events| - 1], Run(w, events[..|events| - 1], sqrt);
    var notices := Notices(w, before, p + 1, sqrt);
    FailingStep(w, events, sensor, sqrt);
    PairExplained(w, before, p, g, name, sqrt);
    DistinctPair(before, p, g, name);
    R.FailoverDecision(now.registry, notices, g, name, sensor);
    NoticesOfFailures(w, before, p + 1, g.primary, g.backup, sqrt);
    NoticesOfFailures(w, before, p + 1, g.backup, g.primary, sqrt);
    ReadingsExplainPair(w, before, p, g, name, sqrt);
  }

  lemma DistinctPair(events: seq<Event>, p: nat, g: R.Group, name: string)
    requires PairedAt(events, p, g, name)
    ensures p < |events| && g.primary != g.backup
  {
  }

  /** What a failing reading does, in terms of the registry before it. */
  lemma FailingStep(w: World, events: seq<Event>, sensor: string, sqrt: real -> real)
    requires w.registry.Valid() && IsNew(w) && events != []
    requires Fails(events, |events| - 1, sensor, sqrt)
    ensures var now, after := Run(w, events[..|events| - 1], sqrt), Run(w, events, sqrt);
            && after.mode == R.ModeAfter(now.registry, sensor, FAILED, now.powers, now.mode)
            && after.filter == (if R.ResetsFilter(now.registry, sensor, FAILED, now.powers)
                                then Restarted(now.filter) else now.filter)
            && after.registry == R.AfterStatus(now.registry, sensor, FAILED)
  {
    var before, e := events[..|events| - 1], events[|events| - 1];
    assert e.Reading? && e.sensor == sensor;
    NoticeOfFailure(w, events, sensor, sqrt);
    hide Run, Fails, Restarted, AfterReading, R.ModeAfter, R.ResetsFilter, R.AfterStatus;
    RunStep(w, events, sqrt);
  }

  /** No registration names the sensor. */
  ghost predicate Unpaired(events: seq<Event>, name: string) {
    forall i :: 0 <= i < |events| && events[i].Pair? ==> name !in {events[i].primary, events[i].backup}
  }

  lemma {:induction false} UnpairedIsUnknown(w: World, events: seq<Event>, name: string, sqrt: real -> real)
    requires w.registry.Valid() && IsNew(w) && Unpaired(events, name)
    ensures name !in Run(w, events, sqrt).registry.groupOf
    decreases |events|
  {
    hide AfterReading, R.Registry.Valid;
    if events != [] {
      UnpairedIsUnknown(w, events[..|events| - 1], name, sqrt);
    }
  }

  /** A sensor without a partner has nothing to absorb its failure: a gyro's resets the filter and forces SAFE,
      any other does nothing. */
  lemma UnpairedFailureResponse(w: World, events: seq<Event>, sensor: string, sqrt: real -> real)
    requires w.registry.Valid() && IsNew(w) && events != []
    requires Fails(events, |events| - 1, sensor, sqrt) && Unpaired(events, sensor)
    ensures var now, after := Run(w, events[..|events| - 1], sqrt), Run(w, events, sqrt);
            var critical := sensor in {"gyro", "gyro_primary", "gyro_backup"};
            && after.mode == (if critical && now.powers.mode then M.Transition(now.mode, M.SAFE) else now.mode)
            && after.filter == (if critical && now.powers.filter
                                then now.filter.(q := IDENTITY, beta := ZERO3, P := Identity(6)) else now.filter)
            && after.registry == now.registry
  {
    hide Run, Fails, M.Transition;
    FailingStep(w, events, sensor, sqrt);
    UnpairedIsUnknown(w, events[..|events| - 1], sensor, sqrt);
  }

  /** Every other reading, over any run.  One that turns a sensor's status to DEGRADED takes the mode from
      NOMINAL to DEGRADED, if mode changes are in force, and leaves every other mode alone.  One that turns it
      to HEALTHY, or does not change it, leaves the mode alone.  Filter and pairs stay. */
  lemma OtherReadingResponse(w: World, events: seq<Event>, sqrt: real -> real)
    requires w.registry.Valid() && IsNew(w) && events != [] && events[|events| - 1].Reading?
    requires !Fails(events, |events| - 1, events[|events| - 1].sensor, sqrt)
    ensures var before, name := events[..|events| - 1], events[|events| - 1].sensor;
            var now, after := Run(w, before, sqrt), Run(w, events, sqrt);
            var degrades := && Registered(before, name)
                            && StatusOf(before, name, sqrt) != DEGRADED && StatusOf(events, name, sqrt) == DEGRADED;
            && after.mode == (if degrades && now.powers.mode && now.mode.current == M.NOMINAL
                              then M.State(M.DEGRADED, M.NOMINAL, 0.0) else now.mode)
            && after.filter == now.filter && after.registry == now.registry && after.powers == now.powers
  {
    hide S.Run, AfterReading, Registered, VectorMetric, R.CanFailOver;
    var before, e := events[..|events| - 1], events[|events| - 1];
    MonitorsFollowReadings(w, before, e.sensor, sqrt);
    StreamGrows(StreamOf(before, e.sensor), S.Reading(e.value, e.cfg), sqrt);
    assert events[..|events| - 1 + 1] == events;
  }

  /** The automatic actions in force are those last set. */
  function PowersOf(powers: R.Powers, events: seq<Event>): R.Powers
    decreases |events|
  {
    if events == [] then powers
    else
      match events[|events| - 1]
      case Enable(p) => p
      case _ => PowersOf(powers, events[..|events| - 1])
  }

  lemma {:induction false} PowersAreLastSet(w: World, events: seq<Event>, sqrt: real -> real)
    requires w.registry.Valid()
    ensures Run(w, events, sqrt).powers == PowersOf(w.powers, events)
    decreases |events|
  {
    hide AfterReading, R.AfterStatus, R.ModeAfter, R.ResetsFilter, R.Registry.Valid;
    if events != [] {
      PowersAreLastSet(w, events[..|events| - 1], sqrt);
    }
  }

  lemma RunStep(w: World, events: seq<Event>, sqrt: real -> real)
    requires w.registry.Valid() && events != []
    ensures Run(w, events, sqrt) == Step(Run(w, events[..|events| - 1], sqrt), events[|events| - 1], sqrt)
  {
    hide Step;
  }
}
