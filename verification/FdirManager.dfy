/** The fault detection manager: sensor monitors with redundancy responses, and reaction wheels. */
module FdirManager {
  import opened HealthStatuses
  import opened Reals
  import opened Vectors3
  import Mekf
  import M = ModeManager
  import R = Redundancy
  import S = SensorHealth
  import F = SensorFaults
  import W = WheelHealth

  type Monitor = S.SensorHealthMonitor<Vec3>

  datatype HealthSummary = HealthSummary(healthy: nat, degraded: nat, failed: nat)

  class FDIRManager {
    const sqrt: real -> real
    var monitors: map<string, Monitor>
    var groups: map<string, R.Group>
    var groupOf: map<string, string>
    var wheels: seq<W.Wheel>
    var modeManager: M.Manager?
    var mekf: Mekf.Filter?
    var autoFilterReset: bool
    var autoMode: bool

    function Registry(): R.Registry
      reads this
    {
      R.Registry(groups, groupOf)
    }

    /** The automatic actions in force. */
    function Powers(): R.Powers
      reads this
    {
      R.Powers(autoMode && modeManager != null, autoFilterReset && mekf != null)
    }

    ghost predicate Valid()
      reads this, monitors.Values, mekf
    {
      && Registry().Valid()
      && (mekf != null ==> mekf.Valid())
      && forall n :: n in monitors ==>
           && monitors[n].name == n && monitors[n].metric == F.VectorMetric(sqrt)
           && |monitors[n].history| <= S.MAX_HISTORY
    }

    ghost function Monitored(): (r: map<string, S.Monitor<Vec3>>)
      reads this, monitors.Values
    {
      map n | n in monitors :: monitors[n].Value()
    }

    /** The sensor side.  Without a mode manager or a filter nothing acts on the one written here. */
    ghost function World(): F.World
      reads this, monitors.Values, modeManager, mekf
    {
      F.World(Monitored(), Registry(), Powers(),
              if modeManager != null then modeManager.Value() else M.Initial(),
              if mekf != null then mekf.State() else Mekf.Initial())
    }

    /** The settings of a sensor's monitor. */
    function Settings(name: string): S.Config
      reads this, monitors.Values
    {
      if name in monitors then monitors[name].config else S.DEFAULT
    }

    /** Everything but the targets and the bookkeeping of one response is as before. */
    twostate predicate SameSetup()
      reads this
    {
      && monitors == old(monitors) && modeManager == old(modeManager) && mekf == old(mekf)
      && autoFilterReset == old(autoFilterReset) && autoMode == old(autoMode)
    }

    constructor (sqrt: real -> real)
      ensures Valid() && this.sqrt == sqrt
      ensures monitors == map[] && Registry() == R.EMPTY && wheels == W.Fresh(4)
      ensures modeManager == null && mekf == null && autoFilterReset && autoMode
    {
      this.sqrt := sqrt;
      monitors, groups, groupOf := map[], map[], map[];
      wheels := W.Fresh(4);
      modeManager, mekf := null, null;
      autoFilterReset, autoMode := true, true;
    }

    method RegisterRedundantPair(group: string, primary: string, backup: string)
      requires Valid()
      modifies `groups, `groupOf
      ensures Valid()
      ensures World() == F.Step(old(World()), F.Pair(group, primary, backup), sqrt)
    {
      hide F.VectorMetric, IsSqrt, Mekf.Defined;
      groups := groups[group := R.Group(primary, backup, primary, true)];
      groupOf := groupOf[primary := group];
      groupOf := groupOf[backup := group];
      assert Monitored() == old(Monitored());
    }

    method RegisterSensor(name: string, config: S.Config) returns (monitor: Monitor)
      requires Valid()
      modifies `monitors
      ensures Valid() && fresh(monitor)
      ensures monitors == old(monitors)[name := monitor] && Settings(name) == config
      ensures World() == F.Step(old(World()), F.Sensor(name), sqrt)
    {
      hide F.VectorMetric, F.Step, IsSqrt, Mekf.Defined;
      monitor := NewMonitor(name, config);
      monitors := monitors[name := monitor];
      assert Monitored() == old(Monitored())[name := S.Initial()];
      Registering(old(World()), name, sqrt);
      assert World() == old(World()).(monitors := Monitored());
    }

    method NewMonitor(name: string, config: S.Config) returns (monitor: Monitor)
      ensures fresh(monitor) && monitor.name == name && monitor.metric == F.VectorMetric(sqrt)
      ensures monitor.config == config && monitor.Value() == S.Initial()
    {
      monitor := new S.SensorHealthMonitor(name, F.VectorMetric(sqrt));
      monitor.Configure(config);
    }

    /** A reading changes its own monitor; the responses follow exactly when the status changed. */
    method UpdateSensor(name: string, measurement: Vec3)
      requires Valid()
      modifies this, modeManager, mekf, if name in monitors then {monitors[name]} else {}
      ensures Valid() && SameSetup() && wheels == old(wheels) && Settings(name) == old(Settings(name))
      ensures World() == F.Step(old(World()), F.Reading(name, measurement, Settings(name)), sqrt)
    {
      hide F.AfterReading, F.Responded, IsSqrt, Mekf.Defined;
      if name in monitors {
        var m := monitors[name];
        var changed := m.Update(measurement);
        Reread(old(m.Value()), measurement, m.config, sqrt);
        assert Monitored() == old(Monitored())[name := m.Value()];
        assert World() == old(World()).(monitors := Monitored());
        if changed {
          HandleStatusChange(name, m.status);
        }
      }
    }

    method HandleStatusChange(sensor: string, status: HealthStatus)
      requires Valid()
      modifies `groups, modeManager, mekf
      ensures Valid() && World() == F.Responded(old(World()), sensor, status)
    {
      hide R.AfterStatus, R.ModeAfter, F.Restarted, F.VectorMetric, IsSqrt, Mekf.Defined;
      ExecuteResponseActions(sensor, status);
      assert Monitored() == old(Monitored());
      if !old(World()).powers.mode {
        WithoutMode(old(World()), sensor, status);
      }
    }

    /** The registry, the mode and the filter are as the responses to a status change leave them. */
    twostate predicate Responded(sensor: string, status: HealthStatus)
      requires old(Registry().Valid())
      requires modeManager == old(modeManager) && mekf == old(mekf)
      reads this, modeManager, mekf
    {
      var r, p := old(Registry()), old(Powers());
      && Registry() == R.AfterStatus(r, sensor, status)
      && (modeManager != null ==>
            modeManager.Value() == R.ModeAfter(r, sensor, status, p, old(modeManager.Value())))
      && (mekf != null ==>
            var e := old(mekf.State());
            mekf.State() == if R.ResetsFilter(r, sensor, status, p) then F.Restarted(e) else e)
    }


    /** Bookkeeping of a failure; the result says whether the backup has taken over. */
    method FailOver(sensor: string) returns (done: bool)
      requires Registry().Valid()
      modifies `groups
      ensures done <==> R.CanFailOver(old(Registry()), sensor)
      ensures Registry() == R.AfterStatus(old(Registry()), sensor, FAILED)
    {
      done := false;
      if sensor in groupOf {
        var name := groupOf[sensor];
        var group := groups[name];
        if sensor == group.primary && group.active == group.primary && group.backupAvailable {
          group := group.(active := group.backup);
          group := group.(backupAvailable := false);
          done := true;
        } else if sensor == group.backup {
          group := group.(backupAvailable := false);
        }
        groups := groups[name := group];
        assert groups == R.AfterStatus(old(Registry()), sensor, FAILED).groups;
      }
    }

    method ExecuteResponseActions(sensor: string, status: HealthStatus)
      requires Valid()
      modifies `groups, modeManager, mekf
      ensures Valid() && Responded(sensor, status)
    {
      hide Mekf.Step, Mekf.Defined, IsSqrt, F.Restarted, F.VectorMetric;
      if status == FAILED {
        var failover := FailOver(sensor);
        if failover {
          if autoMode && modeManager != null {
            modeManager.ForceModeChange(M.DEGRADED);
          }
          return;
        }
        var critical := sensor in R.CRITICAL;
        if autoFilterReset && critical && mekf != null {
          RestartedByReset(mekf.State(), mekf.sqrt);
          mekf.Reset();
        }
        if autoMode && critical && modeManager != null {
          modeManager.ForceModeChange(M.SAFE);
        }
      } else if status == DEGRADED {
        if autoMode && modeManager != null && modeManager.current == M.NOMINAL {
          modeManager.ForceModeChange(M.DEGRADED);
        }
      }
    }

    /** Back to initial records without notifications; the bookkeeping stays. */
    method ResetAll()
      requires Valid()
      modifies monitors.Values
      ensures Valid() && World() == F.Step(old(World()), F.ResetAll, sqrt)
      ensures forall n :: n in monitors ==> Settings(n) == old(Settings(n))
    {
      hide F.VectorMetric, F.Step, IsSqrt, Mekf.Defined;
      var rest := monitors.Keys;
      while rest != {}
        invariant rest <= monitors.Keys
        invariant forall n :: n in monitors ==> monitors[n].config == old(monitors[n].config)
        invariant forall n :: n in monitors && n !in rest ==> monitors[n].Value() == S.Initial()
      {
        var n :| n in rest;
        rest := rest - {n};
        monitors[n].Reset();
      }
      Resetting(old(World()), sqrt);
      assert Monitored() == map n | n in monitors :: S.Initial();
      assert World() == old(World()).(monitors := Monitored());
    }

    /** The worst status of any sensor, whatever order the monitors are visited in. */
    method GetSystemHealth() returns (worst: HealthStatus)
      ensures worst == FAILED <==> exists n :: n in monitors && monitors[n].status == FAILED
      ensures worst == HEALTHY <==> forall n :: n in monitors ==> monitors[n].status == HEALTHY
    {
      worst := HEALTHY;
      var rest := monitors.Keys;
      while rest != {}
        invariant rest <= monitors.Keys
        invariant worst != FAILED
        invariant forall n :: n in monitors && n !in rest ==> monitors[n].status != FAILED
        invariant worst == HEALTHY <==> forall n :: n in monitors && n !in rest ==> monitors[n].status == HEALTHY
      {
        var n :| n in rest;
        rest := rest - {n};
        var status := monitors[n].status;
        if status == FAILED {
          return FAILED;
        }
        if status == DEGRADED {
          worst := DEGRADED;
        }
      }
    }

    ghost function WithStatus(names: set<string>, status: HealthStatus): set<string>
      requires names <= monitors.Keys
      reads this, monitors.Values
    {
      set n | n in names && monitors[n].status == status
    }

    method GetHealthSummary() returns (r: HealthSummary)
      ensures r.healthy == |WithStatus(monitors.Keys, HEALTHY)|
      ensures r.degraded == |WithStatus(monitors.Keys, DEGRADED)|
      ensures r.failed == |WithStatus(monitors.Keys, FAILED)|
      ensures r.healthy + r.degraded + r.failed == |monitors|
    {
      r := HealthSummary(0, 0, 0);
      var rest := monitors.Keys;
      while rest != {}
        invariant rest <= monitors.Keys
        invariant r.healthy == |WithStatus(monitors.Keys - rest, HEALTHY)|
        invariant r.degraded == |WithStatus(monitors.Keys - rest, DEGRADED)|
        invariant r.failed == |WithStatus(monitors.Keys - rest, FAILED)|
        invariant r.healthy + r.degraded + r.failed + |rest| == |monitors.Keys|
      {
        var n :| n in rest;
        var seen := monitors.Keys - rest;
        rest := rest - {n};
        assert monitors.Keys - rest == seen + {n};
        GrowsByOne(seen, n);
        match monitors[n].status
        case HEALTHY => r := r.(healthy := r.healthy + 1);
        case DEGRADED => r := r.(degraded := r.degraded + 1);
        case FAILED => r := r.(failed := r.failed + 1);
      }
      assert monitors.Keys - rest == monitors.Keys;
    }

    lemma GrowsByOne(seen: set<string>, n: string)
      requires seen <= monitors.Keys && n in monitors && n !in seen
      ensures forall h: HealthStatus {:trigger WithStatus(seen + {n}, h)} ::
                |WithStatus(seen + {n}, h)| == |WithStatus(seen, h)| + if monitors[n].status == h then 1 else 0
    {
      forall h: HealthStatus {:trigger WithStatus(seen + {n}, h)}
        ensures |WithStatus(seen + {n}, h)| == |WithStatus(seen, h)| + if monitors[n].status == h then 1 else 0
      {
        assert WithStatus(seen + {n}, h) == WithStatus(seen, h) + if monitors[n].status == h then {n} else {};
      }
    }

    // ---------- Reaction wheels ----------

    method UpdateWheels(speeds: seq<real>, torques: seq<real>, dt: real)
      requires W.Complete(W.Call(speeds, torques, dt))
      modifies `wheels, modeManager
      ensures wheels == W.AfterCall(old(wheels), W.Call(speeds, torques, dt))
      ensures modeManager != null ==>
                var mode := old(modeManager.Value());
                modeManager.Value() ==
                if autoMode then W.Response(W.FailedCount(old(wheels)), W.FailedCount(wheels), mode) else mode
    {
      hide W.AfterCall, W.FailedCount, W.NoBetter;
      ghost var was := wheels;
      if |wheels| < |speeds| {
        wheels := wheels + W.Fresh(|speeds| - |wheels|);
      }
      W.ResizedFailures(was, |speeds|);
      W.CallNeverHeals(was, W.Call(speeds, torques, dt));
      var before := GetFailedWheelCount();
      UpdateEachWheel(was, speeds, torques, dt);
      var after := GetFailedWheelCount();
      if after != before {
        if autoMode && modeManager != null {
          if after == 1 {
            modeManager.ForceModeChange(M.DEGRADED);
          } else if after >= 2 {
            modeManager.ForceModeChange(M.SAFE);
          }
        }
      }
    }

    /** The detection loop, on a fleet already resized. */
    method UpdateEachWheel(ghost was: seq<W.Wheel>, speeds: seq<real>, torques: seq<real>, dt: real)
      requires W.Complete(W.Call(speeds, torques, dt)) && wheels == W.Resized(was, |speeds|)
      modifies `wheels
      ensures wheels == W.AfterCall(was, W.Call(speeds, torques, dt))
    {
      hide W.WheelStep;
      ghost var c, known := W.Call(speeds, torques, dt), wheels;
      for i := 0 to |speeds|
        invariant |wheels| == |known|
        invariant forall j :: 0 <= j < i ==> wheels[j] == W.WheelStep(known[j], W.SampleOf(c, j))
        invariant forall j :: i <= j < |known| ==> wheels[j] == known[j]
      {
        var torque := if Abs(speeds[i]) < W.MAX_SPEED then torques[i] else 0.0;
        UpdateWheel(i, W.Sample(speeds[i], torque, dt));
      }
      assert wheels == W.AfterCall(was, c);
    }

    /** One pass of the loop body. */
    method UpdateWheel(i: nat, s: W.Sample)
      requires i < |wheels|
      modifies `wheels
      ensures wheels == old(wheels)[i := W.WheelStep(old(wheels)[i], s)]
    {
      var wm := wheels[i];
      var measured := s.dt != 0.0;
      var accel := if measured then (s.speed - wm.lastSpeed) / s.dt else 0.0;
      wm := wm.(lastSpeed := s.speed);
      if Abs(s.speed) >= W.MAX_SPEED {
        if wm.status != FAILED {
          wm := wm.(status := FAILED);
        }
        wheels := wheels[i := wm];
        return;
      }
      var expectedTorque := s.torque - W.FRICTION * s.speed;
      if Abs(expectedTorque) > W.MIN_TORQUE {
        var expectedAccel := expectedTorque / W.WHEEL_INERTIA;
        if measured && Abs(accel) < 0.05 * Abs(expectedAccel) {
          wm := wm.(stuckCount := wm.stuckCount + 1);
          if wm.stuckCount >= W.STUCK_SAMPLES {
            if wm.status != FAILED {
              wm := wm.(status := FAILED);
            }
          }
        } else {
          wm := wm.(stuckCount := 0);
        }
        if measured && Abs(accel) > 0.05 * Abs(expectedAccel) && Abs(accel) < 0.5 * Abs(expectedAccel) {
          wm := wm.(degradedCount := wm.degradedCount + 1);
          if wm.degradedCount >= W.DEGRADED_SAMPLES {
            if wm.status == HEALTHY {
              wm := wm.(status := DEGRADED);
            }
          }
        } else {
          wm := wm.(degradedCount := 0);
        }
      } else {
        wm := wm.(stuckCount := 0, degradedCount := 0);
      }
      wheels := wheels[i := wm];
    }

    method GetFailedWheelCount() returns (count: nat)
      ensures count == W.FailedCount(wheels)
    {
      count := 0;
      for i := 0 to |wheels|
        invariant count == W.FailedCount(wheels[..i])
      {
        assert wheels[..i + 1][..i] == wheels[..i];
        if wheels[i].status == FAILED {
          count := count + 1;
        }
      }
      assert wheels[..|wheels|] == wheels;
    }

    function WheelStatus(i: nat): HealthStatus
      reads this
    {
      W.StatusOf(wheels, i)
    }
  }

  lemma RestartedByReset(e: Mekf.Estimate, sqrt: real -> real)
    requires IsSqrt(sqrt) && Mekf.Defined(e, Mekf.Event.Reset)
    ensures Mekf.Step(e, Mekf.Event.Reset, sqrt) == F.Restarted(e)
  {
  }

  lemma Registering(w: F.World, name: string, sqrt: real -> real)
    requires w.registry.Valid()
    ensures F.Step(w, F.Sensor(name), sqrt) == w.(monitors := w.monitors[name := S.Initial()])
  {
  }

  lemma Reread(monitor: S.Monitor<Vec3>, value: Vec3, cfg: S.Config, sqrt: real -> real)
    ensures F.AfterReading(monitor, value, cfg, sqrt) == S.AfterReading(monitor, value, cfg, F.VectorMetric(sqrt))
  {
    hide S.AfterReading;
  }

  lemma WithoutMode(w: F.World, sensor: string, status: HealthStatus)
    requires w.registry.Valid() && !w.powers.mode
    ensures F.Responded(w, sensor, status).mode == w.mode
  {
  }

  lemma Resetting(w: F.World, sqrt: real -> real)
    requires w.registry.Valid()
    ensures F.Step(w, F.ResetAll, sqrt) == w.(monitors := map n | n in w.monitors :: S.Initial())
  {
  }
}
