/** Health monitoring of one sensor: stuck, out-of-range and rapid-change detection. */
module SensorHealth {
  import opened HealthStatuses
  import opened Streaks

  const MAX_HISTORY := 100

  datatype Config = Config(
    stuckTolerance: real, stuckSamples: int, minValue: real, maxValue: real, maxChange: real,
    stuckOn: bool, rangeOn: bool, rapidOn: bool)

  const DEFAULT := Config(0.000001, 50, 0.0, 1000000000.0, 1000000000.0, true, true, true)

  /** How a kind of measurement is sized and compared. */
  datatype Metric<!T> = Metric(magnitude: T -> real, difference: (T, T) -> real)

  datatype Monitor<T> = Monitor(status: HealthStatus, stuckCount: nat, history: seq<T>)

  function Initial<T>(): Monitor<T> {
    Monitor(HEALTHY, 0, [])
  }

  function Recent<T>(s: seq<T>): (r: seq<T>)
    ensures |r| <= MAX_HISTORY
  {
    if |s| <= MAX_HISTORY then s else s[|s| - MAX_HISTORY..]
  }

  predicate OutOfRange<T>(m: T, cfg: Config, metric: Metric<T>) {
    metric.magnitude(m) < cfg.minValue || metric.magnitude(m) > cfg.maxValue
  }

  /** The last two entries are too close together. */
  predicate Still<T>(history: seq<T>, cfg: Config, metric: Metric<T>)
    requires |history| >= 2
  {
    metric.difference(history[|history| - 1], history[|history| - 2]) < cfg.stuckTolerance
  }

  /** The last two entries are too far apart. */
  predicate Jumped<T>(history: seq<T>, cfg: Config, metric: Metric<T>)
    requires |history| >= 2
  {
    metric.difference(history[|history| - 1], history[|history| - 2]) > cfg.maxChange
  }

  /** The verdict on the newest entry of a history, given the length of the stuck streak it ends. */
  function Verdict<T>(history: seq<T>, streak: nat, cfg: Config, metric: Metric<T>): HealthStatus
    requires history != []
  {
    var two := |history| >= 2;
    if cfg.stuckOn && two && Still(history, cfg, metric) && streak >= cfg.stuckSamples then FAILED
    else if cfg.rangeOn && OutOfRange(history[|history| - 1], cfg, metric) then DEGRADED
    else if cfg.rapidOn && two && Jumped(history, cfg, metric) then DEGRADED
    else HEALTHY
  }

  /** The stuck counter after a comparison at the end of a history. */
  function NextCount<T>(count: nat, history: seq<T>, cfg: Config, metric: Metric<T>): nat {
    if !cfg.stuckOn || |history| < 2 then count
    else if Still(history, cfg, metric) then count + 1 else 0
  }

  function AfterReading<T>(s: Monitor<T>, m: T, cfg: Config, metric: Metric<T>): Monitor<T> {
    var history := Recent(s.history + [m]);
    var count := NextCount(s.stuckCount, history, cfg, metric);
    Monitor(Verdict(history, count, cfg, metric), count, history)
  }

  // ---------- Runs between resets ----------

  /** A measurement with the configuration in force when it arrived. */
  datatype Reading<T> = Reading(value: T, cfg: Config)

  function Values<T>(stream: seq<Reading<T>>): (values: seq<T>)
    ensures |values| == |stream|
  {
    seq(|stream|, i requires 0 <= i < |stream| => stream[i].value)
  }

  function Run<T>(stream: seq<Reading<T>>, metric: Metric<T>): Monitor<T>
    decreases |stream|
  {
    if stream == [] then Initial()
    else
      var r := stream[|stream| - 1];
      AfterReading(Run(stream[..|stream| - 1], metric), r.value, r.cfg, metric)
  }

  /** One flag for each reading that was compared with its predecessor while stuck detection was
      enabled, over the whole stream. */
  function StillFlags<T>(stream: seq<Reading<T>>, metric: Metric<T>): seq<bool>
    decreases |stream|
  {
    if |stream| < 2 then []
    else
      var cfg := stream[|stream| - 1].cfg;
      StillFlags(stream[..|stream| - 1], metric)
      + if cfg.stuckOn then [Still(Values(stream), cfg, metric)] else []
  }

  /** Cutting the history changes no verdict. */
  lemma ReadingSeesWholeHistory<T>(was: HealthStatus, count: nat, values: seq<T>, m: T, cfg: Config, metric: Metric<T>)
    ensures var longer := values + [m];
            var next := NextCount(count, longer, cfg, metric);
            AfterReading(Monitor(was, count, Recent(values)), m, cfg, metric)
            == Monitor(Verdict(longer, next, cfg, metric), next, Recent(longer))
  {
  }

  /** Despite the bounded history the monitor judges the whole stream since the last reset: the
      counter is the streak over all comparisons ever made, and the status is the verdict on the
      uncut history. */
  lemma {:induction false} MonitorSeesWholeStream<T>(stream: seq<Reading<T>>, metric: Metric<T>)
    ensures Run(stream, metric).history == Recent(Values(stream))
    ensures Run(stream, metric).stuckCount == Streak(StillFlags(stream, metric))
    ensures stream != [] ==>
              var cfg := stream[|stream| - 1].cfg;
              Run(stream, metric).status == Verdict(Values(stream), Streak(StillFlags(stream, metric)), cfg, metric)
    decreases |stream|
  {
    hide AfterReading, Verdict, Still, Streak, Recent;
    if stream == [] {
      RunOfNothing(metric);
    } else {
      var before, r := stream[..|stream| - 1], stream[|stream| - 1];
      var s := Run(before, metric);
      MonitorSeesWholeStream(before, metric);
      assert Values(stream) == Values(before) + [r.value];
      ReadingSeesWholeHistory(s.status, s.stuckCount, Values(before), r.value, r.cfg, metric);
      if |stream| >= 2 {
        StreakGrows(StillFlags(before, metric), Still(Values(stream), r.cfg, metric));
        assert StillFlags(before, metric) + [] == StillFlags(before, metric);
      }
    }
  }

  lemma RunOfNothing<T>(metric: Metric<T>)
    ensures Run([], metric) == Monitor(HEALTHY, Streak(StillFlags([], metric)), Recent(Values<T>([])))
  {
  }

  // ---------- Stuck detection enabled throughout ----------

  ghost predicate AlwaysWatching<T>(stream: seq<Reading<T>>) {
    forall i :: 0 <= i < |stream| ==> stream[i].cfg.stuckOn
  }

  /** Reading i + 1 stays within the tolerance of reading i. */
  predicate Unchanged<T>(stream: seq<Reading<T>>, i: nat, metric: Metric<T>)
    requires i + 1 < |stream|
  {
    metric.difference(stream[i + 1].value, stream[i].value) < stream[i + 1].cfg.stuckTolerance
  }

  /** With detection always on there is one flag for every adjacent pair of measurements. */
  lemma {:induction false} FlagsAreAllPairs<T>(stream: seq<Reading<T>>, metric: Metric<T>)
    requires AlwaysWatching(stream)
    ensures |StillFlags(stream, metric)| == if stream == [] then 0 else |stream| - 1
    ensures forall i :: 0 <= i < |StillFlags(stream, metric)| ==>
              (StillFlags(stream, metric)[i] <==> Unchanged(stream, i, metric))
    decreases |stream|
  {
    if |stream| >= 2 {
      FlagsAreAllPairs(stream[..|stream| - 1], metric);
    }
  }

  lemma FlagsByPair<T>(stream: seq<Reading<T>>, metric: Metric<T>, i: nat, k: nat)
    requires AlwaysWatching(stream) && i + k <= |StillFlags(stream, metric)| < |stream|
    ensures AllSet(StillFlags(stream, metric), i, k) <==>
              forall j :: i <= j < i + k ==> Unchanged(stream, j, metric)
  {
    hide StillFlags, AlwaysWatching;
    FlagsAreAllPairs(stream, metric);
  }

  /** With detection always on, the sensor is FAILED exactly when the newest adjacent pairs, as many
      as the threshold (and at least one), are all closer than the tolerance. */
  lemma FailedExactlyWhenStuck<T>(stream: seq<Reading<T>>, metric: Metric<T>)
    requires stream != [] && AlwaysWatching(stream)
    ensures var k := stream[|stream| - 1].cfg.stuckSamples;
            var need := if k < 1 then 1 else k;
            Run(stream, metric).status == FAILED <==>
              && need <= |stream| - 1
              && forall i :: |stream| - 1 - need <= i < |stream| - 1 ==> Unchanged(stream, i, metric)
  {
    assert stream[|stream| - 1].cfg.stuckOn;
    hide Run, Streak, StillFlags, AlwaysWatching;
    var k := stream[|stream| - 1].cfg.stuckSamples;
    var need := if k < 1 then 1 else k;
    var flags := StillFlags(stream, metric);
    MonitorSeesWholeStream(stream, metric);
    FlagsAreAllPairs(stream, metric);
    StreakIsMaximal(flags);
    if |stream| >= 2 {
      assert flags[|flags| - 1] <==> Still(Values(stream), stream[|stream| - 1].cfg, metric);
      assert Run(stream, metric).status == FAILED <==> Streak(flags) >= need;
    }
    if need <= |flags| {
      StreakOf(flags, need);
      FlagsByPair(stream, metric, |flags| - need, need);
    }
  }

  // ---------- Stuck detection switched on and off ----------

  /** How many of the readings from position p on were compared with their predecessor. */
  function Compared<T>(stream: seq<Reading<T>>, p: nat): nat
    decreases |stream|
  {
    if |stream| <= p || |stream| < 2 then 0
    else Compared(stream[..|stream| - 1], p) + if stream[|stream| - 1].cfg.stuckOn then 1 else 0
  }

  /** No reading from position p on that was compared has moved, and at least k were. */
  predicate QuietFrom<T>(stream: seq<Reading<T>>, p: nat, k: int, metric: Metric<T>) {
    && Compared(stream, p) >= k
    && forall i :: 0 <= i < |stream| - 1 && i + 1 >= p && stream[i + 1].cfg.stuckOn ==> Unchanged(stream, i, metric)
  }

  /** The newest k compared readings have not moved. */
  ghost predicate Quiet<T>(stream: seq<Reading<T>>, k: int, metric: Metric<T>) {
    exists p: nat :: p <= |stream| && QuietFrom(stream, p, k, metric)
  }

  lemma QuietGrows<T>(stream: seq<Reading<T>>, p: nat, k: int, metric: Metric<T>)
    requires |stream| >= 2 && p < |stream|
    ensures var n := |stream| - 1;
            QuietFrom(stream, p, k, metric) <==>
              if stream[n].cfg.stuckOn then QuietFrom(stream[..n], p, k - 1, metric) && Unchanged(stream, n - 1, metric)
              else QuietFrom(stream[..n], p, k, metric)
  {
    var n := |stream| - 1;
    forall i | 0 <= i < n - 1 ensures Unchanged(stream[..n], i, metric) <==> Unchanged(stream, i, metric) {
    }
    if QuietFrom(stream, p, k, metric) && stream[n].cfg.stuckOn {
      assert Unchanged(stream, n - 1, metric);
    }
  }

  lemma QuietStep<T>(stream: seq<Reading<T>>, k: int, metric: Metric<T>)
    requires |stream| >= 2 && k > 0
    ensures var n := |stream| - 1;
            Quiet(stream, k, metric) <==>
              if stream[n].cfg.stuckOn then Quiet(stream[..n], k - 1, metric) && Unchanged(stream, n - 1, metric)
              else Quiet(stream[..n], k, metric)
  {
    hide QuietFrom;
    var n := |stream| - 1;
    var before, less := stream[..n], if stream[n].cfg.stuckOn then k - 1 else k;
    QuietAtEnd(stream, k, metric);
    if Quiet(stream, k, metric) {
      var p: nat :| p <= |stream| && QuietFrom(stream, p, k, metric);
      QuietGrows(stream, p, k, metric);
      assert QuietFrom(before, p, less, metric);
    }
    if Quiet(before, less, metric) {
      var p: nat :| p <= |before| && QuietFrom(before, p, less, metric);
      QuietGrows(stream, p, k, metric);
    }
  }

  lemma {:induction false} StreakIsQuiet<T>(stream: seq<Reading<T>>, k: int, metric: Metric<T>)
    ensures Streak(StillFlags(stream, metric)) >= k <==> Quiet(stream, k, metric)
    decreases |stream|
  {
    hide QuietFrom;
    QuietAtEnd(stream, k, metric);
    if |stream| >= 2 && k > 0 {
      hide Quiet;
      var n := |stream| - 1;
      var before, on := stream[..n], stream[n].cfg.stuckOn;
      StreakIsQuiet(before, if on then k - 1 else k, metric);
      QuietStep(stream, k, metric);
      StillIsUnchanged(stream, metric);
      StreakGrows(StillFlags(before, metric), Unchanged(stream, n - 1, metric));
      assert StillFlags(before, metric) + [] == StillFlags(before, metric);
    }
  }

  lemma QuietAtEnd<T>(stream: seq<Reading<T>>, k: int, metric: Metric<T>)
    ensures QuietFrom(stream, |stream|, k, metric) <==> k <= 0
    ensures |stream| < 2 ==> forall p: nat :: QuietFrom(stream, p, k, metric) <==> k <= 0
  {
  }

  lemma StillIsUnchanged<T>(stream: seq<Reading<T>>, metric: Metric<T>)
    requires |stream| >= 2
    ensures Still(Values(stream), stream[|stream| - 1].cfg, metric) <==> Unchanged(stream, |stream| - 2, metric)
  {
  }

  /** With detection switched on and off at will: the sensor is FAILED exactly when detection is on and the newest
      compared readings, as many as the threshold and at least one, have not moved; readings that were not
      compared neither help nor hurt. */
  lemma FailedExactlyWhenQuiet<T>(stream: seq<Reading<T>>, metric: Metric<T>)
    requires stream != []
    ensures var cfg := stream[|stream| - 1].cfg;
            var need := if cfg.stuckSamples < 1 then 1 else cfg.stuckSamples;
            Run(stream, metric).status == FAILED <==>
              cfg.stuckOn && Quiet(stream, need, metric)
  {
    hide Run, Quiet;
    var n, cfg := |stream| - 1, stream[|stream| - 1].cfg;
    var need := if cfg.stuckSamples < 1 then 1 else cfg.stuckSamples;
    MonitorSeesWholeStream(stream, metric);
    StreakIsQuiet(stream, need, metric);
    if |stream| >= 2 && cfg.stuckOn {
      StreakGrows(StillFlags(stream[..n], metric), Still(Values(stream), cfg, metric));
    }
  }

  /** The newest reading decides between the other two, from the raw values: a sensor that is not FAILED is
      DEGRADED exactly when range detection is on and the reading lies outside its limits, or rapid-change
      detection is on and the reading differs from the one before by more than the limit; otherwise it is
      HEALTHY.  Without stuck detection it is never FAILED. */
  lemma DegradedExactlyWhen<T>(stream: seq<Reading<T>>, metric: Metric<T>)
    requires stream != []
    ensures var n, s := |stream| - 1, Run(stream, metric).status;
            var cfg, size := stream[n].cfg, metric.magnitude(stream[n].value);
            var outside := cfg.rangeOn && (size < cfg.minValue || cfg.maxValue < size);
            var jumped := cfg.rapidOn && n > 0
                          && metric.difference(stream[n].value, stream[n - 1].value) > cfg.maxChange;
            && (s == DEGRADED <==> s != FAILED && (outside || jumped))
            && (s == HEALTHY <==> s != FAILED && !outside && !jumped)
            && (!cfg.stuckOn ==> s != FAILED)
  {
    hide Run, Streak, StillFlags;
    MonitorSeesWholeStream(stream, metric);
  }

  // ---------- Notifications ----------

  /** The statuses passed to the callback. */
  function Notified<T>(stream: seq<Reading<T>>, metric: Metric<T>): seq<HealthStatus>
    decreases |stream|
  {
    if stream == [] then []
    else
      var before := stream[..|stream| - 1];
      var was, now := Run(before, metric).status, Run(stream, metric).status;
      Notified(before, metric) + if now != was then [now] else []
  }

  /** The status after each reading. */
  function Statuses<T>(stream: seq<Reading<T>>, metric: Metric<T>): (trace: seq<HealthStatus>)
    ensures |trace| == |stream|
  {
    seq(|stream|, i requires 0 <= i < |stream| => Run(stream[..i + 1], metric).status)
  }

  /** A trace without adjacent repeats, seen from a first status. */
  function WithoutRepeats(first: HealthStatus, trace: seq<HealthStatus>): seq<HealthStatus>
    decreases |trace|
  {
    if trace == [] then []
    else if trace[0] == first then WithoutRepeats(first, trace[1..])
    else [trace[0]] + WithoutRepeats(trace[0], trace[1..])
  }

  lemma {:induction false} WithoutRepeatsGrows(first: HealthStatus, trace: seq<HealthStatus>, h: HealthStatus)
    ensures WithoutRepeats(first, trace + [h])
         == WithoutRepeats(first, trace) + if h != (if trace == [] then first else trace[|trace| - 1]) then [h] else []
    decreases |trace|
  {
    if trace == [] {
      assert [h][1..] == [];
    } else {
      assert (trace + [h])[1..] == trace[1..] + [h];
      WithoutRepeatsGrows(trace[0], trace[1..], h);
    }
  }

  lemma StatusesGrow<T>(stream: seq<Reading<T>>, metric: Metric<T>)
    requires stream != []
    ensures Statuses(stream, metric)
         == Statuses(stream[..|stream| - 1], metric) + [Run(stream, metric).status]
  {
    hide Run;
    var n := |stream| - 1;
    assert stream[..n + 1] == stream;
    forall i | 0 <= i < n ensures Statuses(stream, metric)[i] == Statuses(stream[..n], metric)[i] {
      assert stream[..n][..i + 1] == stream[..i + 1];
    }
  }

  lemma LastStatus<T>(stream: seq<Reading<T>>, metric: Metric<T>)
    ensures Run(stream, metric).status ==
            if stream == [] then HEALTHY else Statuses(stream, metric)[|stream| - 1]
  {
    if stream != [] {
      assert stream[..|stream|] == stream;
    }
  }

  /** Between resets the callback trace is the status trace with its repeats removed. */
  lemma {:induction false} NotificationsAreStatusChanges<T>(stream: seq<Reading<T>>, metric: Metric<T>)
    ensures Notified(stream, metric) == WithoutRepeats(HEALTHY, Statuses(stream, metric))
    decreases |stream|
  {
    if stream != [] {
      var before := stream[..|stream| - 1];
      hide Run, Statuses, WithoutRepeats, AfterReading;
      NotificationsAreStatusChanges(before, metric);
      StatusesGrow(stream, metric);
      LastStatus(before, metric);
      WithoutRepeatsGrows(HEALTHY, Statuses(before, metric), Run(stream, metric).status);
    }
  }

  // ---------- The monitor ----------

  class SensorHealthMonitor<T> {
    const name: string
    const metric: Metric<T>
    var config: Config
    var status: HealthStatus
    var stuckCount: nat
    var history: seq<T>

    function Value(): Monitor<T>
      reads this
    {
      Monitor(status, stuckCount, history)
    }

    constructor (name: string, metric: Metric<T>)
      ensures this.name == name && this.metric == metric
      ensures config == DEFAULT && Value() == Initial() == Monitor(HEALTHY, 0, [])
    {
      this.name, this.metric := name, metric;
      config := DEFAULT;
      status, stuckCount, history := HEALTHY, 0, [];
    }

    /** The result says whether the status-change callback is invoked, with the new status. */
    method Update(m: T) returns (changed: bool)
      requires |history| <= MAX_HISTORY
      modifies this
      ensures config == old(config)
      ensures Value() == AfterReading(old(Value()), m, config, metric)
      ensures changed <==> status != old(status)
    {
      AddToHistory(m);
      var newStatus := HEALTHY;
      var stuck := false;
      if config.stuckOn {
        stuck := DetectStuck(m);
      }
      if stuck {
        newStatus := FAILED;
      } else if config.rangeOn && OutOfRange(m, config, metric) {
        newStatus := DEGRADED;
      } else if config.rapidOn && |history| >= 2 && metric.difference(m, history[|history| - 2]) > config.maxChange {
        newStatus := DEGRADED;
      }
      changed := newStatus != status;
      if changed {
        status := newStatus;
      }
    }

    method AddToHistory(m: T)
      requires |history| <= MAX_HISTORY
      modifies `history
      ensures history == Recent(old(history) + [m])
    {
      history := history + [m];
      if |history| > MAX_HISTORY {
        history := history[1..];
      }
    }

    method DetectStuck(m: T) returns (stuck: bool)
      requires history != [] && history[|history| - 1] == m
      modifies `stuckCount
      ensures stuckCount == if |history| < 2 then old(stuckCount)
                            else if Still(history, config, metric) then old(stuckCount) + 1 else 0
      ensures stuck <==> |history| >= 2 && Still(history, config, metric) && stuckCount >= config.stuckSamples
    {
      if |history| < 2 {
        return false;
      }
      var prev := history[|history| - 2];
      if metric.difference(m, prev) < config.stuckTolerance {
        stuckCount := stuckCount + 1;
        if stuckCount >= config.stuckSamples {
          return true;
        }
      } else {
        stuckCount := 0;
      }
      return false;
    }

    /** Back to the initial record; the callback is not invoked and the settings stay. */
    method Reset()
      modifies this
      ensures config == old(config) && Value() == Initial()
    {
      status := HEALTHY;
      stuckCount := 0;
      history := [];
    }

    method Configure(config: Config)
      modifies this
      ensures this.config == config && Value() == old(Value())
    {
      this.config := config;
    }
  }
}
