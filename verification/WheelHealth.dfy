/** Reaction wheel fault detection: what one speed sample does to the record of a wheel, and what
    the record says about the whole history of samples. */
module WheelHealth {
  import opened HealthStatuses
  import opened Reals
  import opened Streaks
  import ModeManager

  const MAX_SPEED := 95.0
  const WHEEL_INERTIA := 0.001
  const FRICTION := 0.0001
  const MIN_TORQUE := 0.002
  const STUCK_SAMPLES := 10
  const DEGRADED_SAMPLES := 15

  datatype Wheel = Wheel(lastSpeed: real, stuckCount: nat, degradedCount: nat, status: HealthStatus)

  const FRESH := Wheel(0.0, 0, 0, HEALTHY)

  /** What one update says about one wheel. */
  datatype Sample = Sample(speed: real, torque: real, dt: real)

  predicate Saturated(s: Sample) {
    Abs(s.speed) >= MAX_SPEED
  }

  function ExpectedTorque(s: Sample): real {
    s.torque - FRICTION * s.speed
  }

  function ExpectedAccel(s: Sample): real {
    ExpectedTorque(s) / WHEEL_INERTIA
  }

  function Accel(last: real, s: Sample): real
    requires s.dt != 0.0
  {
    (s.speed - last) / s.dt
  }

  /** Enough torque was commanded to judge the response. */
  predicate Driven(s: Sample) {
    Abs(ExpectedTorque(s)) > MIN_TORQUE
  }

  // A step of zero makes the measured acceleration an infinity or not a number, and both tests fail.

  predicate Stuck(last: real, s: Sample) {
    s.dt != 0.0 && Driven(s) && Abs(Accel(last, s)) < 0.05 * Abs(ExpectedAccel(s))
  }

  predicate Weak(last: real, s: Sample) {
    && s.dt != 0.0
    && Driven(s)
    && Abs(Accel(last, s)) > 0.05 * Abs(ExpectedAccel(s))
    && Abs(Accel(last, s)) < 0.5 * Abs(ExpectedAccel(s))
  }

  function WheelStep(w: Wheel, s: Sample): Wheel {
    if Saturated(s) then
      w.(lastSpeed := s.speed, status := FAILED)
    else
      var stuck := if Stuck(w.lastSpeed, s) then w.stuckCount + 1 else 0;
      var weak := if Weak(w.lastSpeed, s) then w.degradedCount + 1 else 0;
      Wheel(s.speed, stuck, weak,
            if stuck >= STUCK_SAMPLES then FAILED
            else if weak >= DEGRADED_SAMPLES && w.status == HEALTHY then DEGRADED
            else w.status)
  }

  function WheelRun(samples: seq<Sample>): Wheel
    decreases |samples|
  {
    if samples == [] then FRESH else WheelStep(WheelRun(samples[..|samples| - 1]), samples[|samples| - 1])
  }

  // ---------- The history of one wheel ----------

  function SpeedBefore(samples: seq<Sample>, i: nat): real
    requires i <= |samples|
  {
    if i == 0 then 0.0 else samples[i - 1].speed
  }

  function StuckFlags(samples: seq<Sample>): (flags: seq<bool>)
    ensures |flags| == |samples|
  {
    seq(|samples|, i requires 0 <= i < |samples| => Stuck(SpeedBefore(samples, i), samples[i]))
  }

  function WeakFlags(samples: seq<Sample>): (flags: seq<bool>)
    ensures |flags| == |samples|
  {
    seq(|samples|, i requires 0 <= i < |samples| => Weak(SpeedBefore(samples, i), samples[i]))
  }

  predicate EverSaturated(samples: seq<Sample>) {
    exists i :: 0 <= i < |samples| && Saturated(samples[i])
  }

  /** The whole record, read off the history.  The counters are left behind once a wheel saturates. */
  ghost predicate Explains(w: Wheel, samples: seq<Sample>) {
    && w.lastSpeed == SpeedBefore(samples, |samples|)
    && (!EverSaturated(samples) ==>
          w.stuckCount == Streak(StuckFlags(samples)) && w.degradedCount == Streak(WeakFlags(samples)))
    && (w.status == FAILED <==> EverSaturated(samples) || HasRun(StuckFlags(samples), STUCK_SAMPLES))
    && (w.status != HEALTHY <==> w.status == FAILED || HasRun(WeakFlags(samples), DEGRADED_SAMPLES))
  }

  lemma FlagsGrow(samples: seq<Sample>)
    requires samples != []
    ensures var n := |samples| - 1;
            && StuckFlags(samples) == StuckFlags(samples[..n]) + [Stuck(SpeedBefore(samples, n), samples[n])]
            && WeakFlags(samples) == WeakFlags(samples[..n]) + [Weak(SpeedBefore(samples, n), samples[n])]
            && SpeedBefore(samples[..n], n) == SpeedBefore(samples, n)
            && (EverSaturated(samples) <==> EverSaturated(samples[..n]) || Saturated(samples[n]))
  {
    var n := |samples| - 1;
    assert forall i :: 0 <= i < n ==> samples[..n][i] == samples[i];
    assert forall i :: 0 <= i <= n ==> SpeedBefore(samples[..n], i) == SpeedBefore(samples, i);
  }

  lemma StepExplains(w: Wheel, samples: seq<Sample>)
    requires samples != [] && Explains(w, samples[..|samples| - 1])
    ensures Explains(WheelStep(w, samples[|samples| - 1]), samples)
  {
    hide Streak, HasRun, EverSaturated, Stuck, Weak, Saturated;
    var n := |samples| - 1;
    var before, last := samples[..n], samples[n];
    FlagsGrow(samples);
    StreakGrows(StuckFlags(before), Stuck(w.lastSpeed, last));
    StreakGrows(WeakFlags(before), Weak(w.lastSpeed, last));
    HasRunGrows(StuckFlags(before), Stuck(w.lastSpeed, last), STUCK_SAMPLES);
    HasRunGrows(WeakFlags(before), Weak(w.lastSpeed, last), DEGRADED_SAMPLES);
  }

  lemma {:induction false} HistoryExplainsWheel(samples: seq<Sample>)
    ensures Explains(WheelRun(samples), samples)
    decreases |samples|
  {
    if samples == [] {
      assert StuckFlags(samples) == [] == WeakFlags(samples);
    } else {
      HistoryExplainsWheel(samples[..|samples| - 1]);
      StepExplains(WheelRun(samples[..|samples| - 1]), samples);
    }
  }

  // ---------- All wheels ----------

  /** One call of the update: a speed and a previously commanded torque for each wheel. */
  datatype Call = Call(speeds: seq<real>, torques: seq<real>, dt: real)

  /** A torque for every wheel below the speed limit: the others are judged by their speed alone. */
  predicate Complete(c: Call) {
    forall i :: 0 <= i < |c.speeds| && Abs(c.speeds[i]) < MAX_SPEED ==> i < |c.torques|
  }

  type Calls = s: seq<Call> | forall i :: 0 <= i < |s| ==> Complete(s[i])

  function Fresh(n: nat): (wheels: seq<Wheel>)
    ensures |wheels| == n
  {
    seq(n, i => FRESH)
  }

  /** More speeds than known wheels extend the fleet with healthy ones. */
  function Resized(wheels: seq<Wheel>, n: nat): (r: seq<Wheel>)
    ensures |r| == (if |wheels| < n then n else |wheels|)
  {
    if |wheels| < n then wheels + Fresh(n - |wheels|) else wheels
  }

  function SampleOf(c: Call, i: nat): Sample
    requires Complete(c) && i < |c.speeds|
  {
    Sample(c.speeds[i], if Abs(c.speeds[i]) < MAX_SPEED then c.torques[i] else 0.0, c.dt)
  }

  function AfterCall(wheels: seq<Wheel>, c: Call): (r: seq<Wheel>)
    requires Complete(c)
    ensures |r| == |Resized(wheels, |c.speeds|)|
  {
    var known := Resized(wheels, |c.speeds|);
    seq(|known|, i requires 0 <= i < |known| =>
          if i < |c.speeds| then WheelStep(known[i], SampleOf(c, i)) else known[i])
  }

  function FleetRun(calls: Calls): (wheels: seq<Wheel>)
    ensures |wheels| >= 4
    decreases |calls|
  {
    if calls == [] then Fresh(4) else AfterCall(FleetRun(calls[..|calls| - 1]), calls[|calls| - 1])
  }

  /** The samples that wheel i took part in. */
  function SamplesOf(calls: Calls, i: nat): seq<Sample>
    decreases |calls|
  {
    if calls == [] then []
    else
      var c := calls[|calls| - 1];
      SamplesOf(calls[..|calls| - 1], i) + if i < |c.speeds| then [SampleOf(c, i)] else []
  }

  function StatusOf(wheels: seq<Wheel>, i: nat): HealthStatus {
    if i < |wheels| then wheels[i].status else FAILED
  }

  lemma {:induction false} FleetTracksEachWheel(calls: Calls, i: nat)
    ensures i < |FleetRun(calls)| ==> FleetRun(calls)[i] == WheelRun(SamplesOf(calls, i))
    ensures i >= |FleetRun(calls)| ==> SamplesOf(calls, i) == []
    decreases |calls|
  {
    if calls != [] {
      var before, c := calls[..|calls| - 1], calls[|calls| - 1];
      FleetTracksEachWheel(before, i);
      var samples := SamplesOf(before, i);
      if i < |c.speeds| {
        var s := SampleOf(c, i);
        assert (samples + [s])[..|samples|] == samples;
        assert WheelRun(samples + [s]) == WheelStep(WheelRun(samples), s);
      } else {
        assert samples + [] == samples;
      }
    }
  }

  /** When every call reports wheel i, its samples are what the calls say of it, one for one. */
  lemma {:induction false} SamplesAreReported(calls: Calls, i: nat)
    requires forall k :: 0 <= k < |calls| ==> i < |calls[k].speeds|
    ensures |SamplesOf(calls, i)| == |calls|
    ensures forall k :: 0 <= k < |calls| ==>
              && SamplesOf(calls, i)[k].speed == calls[k].speeds[i]
              && SamplesOf(calls, i)[k].dt == calls[k].dt
              && (Abs(calls[k].speeds[i]) < 95.0 ==>
                    i < |calls[k].torques| && SamplesOf(calls, i)[k].torque == calls[k].torques[i])
    decreases |calls|
  {
    if calls != [] {
      var before: Calls := calls[..|calls| - 1];
      SamplesAreReported(before, i);
      assert forall k :: 0 <= k < |before| ==> before[k] == calls[k];
    }
  }

  /** After any history of calls a known wheel is FAILED exactly when one of its samples reached the
      speed limit or ten in a row met the stuck test. */
  lemma FailedExactlyWhen(calls: Calls, i: nat)
    requires i < |FleetRun(calls)|
    ensures StatusOf(FleetRun(calls), i) == FAILED <==>
              || EverSaturated(SamplesOf(calls, i))
              || HasRun(StuckFlags(SamplesOf(calls, i)), STUCK_SAMPLES)
    ensures StatusOf(FleetRun(calls), i) == HEALTHY <==>
              && !EverSaturated(SamplesOf(calls, i))
              && !HasRun(StuckFlags(SamplesOf(calls, i)), STUCK_SAMPLES)
              && !HasRun(WeakFlags(SamplesOf(calls, i)), DEGRADED_SAMPLES)
  {
    FleetTracksEachWheel(calls, i);
    HistoryExplainsWheel(SamplesOf(calls, i));
  }

  // ---------- What the tests detect ----------

  // The physics of a wheel, in numbers: friction takes 0.0001 of the speed from the commanded torque, and what
  // is left accelerates an inertia of 0.001.

  /** The torque left is enough to judge the wheel by. */
  predicate Judged(s: Sample) {
    s.dt != 0.0 && Abs(s.torque - 0.0001 * s.speed) > 0.002
  }

  /** The wheel answers with k times the acceleration that the torque left should give. */
  predicate Answers(last: real, s: Sample, k: real) {
    s.speed - last == k * ((s.torque - 0.0001 * s.speed) / 0.001) * s.dt
  }

  /** Every judged sample has one such k. */
  lemma AnswerExists(last: real, s: Sample) returns (k: real)
    requires Judged(s)
    ensures Answers(last, s, k)
  {
    var e := (s.torque - 0.0001 * s.speed) / 0.001;
    k := Ratio(s.speed - last, e, s.dt);
  }

  lemma Ratio(d: real, e: real, t: real) returns (k: real)
    requires e != 0.0 && t != 0.0
    ensures d == k * e * t
  {
    var a := d / t;
    k := a / e;
    assert k * e == a && a * t == d;
  }

  lemma ComparedByRatio(k: real, e: real, c: real)
    requires e != 0.0
    ensures Abs(k * e) < c * Abs(e) <==> Abs(k) < c
    ensures Abs(k * e) > c * Abs(e) <==> Abs(k) > c
  {
    assert Abs(k * e) == Abs(k) * Abs(e) by { AbsOfProduct(k, e); }
    ProductOrder(Abs(k), c, Abs(e));
  }

  lemma AbsOfProduct(a: real, b: real)
    ensures Abs(a * b) == Abs(a) * Abs(b)
  {
    ProductSign(Abs(a), Abs(b), Abs(a) * Abs(b));
    assert a * b == Abs(a) * Abs(b) || a * b == -(Abs(a) * Abs(b));
  }

  lemma ProductOrder(a: real, b: real, e: real)
    requires e > 0.0
    ensures a * e < b * e <==> a < b
    ensures a * e > b * e <==> a > b
  {
    ProductSign(b - a, e, (b - a) * e);
    ProductSign(a - b, e, (a - b) * e);
  }

  lemma AccelerationOf(d: real, k: real, e: real, t: real)
    requires t != 0.0 && d == k * e * t
    ensures d / t == k * e
  {
  }

  /** The stuck test detects an answer below a twentieth, the other one an answer between that and a half. */
  lemma TestsMeasureAnswer(last: real, s: Sample, k: real)
    requires Judged(s) ==> Answers(last, s, k)
    ensures Stuck(last, s) <==> Judged(s) && Abs(k) < 0.05
    ensures Weak(last, s) <==> Judged(s) && 0.05 < Abs(k) < 0.5
  {
    if Judged(s) {
      var e := ExpectedAccel(s);
      AccelerationOf(s.speed - last, k, e, s.dt);
      ComparedByRatio(k, e, 0.05);
      ComparedByRatio(k, e, 0.5);
    }
  }

  /** A judged sample without an answer to speak of. */
  function Ignored(samples: seq<Sample>, answers: seq<real>): (flags: seq<bool>)
    requires |answers| == |samples|
    ensures |flags| == |samples|
  {
    seq(|samples|, i requires 0 <= i < |samples| => Judged(samples[i]) && Abs(answers[i]) < 0.05)
  }

  /** A judged sample with a faint answer. */
  function Faint(samples: seq<Sample>, answers: seq<real>): (flags: seq<bool>)
    requires |answers| == |samples|
    ensures |flags| == |samples|
  {
    seq(|samples|, i requires 0 <= i < |samples| => Judged(samples[i]) && 0.05 < Abs(answers[i]) < 0.5)
  }

  /** The answers fit the samples, starting at rest. */
  predicate AnswersOf(samples: seq<Sample>, answers: seq<real>) {
    && |answers| == |samples|
    && forall i :: 0 <= i < |samples| && Judged(samples[i]) ==>
         Answers(SpeedBefore(samples, i), samples[i], answers[i])
  }

  /** Every history has such answers. */
  lemma {:induction false} AnswersExist(samples: seq<Sample>) returns (answers: seq<real>)
    ensures AnswersOf(samples, answers)
    decreases |samples|
  {
    hide Judged, Answers;
    answers := [];
    if samples != [] {
      var n := |samples| - 1;
      var before := AnswersExist(samples[..n]);
      var k := 0.0;
      if Judged(samples[n]) {
        k := AnswerExists(SpeedBefore(samples, n), samples[n]);
      }
      answers := before + [k];
      forall i | 0 <= i < |samples| && Judged(samples[i])
        ensures Answers(SpeedBefore(samples, i), samples[i], answers[i])
      {
        if i < n {
          assert samples[..n][i] == samples[i];
          assert SpeedBefore(samples[..n], i) == SpeedBefore(samples, i);
        }
      }
    }
  }

  lemma FlagsAreAnswers(samples: seq<Sample>, answers: seq<real>)
    requires AnswersOf(samples, answers)
    ensures StuckFlags(samples) == Ignored(samples, answers) && WeakFlags(samples) == Faint(samples, answers)
  {
    hide Stuck, Weak, Judged, Answers;
    forall i | 0 <= i < |samples|
      ensures StuckFlags(samples)[i] == Ignored(samples, answers)[i]
      ensures WeakFlags(samples)[i] == Faint(samples, answers)[i]
    {
      TestsMeasureAnswer(SpeedBefore(samples, i), samples[i], answers[i]);
    }
  }

  /** From the samples and the physics alone: a wheel has FAILED exactly when it has been seen at 95 rad/s or
      ten samples in a row went unanswered, and it is HEALTHY exactly when in addition no fifteen in a row
      were answered faintly.  Below that speed, a full answer or a torque too small to judge by clears both
      counters. */
  lemma PhysicsDecides(samples: seq<Sample>, answers: seq<real>)
    requires AnswersOf(samples, answers)
    ensures var w, fast := WheelRun(samples), exists i :: 0 <= i < |samples| && Abs(samples[i].speed) >= 95.0;
            && (w.status == FAILED <==> fast || HasRun(Ignored(samples, answers), 10))
            && (w.status == HEALTHY <==>
                  !fast && !HasRun(Ignored(samples, answers), 10) && !HasRun(Faint(samples, answers), 15))
            && (!fast && samples != []
                && (Judged(samples[|samples| - 1]) ==> Abs(answers[|samples| - 1]) >= 0.5) ==>
                  w.stuckCount == 0 && w.degradedCount == 0)
  {
    hide StuckFlags, WeakFlags, AnswersOf, Judged, HasRun;
    HistoryExplainsWheel(samples);
    FlagsAreAnswers(samples, answers);
    assert EverSaturated(samples) <==> exists i :: 0 <= i < |samples| && Abs(samples[i].speed) >= 95.0;
  }

  /** A wheel that is never seen at 95 rad/s, and answers with at least half of what the physics asks for
      whenever it can be judged, is HEALTHY after any history of calls. */
  lemma GoodWheelStaysHealthy(calls: Calls, i: nat, answers: seq<real>)
    requires i < |FleetRun(calls)| && AnswersOf(SamplesOf(calls, i), answers)
    requires var samples := SamplesOf(calls, i);
             forall j :: 0 <= j < |samples| ==>
               Abs(samples[j].speed) < 95.0 && (Judged(samples[j]) ==> Abs(answers[j]) >= 0.5)
    ensures StatusOf(FleetRun(calls), i) == HEALTHY
  {
    hide Judged;
    var samples := SamplesOf(calls, i);
    FleetTracksEachWheel(calls, i);
    PhysicsDecides(samples, answers);
    NoRunOfUnset(Ignored(samples, answers), 10);
    NoRunOfUnset(Faint(samples, answers), 15);
  }

  // ---------- Counting failures ----------

  function FailedCount(wheels: seq<Wheel>): nat
    decreases |wheels|
  {
    if wheels == [] then 0
    else FailedCount(wheels[..|wheels| - 1]) + if wheels[|wheels| - 1].status == FAILED then 1 else 0
  }

  /** Every wheel of a is still in b, in no better health. */
  ghost predicate NoBetter(a: seq<Wheel>, b: seq<Wheel>) {
    |a| <= |b| && forall i :: 0 <= i < |a| ==> Severity(a[i].status) <= Severity(b[i].status)
  }

  lemma {:induction false} FailedCountGrows(a: seq<Wheel>, b: seq<Wheel>)
    requires NoBetter(a, b)
    ensures FailedCount(a) <= FailedCount(b)
    decreases |b|
  {
    if b != [] {
      var n := |b| - 1;
      if |a| <= n {
        FailedCountGrows(a, b[..n]);
      } else {
        assert Severity(a[n].status) <= Severity(b[n].status);
        FailedCountGrows(a[..n], b[..n]);
      }
    }
  }

  /** Wheel health is latched: no call improves any wheel, and the failed count never drops. */
  lemma CallNeverHeals(wheels: seq<Wheel>, c: Call)
    requires Complete(c)
    ensures NoBetter(wheels, AfterCall(wheels, c))
    ensures FailedCount(wheels) <= FailedCount(AfterCall(wheels, c))
  {
    FailedCountGrows(wheels, AfterCall(wheels, c));
  }

  lemma {:induction false} ResizedFailures(wheels: seq<Wheel>, n: nat)
    ensures FailedCount(Resized(wheels, n)) == FailedCount(wheels)
    decreases n
  {
    hide FailedCount;
    if |wheels| < n {
      ResizedFailures(wheels, n - 1);
      assert Resized(wheels, n) == Resized(wheels, n - 1) + [FRESH];
      FreshIsNotFailed(Resized(wheels, n - 1));
    }
  }

  lemma FreshIsNotFailed(wheels: seq<Wheel>)
    ensures FailedCount(wheels + [FRESH]) == FailedCount(wheels)
  {
  }

  // ---------- The response ----------

  /** The mode change that a change of the failed count asks for. */
  function Response(before: nat, after: nat, mode: ModeManager.State): ModeManager.State {
    if after == before then mode
    else if after == 1 then ModeManager.Transition(mode, ModeManager.DEGRADED)
    else if after >= 2 then ModeManager.Transition(mode, ModeManager.SAFE)
    else mode
  }

  /** From any mode, a call that raises the failed count leaves the mode at DEGRADED for the first
      failure and at SAFE for more; a call that does not leaves the mode alone. */
  lemma EachFailureForcesMode(wheels: seq<Wheel>, c: Call, mode: ModeManager.State)
    requires Complete(c)
    ensures var n, m := FailedCount(wheels), FailedCount(AfterCall(wheels, c));
            var after := Response(n, m, mode);
            && n <= m
            && (n < m ==> after.current == if m == 1 then ModeManager.DEGRADED else ModeManager.SAFE)
            && (n == m ==> after == mode)
  {
    CallNeverHeals(wheels, c);
  }

  /** The calls that raise the failed count, the only ones that touch the mode. */
  function Raises(calls: Calls): nat
    decreases |calls|
  {
    if calls == [] then 0
    else
      var before := calls[..|calls| - 1];
      Raises(before) + if FailedCount(FleetRun(calls)) > FailedCount(FleetRun(before)) then 1 else 0
  }

  /** Over a whole history the wheels force the mode at most once for each wheel that has failed. */
  lemma {:induction false} ForcesAtMostOncePerFailure(calls: Calls)
    ensures Raises(calls) <= FailedCount(FleetRun(calls)) <= |FleetRun(calls)|
    decreases |calls|
  {
    hide FailedCount, AfterCall;
    CountIsBounded(FleetRun(calls));
    if calls == [] {
      NothingFailed();
    } else {
      var before := calls[..|calls| - 1];
      ForcesAtMostOncePerFailure(before);
      CallNeverHeals(FleetRun(before), calls[|calls| - 1]);
    }
  }

  lemma NothingFailed()
    ensures FailedCount(Fresh(4)) == 0
  {
    var w := Fresh(4);
    assert w[..3][..2] == w[..2] && w[..2][..1] == w[..1] && w[..1][..0] == [];
    assert FailedCount(w[..1]) == 0 && FailedCount(w[..2]) == 0 && FailedCount(w[..3]) == 0;
  }

  lemma {:induction false} CountIsBounded(wheels: seq<Wheel>)
    ensures FailedCount(wheels) <= |wheels|
    decreases |wheels|
  {
    if wheels != [] {
      CountIsBounded(wheels[..|wheels| - 1]);
    }
  }
}
