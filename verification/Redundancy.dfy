/** The responses to sensor status changes: failover inside redundant pairs, filter reset and forced
    modes. */
module Redundancy {
  import opened HealthStatuses
  import M = ModeManager

  datatype Group = Group(primary: string, backup: string, active: string, backupAvailable: bool)

  /** The redundancy bookkeeping. */
  datatype Registry = Registry(groups: map<string, Group>, groupOf: map<string, string>) {

    /** Every sensor's group is on record. */
    ghost predicate Valid() {
      forall s :: s in groupOf ==> groupOf[s] in groups
    }

    function Active(group: string): string {
      if group in groups then groups[group].active else ""
    }
  }

  const EMPTY := Registry(map[], map[])

  const CRITICAL := {"gyro", "gyro_primary", "gyro_backup"}

  /** What the responses may act on: whether each automatic action is enabled with a target attached. */
  datatype Powers = Powers(mode: bool, filter: bool)

  function Register(r: Registry, group: string, primary: string, backup: string): Registry {
    Registry(r.groups[group := Group(primary, backup, primary, true)],
             r.groupOf[primary := group][backup := group])
  }

  /** A failure of this sensor can be answered by switching to its backup. */
  predicate CanFailOver(r: Registry, sensor: string)
    requires r.Valid()
  {
    && sensor in r.groupOf
    && var g := r.groups[r.groupOf[sensor]];
       sensor == g.primary && g.active == g.primary && g.backupAvailable
  }

  function AfterStatus(r: Registry, sensor: string, status: HealthStatus): (after: Registry)
    requires r.Valid()
    ensures after.Valid()
  {
    if status != FAILED || sensor !in r.groupOf then r
    else
      var name := r.groupOf[sensor];
      var g := r.groups[name];
      if CanFailOver(r, sensor) then r.(groups := r.groups[name := g.(active := g.backup, backupAvailable := false)])
      else if sensor == g.backup then r.(groups := r.groups[name := g.(backupAvailable := false)])
      else r
  }

  predicate ResetsFilter(r: Registry, sensor: string, status: HealthStatus, p: Powers)
    requires r.Valid()
  {
    status == FAILED && !CanFailOver(r, sensor) && sensor in CRITICAL && p.filter
  }

  function ModeAfter(r: Registry, sensor: string, status: HealthStatus, p: Powers, mode: M.State): M.State
    requires r.Valid()
  {
    if !p.mode then mode
    else
      match status
      case HEALTHY => mode
      case DEGRADED => if mode.current == M.NOMINAL then M.Transition(mode, M.DEGRADED) else mode
      case FAILED =>
        if CanFailOver(r, sensor) then M.Transition(mode, M.DEGRADED)
        else if sensor in CRITICAL then M.Transition(mode, M.SAFE)
        else mode
  }

  // ---------- Histories of one pair ----------

  datatype Event =
    | Status(sensor: string, status: HealthStatus)
    | Pair(group: string, primary: string, backup: string)

  function Step(r: Registry, e: Event): (after: Registry)
    requires r.Valid()
    ensures after.Valid()
  {
    match e
    case Status(sensor, status) => AfterStatus(r, sensor, status)
    case Pair(group, primary, backup) => Register(r, group, primary, backup)
  }

  function Run(r: Registry, events: seq<Event>): (after: Registry)
    requires r.Valid()
    ensures after.Valid()
    decreases |events|
  {
    if events == [] then r else Step(Run(r, events[..|events| - 1]), events[|events| - 1])
  }

  /** Later registrations concern other groups and other sensors. */
  ghost predicate Spares(events: seq<Event>, g: Group, name: string) {
    forall i :: 0 <= i < |events| && events[i].Pair? ==>
      && events[i].group != name
      && events[i].primary !in {g.primary, g.backup}
      && events[i].backup !in {g.primary, g.backup}
  }

  /** The sensor has entered FAILED at least once. */
  predicate EverFailed(events: seq<Event>, sensor: string) {
    exists i :: 0 <= i < |events| && events[i] == Status(sensor, FAILED)
  }

  /** Sensor a has entered FAILED at a time when b never had. */
  predicate FailedFirst(events: seq<Event>, a: string, b: string) {
    exists i :: 0 <= i < |events| && events[i] == Status(a, FAILED) && !EverFailed(events[..i], b)
  }

  lemma EverFailedGrows(events: seq<Event>, e: Event, sensor: string)
    ensures EverFailed(events + [e], sensor) <==> EverFailed(events, sensor) || e == Status(sensor, FAILED)
  {
    var longer := events + [e];
    assert forall i :: 0 <= i < |events| ==> longer[i] == events[i];
    assert longer[|events|] == e;
  }

  lemma FailedFirstGrows(events: seq<Event>, e: Event, a: string, b: string)
    ensures FailedFirst(events + [e], a, b) <==>
              FailedFirst(events, a, b) || (e == Status(a, FAILED) && !EverFailed(events, b))
  {
    hide EverFailed;
    var longer := events + [e];
    assert forall i :: 0 <= i <= |events| ==> longer[..i] == events[..i];
    assert events[..|events|] == events;
    if FailedFirst(events, a, b) {
      var i :| 0 <= i < |events| && events[i] == Status(a, FAILED) && !EverFailed(events[..i], b);
      assert longer[i] == events[i];
    }
    if e == Status(a, FAILED) && !EverFailed(events, b) {
      assert longer[|events|] == e;
    }
  }

  /** The record of a pair, read off the history since it was registered. */
  ghost predicate Explains(r: Registry, events: seq<Event>, g: Group, name: string) {
    && r.Valid()
    && g.primary in r.groupOf && r.groupOf[g.primary] == name
    && g.backup in r.groupOf && r.groupOf[g.backup] == name
    && name in r.groups
    && r.groups[name].primary == g.primary && r.groups[name].backup == g.backup
    && (r.groups[name].backupAvailable <==> !EverFailed(events, g.primary) && !EverFailed(events, g.backup))
    && r.Active(name) == if FailedFirst(events, g.primary, g.backup) then g.backup else g.primary
  }

  lemma StepExplains(r: Registry, events: seq<Event>, e: Event, g: Group, name: string)
    requires g.primary != g.backup && Explains(r, events, g, name) && Spares([e], g, name)
    ensures Explains(Step(r, e), events + [e], g, name)
  {
    hide EverFailed, FailedFirst;
    assert e == [e][0];
    EverFailedGrows(events, e, g.primary);
    EverFailedGrows(events, e, g.backup);
    FailedFirstGrows(events, e, g.primary, g.backup);
    FirstHasFailed(events, g.primary, g.backup);
  }

  lemma FirstHasFailed(events: seq<Event>, a: string, b: string)
    ensures FailedFirst(events, a, b) ==> EverFailed(events, a)
    ensures EverFailed(events, a) && !EverFailed(events, b) ==> FailedFirst(events, a, b)
  {
  }

  /** For a pair of distinct sensors registered once, over any later status changes and any
      registrations of other pairs: the backup is available exactly while neither sensor has entered
      FAILED, and the active sensor is the backup exactly when the first to do so was the primary. */
  lemma {:induction false} HistoryExplainsPair(r: Registry, events: seq<Event>, g: Group, name: string)
    requires r.Valid() && g.primary != g.backup && Spares(events, g, name)
    ensures Explains(Run(Register(r, name, g.primary, g.backup), events), events, g, name)
    decreases |events|
  {
    var start := Register(r, name, g.primary, g.backup);
    if events != [] {
      var before, e := events[..|events| - 1], events[|events| - 1];
      HistoryExplainsPair(r, before, g, name);
      assert before + [e] == events;
      StepExplains(Run(start, before), before, e, g, name);
    }
  }

  /** The next failure of a sensor of the pair finds the backup in place exactly when it is the primary's
      and the first of the pair. */
  lemma FailoverDecision(r: Registry, events: seq<Event>, g: Group, name: string, sensor: string)
    requires g.primary != g.backup && Explains(r, events, g, name) && sensor in {g.primary, g.backup}
    ensures r.Valid()
    ensures CanFailOver(r, sensor) <==>
              sensor == g.primary && !EverFailed(events, g.primary) && !EverFailed(events, g.backup)
    ensures AfterStatus(r, sensor, FAILED).Active(name) == if CanFailOver(r, sensor) then g.backup else r.Active(name)
  {
    hide EverFailed, FailedFirst;
    FirstHasFailed(events, g.primary, g.backup);
  }

  /** A critical sensor, of the pair or of none, enters FAILED after such a history, with both
      automatic actions in force.  Only the primary, and only as the first failure of the pair, is
      absorbed by a failover to DEGRADED mode; every other failure resets the filter and forces SAFE,
      from any mode. */
  lemma CriticalFailureResponse(r: Registry, events: seq<Event>, g: Group, name: string, sensor: string, mode: M.State)
    requires r.Valid() && g.primary != g.backup && Spares(events, g, name)
    requires sensor in CRITICAL
    requires sensor in {g.primary, g.backup} || sensor !in Run(Register(r, name, g.primary, g.backup), events).groupOf
    ensures var now := Run(Register(r, name, g.primary, g.backup), events);
            var absorbed := sensor == g.primary && !EverFailed(events, g.primary) && !EverFailed(events, g.backup);
            && (ResetsFilter(now, sensor, FAILED, Powers(true, true)) <==> !absorbed)
            && ModeAfter(now, sensor, FAILED, Powers(true, true),
                         mode).current == if absorbed then M.DEGRADED else M.SAFE
  {
    hide EverFailed, FailedFirst, Run;
    HistoryExplainsPair(r, events, g, name);
    FirstHasFailed(events, g.primary, g.backup);
  }
}
