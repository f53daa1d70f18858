/** Periodic tasks in priority order, executed by a cyclic scheduler on its own clock.  Callbacks are
    opaque: the model knows in which order they are called and which of them throw. */
module TaskScheduler {
  import opened Bits
  import opened Reals

  const EPSILON := 0.000001

  datatype Task = Task(name: string, period: real, last: real, priority: int)

  /** A task as its constructor leaves it: due at once at time zero. */
  predicate IsFresh(t: Task) {
    t.last == -t.period
  }

  predicate Due(t: Task, now: real) {
    now - t.last >= t.period - EPSILON
  }

  /** A task whose callback throws keeps its last execution time. */
  function AfterTick(t: Task, now: real, throws: bool): Task {
    if Due(t, now) && !throws then t.(last := now) else t
  }

  /** One cycle over all tasks.  Names need not be distinct: the positions of the throwing tasks are given. */
  function AfterTickAll(tasks: seq<Task>, now: real, throwing: set<nat>): (r: seq<Task>)
    ensures |r| == |tasks|
  {
    seq(|tasks|, i requires 0 <= i < |tasks| => AfterTick(tasks[i], now, i in throwing))
  }

  /** The tasks called in one cycle, in order. */
  function Called(tasks: seq<Task>, now: real): seq<Task>
    decreases |tasks|
  {
    if tasks == [] then []
    else
      var last := tasks[|tasks| - 1];
      Called(tasks[..|tasks| - 1], now) + if Due(last, now) then [last] else []
  }

  // ---------- Priority order ----------

  ghost predicate ByPriority(tasks: seq<Task>) {
    forall i, j :: 0 <= i < j < |tasks| ==> tasks[i].priority >= tasks[j].priority
  }

  lemma {:induction false} CalledFromTasks(tasks: seq<Task>, now: real)
    ensures forall k :: 0 <= k < |Called(tasks, now)| ==> Called(tasks, now)[k] in tasks
    decreases |tasks|
  {
    if tasks != [] {
      CalledFromTasks(tasks[..|tasks| - 1], now);
    }
  }

  lemma {:induction false} CalledInOrder(tasks: seq<Task>, now: real)
    requires ByPriority(tasks)
    ensures ByPriority(Called(tasks, now))
    decreases |tasks|
  {
    hide Due;
    if tasks != [] {
      var before, last := tasks[..|tasks| - 1], tasks[|tasks| - 1];
      CalledInOrder(before, now);
      CalledFromTasks(before, now);
      forall k | 0 <= k < |Called(before, now)| ensures Called(before, now)[k].priority >= last.priority {
        assert Called(before, now)[k] in before;
      }
    }
  }

  lemma {:induction false} CalledOnce(tasks: seq<Task>, now: real, t: Task)
    ensures multiset(Called(tasks, now))[t] == if Due(t, now) then multiset(tasks)[t] else 0
    decreases |tasks|
  {
    hide Due;
    if tasks != [] {
      var before, last := tasks[..|tasks| - 1], tasks[|tasks| - 1];
      CalledOnce(before, now, t);
      assert tasks == before + [last];
    }
  }

  /** Each cycle calls every due task exactly once, no other, and in non-increasing priority. */
  lemma CallsDueTasksInOrder(tasks: seq<Task>, now: real)
    requires ByPriority(tasks)
    ensures ByPriority(Called(tasks, now))
    ensures forall t :: multiset(Called(tasks, now))[t] == if Due(t, now) then multiset(tasks)[t] else 0
  {
    hide Due, ByPriority;
    CalledInOrder(tasks, now);
    forall t ensures multiset(Called(tasks, now))[t] == if Due(t, now) then multiset(tasks)[t] else 0 {
      CalledOnce(tasks, now, t);
    }
  }

  // ---------- One task on a constant clock ----------

  /** The task after n ticks of a clock that starts at zero. */
  function TaskAfter(t: Task, dt: real, n: nat, throws: nat -> bool): Task {
    if n == 0 then t else AfterTick(TaskAfter(t, dt, n - 1, throws), Multiple(n - 1, dt), throws(n - 1))
  }

  predicate RunsAt(t: Task, dt: real, i: nat, throws: nat -> bool) {
    Due(TaskAfter(t, dt, i, throws), Multiple(i, dt))
  }

  ghost predicate NeverThrows(throws: nat -> bool) {
    forall i: nat :: !throws(i)
  }

  lemma {:induction false} MultiplesGrow(a: nat, b: nat, dt: real)
    requires dt > 0.0
    ensures a <= b ==> Multiple(a, dt) <= Multiple(b, dt)
    ensures a < b ==> Multiple(a, dt) < Multiple(b, dt)
  {
  }

  /** n is the first tick, not before the given one, at which the clock has reached the given time. */
  predicate FirstTick(n: nat, from: nat, time: real, dt: real) {
    n >= from && Multiple(n, dt) >= time && (n == from || Multiple(n - 1, dt) < time)
  }

  lemma ReachedFrom(n: nat, from: nat, time: real, dt: real, i: nat)
    requires dt > 0.0 && FirstTick(n, from, time, dt) && i >= from
    ensures Multiple(i, dt) >= time <==> i >= n
  {
    hide Multiple;
    if i >= n {
      MultiplesGrow(n, i, dt);
    } else {
      MultiplesGrow(i, n - 1, dt);
    }
  }

  /** m is the period in ticks: the least positive number of ticks that the due test accepts. */
  predicate PeriodInTicks(period: real, dt: real, m: nat) {
    FirstTick(m, 1, period - 0.000001, dt)
  }

  /** f is the first tick at which the task is due, if it is not called before. */
  predicate FirstDue(t: Task, dt: real, f: nat) {
    FirstTick(f, 0, t.last + t.period - 0.000001, dt)
  }

  /** The tick of the last execution before tick n, when executions are m apart. */
  function LastRun(n: nat, m: nat): (r: nat)
    requires n > 0 && m > 0
    ensures r < n
  {
    (n - 1) - (n - 1) % m
  }

  lemma NextRun(n: nat, m: nat)
    requires n > 0 && m > 0
    ensures n - LastRun(n, m) >= m <==> n % m == 0
    ensures LastRun(n + 1, m) == if n % m == 0 then n else LastRun(n, m)
    ensures LastRun(1, m) == 0
  {
    var q, r := (n - 1) / m, (n - 1) % m;
    assert n - 1 == q * m + r;
    if r == m - 1 {
      NextMultiple(q, m);
      RemainderUnique(n, m, q + 1, 0);
    } else {
      RemainderUnique(n, m, q, r + 1);
    }
  }

  lemma {:induction false} BeforeFirstDue(t: Task, dt: real, f: nat, i: nat, throws: nat -> bool)
    requires dt > 0.0 && FirstDue(t, dt, f) && i <= f
    ensures TaskAfter(t, dt, i, throws) == t
    ensures RunsAt(t, dt, i, throws) <==> i == f
  {
    hide Multiple, FirstTick;
    if i > 0 {
      BeforeFirstDue(t, dt, f, i - 1, throws);
    }
    ReachedFrom(f, 0, t.last + t.period - EPSILON, dt, i);
  }

  lemma {:induction false} LastExecution(t: Task, dt: real, f: nat, m: nat, n: nat, throws: nat -> bool)
    requires NeverThrows(throws)
    requires dt > 0.0 && FirstDue(t, dt, f) && PeriodInTicks(t.period, dt, m) && n > 0
    ensures TaskAfter(t, dt, f + n, throws) == t.(last := Multiple(f + LastRun(n, m), dt))
  {
    hide Multiple, FirstTick, FirstDue, RunsAt, LastRun;
    assert m > 0 by { PositiveTicks(t.period, dt, m); }
    NextRun(n, m);
    if n == 1 {
      BeforeFirstDue(t, dt, f, f, throws);
      DueNow(t, dt, f, throws);
    } else {
      LastExecution(t, dt, f, m, n - 1, throws);
      NextRun(n - 1, m);
      DueAgain(t, dt, m, f + LastRun(n - 1, m), f + n - 1);
    }
  }

  lemma DueNow(t: Task, dt: real, f: nat, throws: nat -> bool)
    requires TaskAfter(t, dt, f, throws) == t && RunsAt(t, dt, f, throws) && !throws(f)
    ensures TaskAfter(t, dt, f + 1, throws) == t.(last := Multiple(f, dt))
  {
  }

  /** A task called at tick a is due at the later ticks from a + m on. */
  lemma DueAgain(t: Task, dt: real, m: nat, a: nat, b: nat)
    requires dt > 0.0 && PeriodInTicks(t.period, dt, m) && a < b
    ensures Due(t.(last := Multiple(a, dt)), Multiple(b, dt)) <==> b - a >= m
  {
    hide Multiple, FirstTick;
    MultiplesDiffer(a, b, dt);
    ReachedFrom(m, 1, t.period - EPSILON, dt, b - a);
  }

  lemma PositiveTicks(period: real, dt: real, m: nat)
    requires PeriodInTicks(period, dt, m)
    ensures m > 0
  {
  }

  /** The law of every task that never throws, whenever it ran last: it waits for its first due tick, and
      then runs at exactly the multiples of its period in ticks from there. */
  lemma DueLaw(t: Task, dt: real, f: nat, m: nat, i: nat, throws: nat -> bool)
    requires NeverThrows(throws)
    requires dt > 0.0 && FirstDue(t, dt, f) && PeriodInTicks(t.period, dt, m)
    ensures RunsAt(t, dt, i, throws) <==> i >= f && (i - f) % m == 0
  {
    hide Multiple, LastRun, NeverThrows, FirstTick, FirstDue;
    assert m > 0 by { PositiveTicks(t.period, dt, m); }
    if i <= f {
      BeforeFirstDue(t, dt, f, i, throws);
    } else {
      var n := i - f;
      LastExecution(t, dt, f, m, n, throws);
      NextRun(n, m);
      DueAgain(t, dt, m, f + LastRun(n, m), i);
    }
  }

  /** A fresh task that never throws runs at exactly the multiples of its period in ticks. */
  lemma RateLaw(t: Task, dt: real, m: nat, i: nat, throws: nat -> bool)
    requires IsFresh(t) && NeverThrows(throws)
    requires dt > 0.0 && PeriodInTicks(t.period, dt, m)
    ensures RunsAt(t, dt, i, throws) <==> i % m == 0
  {
    MultipleStep(0, dt);
    DueLaw(t, dt, 0, m, i, throws);
  }

  /** A second run restarts the clock but not the tasks.  A task that ran last at tick k of the first run
      misses the first k + m ticks of the second, and keeps its rate from there. */
  lemma SecondRunIsLate(t: Task, dt: real, m: nat, n: nat, i: nat, throws: nat -> bool, again: nat -> bool)
    requires IsFresh(t) && NeverThrows(throws) && NeverThrows(again) && t.period > EPSILON
    requires dt > 0.0 && PeriodInTicks(t.period, dt, m) && n > 0
    ensures m > 0
    ensures var k := LastRun(n, m);
            && RunsAt(t, dt, k, throws)
            && (forall j :: k < j < n ==> !RunsAt(t, dt, j, throws))
            && (RunsAt(TaskAfter(t, dt, n, throws), dt, i, again) <==> i >= k + m && (i - (k + m)) % m == 0)
  {
    hide NeverThrows, RunsAt;
    assert m > 0 by { PositiveTicks(t.period, dt, m); }
    var k := LastRun(n, m);
    LastRunIsMultiple(n, m);
    RateLaw(t, dt, m, k, throws);
    forall j | k < j < n ensures !RunsAt(t, dt, j, throws) {
      RateLaw(t, dt, m, j, throws);
    }
    assert FirstDue(t, dt, 0) by { MultipleStep(0, dt); }
    LastExecution(t, dt, 0, m, n, throws);
    var late := t.(last := Multiple(k, dt));
    assert FirstDue(late, dt, k + m) by { LateFirstDue(t, dt, m, k); }
    DueLaw(late, dt, k + m, m, i, again);
  }

  lemma LastRunIsMultiple(n: nat, m: nat)
    requires n > 0 && m > 0
    ensures LastRun(n, m) % m == 0
    ensures forall j :: LastRun(n, m) < j < n ==> j % m != 0
  {
    var q, r := (n - 1) / m, (n - 1) % m;
    assert n - 1 == q * m + r;
    RemainderUnique(q * m, m, q, 0);
    forall j | q * m < j < n ensures j % m != 0 {
      RemainderUnique(j, m, q, j - q * m);
    }
  }

  lemma LateFirstDue(t: Task, dt: real, m: nat, k: nat)
    requires dt > 0.0 && PeriodInTicks(t.period, dt, m) && t.period > EPSILON
    ensures FirstDue(t.(last := Multiple(k, dt)), dt, k + m)
  {
    hide Multiple;
    MultiplesDiffer(k, k + m, dt);
    MultiplesDiffer(k, k + m - 1, dt);
    MultipleStep(0, dt);
  }

  /** Every period has a length in ticks, so every task has a rate law. */
  lemma PeriodHasTicks(period: real, dt: real) returns (m: nat)
    requires dt > 0.0
    ensures PeriodInTicks(period, dt, m)
  {
    m := CyclesFor(period - EPSILON, dt);
    CyclesForIsLeast(period - EPSILON, dt);
  }

  /** Every task becomes due at some tick. */
  lemma EveryTaskBecomesDue(t: Task, dt: real) returns (f: nat)
    requires dt > 0.0
    ensures FirstDue(t, dt, f)
  {
    var time := t.last + t.period - EPSILON;
    MultipleStep(0, dt);
    if time <= 0.0 {
      f := 0;
    } else {
      f := CyclesFor(time, dt);
      CyclesForIsLeast(time, dt);
    }
  }

  /** A task whose period is k base steps runs at exactly the ticks 0, k, 2k, ... if and only if k is
      one or the step exceeds the tolerance of the due test. */
  lemma ExactRate(t: Task, dt: real, k: nat, throws: nat -> bool)
    requires IsFresh(t) && NeverThrows(throws)
    requires dt > 0.0 && k >= 1 && t.period == Multiple(k, dt)
    ensures (forall i: nat :: RunsAt(t, dt, i, throws) <==> i % k == 0) <==> k == 1 || dt > 0.000001
  {
    hide RunsAt, NeverThrows, Multiple;
    MultipleStep(k - 1, dt);
    if k == 1 || dt > EPSILON {
      assert PeriodInTicks(t.period, dt, k);
      forall i: nat ensures RunsAt(t, dt, i, throws) <==> i % k == 0 {
        RateLaw(t, dt, k, i, throws);
      }
    } else {
      var m := PeriodHasTicks(t.period, dt);
      assert Multiple(k - 1, dt) >= t.period - EPSILON;
      ReachedFrom(m, 1, t.period - EPSILON, dt, k - 1);
      RateLaw(t, dt, m, m, throws);
      assert RunsAt(t, dt, m, throws) && m % k == m;
    }
  }

  /** How often the task runs in the first n ticks. */
  function Runs(t: Task, dt: real, n: nat, throws: nat -> bool): nat {
    if n == 0 then 0 else Runs(t, dt, n - 1, throws) + if RunsAt(t, dt, n - 1, throws) then 1 else 0
  }

  /** The number of multiples of m below n. */
  lemma CeilStep(n: nat, m: nat)
    requires m > 0
    ensures (n + 1 + (m - 1)) / m == (n + (m - 1)) / m + if n % m == 0 then 1 else 0
  {
    var q, r := n / m, n % m;
    assert n == q * m + r;
    NextMultiple(q, m);
    QuotientUnique(n + (m - 1), m, if r == 0 then q else q + 1, if r == 0 then m - 1 else r - 1);
    QuotientUnique(n + m, m, q + 1, r);
  }

  lemma QuotientUnique(x: nat, m: nat, q: nat, r: nat)
    requires m > 0 && x == q * m + r && r < m
    ensures x / m == q
  {
    RemainderUnique(x, m, q, r);
    var q' := x / m;
    assert x == q' * m + r;
    if q' < q {
      MulStep(q', q, m);
    } else if q < q' {
      MulStep(q, q', m);
    }
  }

  /** In n ticks a task of m ticks' period runs ceil(n / m) times. */
  lemma {:induction false} RunCount(t: Task, dt: real, m: nat, n: nat, throws: nat -> bool)
    requires IsFresh(t) && NeverThrows(throws)
    requires dt > 0.0 && PeriodInTicks(t.period, dt, m)
    ensures Runs(t, dt, n, throws) == (n + (m - 1)) / m
  {
    hide RunsAt, NeverThrows, Multiple;
    if n == 0 {
      QuotientUnique(m - 1, m, 0, m - 1);
    } else {
      RunCount(t, dt, m, n - 1, throws);
      RateLaw(t, dt, m, n - 1, throws);
      CeilStep(n - 1, m);
    }
  }

  /** A task that throws is called again at the next tick. */
  lemma ThrowingTaskIsRetried(t: Task, dt: real, i: nat, throws: nat -> bool)
    requires dt > 0.0 && RunsAt(t, dt, i, throws) && throws(i)
    ensures RunsAt(t, dt, i + 1, throws)
  {
    MultiplesGrow(i, i + 1, dt);
  }

  // ---------- Length of a run ----------

  /** ceil(duration / dt), at least one. */
  function CyclesFor(duration: real, dt: real): (n: nat)
    requires dt > 0.0
    ensures n >= 1
  {
    var c := Steps(duration, dt);
    if c < 1 then 1 else c
  }

  lemma CyclesForIsLeast(duration: real, dt: real)
    requires dt > 0.0
    ensures FirstTick(CyclesFor(duration, dt), 1, duration, dt)
  {
    hide Multiple, Steps;
    StepsCover(duration, dt, CyclesFor(duration, dt));
    StepsCover(duration, dt, CyclesFor(duration, dt) - 1);
  }

  /** A run may end after n cycles: a callback of the last one requests a stop, or a positive duration
      has passed. */
  predicate Ends(n: nat, duration: real, dt: real, stops: nat -> bool) {
    n >= 1 && (stops(n - 1) || (duration > 0.0 && Multiple(n, dt) >= duration))
  }

  /** A run for a positive duration ends after ceil(duration / dt) cycles, unless a callback stops it. */
  lemma TimedRunEnds(duration: real, dt: real, stops: nat -> bool, n: nat)
    requires dt > 0.0 && duration > 0.0
    ensures Ends(CyclesFor(duration, dt), duration, dt, stops)
    ensures 1 <= n < CyclesFor(duration, dt) ==> (Ends(n, duration, dt, stops) <==> stops(n - 1))
  {
    hide Multiple, CyclesFor;
    CyclesForIsLeast(duration, dt);
    if n >= 1 {
      ReachedFrom(CyclesFor(duration, dt), 1, duration, dt, n);
    }
  }

  /** All tasks after n ticks of a clock that starts at zero. */
  function TasksAfter(tasks: seq<Task>, dt: real, n: nat, throwing: nat -> set<nat>): (r: seq<Task>)
    ensures |r| == |tasks|
  {
    if n == 0 then tasks else AfterTickAll(TasksAfter(tasks, dt, n - 1, throwing), Multiple(n - 1, dt), throwing(n - 1))
  }

  function ThrowsOf(throwing: nat -> set<nat>, j: nat): nat -> bool {
    (i: nat) => j in throwing(i)
  }

  /** Tasks do not disturb each other, not even namesakes: each one follows its own law. */
  lemma {:induction false} TasksAreIndependent(tasks: seq<Task>, dt: real, n: nat, throwing: nat -> set<nat>, j: nat)
    requires j < |tasks|
    ensures TasksAfter(tasks, dt, n, throwing)[j] == TaskAfter(tasks[j], dt, n, ThrowsOf(throwing, j))
  {
    if n > 0 {
      TasksAreIndependent(tasks, dt, n - 1, throwing, j);
    }
  }

  // ---------- The scheduler ----------

  class Scheduler {
    const baseDt: real
    var tasks: seq<Task>
    var currentTime: real
    var running: bool
    var cycles: nat

    ghost predicate Valid()
      reads this
    {
      ByPriority(tasks)
    }

    constructor (baseDt: real)
      ensures Valid() && this.baseDt == baseDt
      ensures tasks == [] && currentTime == 0.0 && !running && cycles == 0
    {
      this.baseDt := baseDt;
      tasks, currentTime, running, cycles := [], 0.0, false, 0;
    }

    /** The order among equal priorities is left open, as the library sort leaves it. */
    method RegisterTask(task: Task)
      requires Valid()
      modifies `tasks
      ensures Valid() && multiset(tasks) == multiset(old(tasks)) + multiset{task}
    {
      tasks := tasks + [task];
      tasks := SortedByPriority(tasks);
    }

    /** Executes the due tasks; the result lists the callbacks in the order they were called. */
    method ExecuteDueTasks(throwing: set<nat>) returns (called: seq<Task>)
      requires Valid()
      modifies `tasks
      ensures Valid()
      ensures tasks == AfterTickAll(old(tasks), currentTime, throwing)
      ensures called == Called(old(tasks), currentTime)
    {
      called := [];
      ghost var was := tasks;
      for i := 0 to |tasks|
        invariant |tasks| == |was|
        invariant forall j :: 0 <= j < i ==> tasks[j] == AfterTick(was[j], currentTime, j in throwing)
        invariant forall j :: i <= j < |was| ==> tasks[j] == was[j]
        invariant called == Called(was[..i], currentTime)
      {
        assert was[..i + 1][..i] == was[..i];
        var sinceLast := currentTime - tasks[i].last;
        if sinceLast >= tasks[i].period - EPSILON {
          called := called + [tasks[i]];
          if i !in throwing {
            tasks := tasks[i := tasks[i].(last := currentTime)];
          }
        }
      }
      assert was[..|was|] == was;
    }

    method Step(dt: real, throwing: set<nat>) returns (called: seq<Task>)
      requires Valid()
      modifies this
      ensures Valid()
      ensures tasks == AfterTickAll(old(tasks), old(currentTime), throwing)
      ensures called == Called(old(tasks), old(currentTime))
      ensures currentTime == old(currentTime) + dt && cycles == old(cycles) + 1 && running == old(running)
    {
      called := ExecuteDueTasks(throwing);
      currentTime := currentTime + dt;
      cycles := cycles + 1;
    }

    /** Runs until it ends.  The cycles in which some callback requests a stop are given, and those in
        which each task throws. */
    method Run(duration: real, throwing: nat -> set<nat>, stops: nat -> bool)
      requires Valid() && exists n: nat :: Ends(n, duration, baseDt, stops)
      modifies this
      ensures Valid() && Ends(cycles, duration, baseDt, stops)
      ensures forall n: nat :: n < cycles ==> !Ends(n, duration, baseDt, stops)
      ensures currentTime == Multiple(cycles, baseDt)
      ensures tasks == TasksAfter(old(tasks), baseDt, cycles, throwing)
      ensures running == !stops(cycles - 1)
    {
      hide Multiple, AfterTickAll, ByPriority, Called;
      ghost var was := tasks;
      ghost var total: nat :| Ends(total, duration, baseDt, stops);
      running := true;
      currentTime := 0.0;
      cycles := 0;
      MultipleStep(0, baseDt);
      while running
        invariant Valid()
        invariant forall n: nat :: n < cycles ==> !Ends(n, duration, baseDt, stops)
        invariant if running then !Ends(cycles, duration, baseDt, stops) else cycles > 0 && stops(cycles - 1)
        invariant currentTime == Multiple(cycles, baseDt)
        invariant tasks == TasksAfter(was, baseDt, cycles, throwing)
        decreases running, total - cycles
      {
        var called := Step(baseDt, throwing(cycles));
        MultipleStep(cycles - 1, baseDt);
        if stops(cycles - 1) {
          running := false;
        }
        if duration > 0.0 && currentTime >= duration {
          break;
        }
      }
    }

    method Stop()
      modifies `running
      ensures !running
    {
      running := false;
    }

    method ClearTasks()
      modifies `tasks
      ensures Valid() && tasks == []
    {
      tasks := [];
    }

    method Reset()
      modifies this
      ensures Valid() && tasks == [] && currentTime == 0.0 && !running && cycles == 0
    {
      tasks, currentTime, running, cycles := [], 0.0, false, 0;
    }
  }

  /** Insertion by priority: some arrangement of the same tasks, highest priority first. */
  method SortedByPriority(tasks: seq<Task>) returns (r: seq<Task>)
    ensures ByPriority(r) && multiset(r) == multiset(tasks)
  {
    r := [];
    for i := 0 to |tasks|
      invariant ByPriority(r) && multiset(r) == multiset(tasks[..i])
    {
      assert tasks[..i + 1] == tasks[..i] + [tasks[i]];
      r := Insert(r, tasks[i]);
    }
    assert tasks[..|tasks|] == tasks;
  }

  method Insert(sorted: seq<Task>, t: Task) returns (r: seq<Task>)
    requires ByPriority(sorted)
    ensures ByPriority(r) && multiset(r) == multiset(sorted) + multiset{t}
  {
    var i := 0;
    while i < |sorted| && sorted[i].priority >= t.priority
      invariant 0 <= i <= |sorted|
      invariant forall j :: 0 <= j < i ==> sorted[j].priority >= t.priority
    {
      i := i + 1;
    }
    assert sorted == sorted[..i] + sorted[i..];
    r := sorted[..i] + [t] + sorted[i..];
  }
}
