/** Priorities: modules start after those they wait for, close after those that close
    first, and repeated close passes end. */
module WatchOrder {
  import opened Common
  import opened WatchModel
  import opened WatchHistory
  import opened WatchClaims

  // ---------------------------------------------------------------- starting

  /** A ping of module `i` with no later start of it. */
  predicate AnsweredAt(t: seq<Effect>, i: nat, q: nat) {
    q < |t| && t[q] == Touched(i) && forall r :: q < r < |t| ==> t[r] != StartedUp(i) && !t[r].Loaded?
  }

  lemma {:induction false} AnsweredMeans(t: seq<Effect>, i: nat)
    requires HistoryOf(t, i).answered
    ensures exists q: nat :: AnsweredAt(t, i, q)
  {
    var n := |t| - 1;
    if t[n] == Touched(i) {
      assert AnsweredAt(t, i, n);
    } else {
      AnsweredMeans(t[..n], i);
      var q: nat :| AnsweredAt(t[..n], i, q);
      assert AnsweredAt(t, i, q);
    }
  }

  lemma LaunchMeansCanRun(s: Service, i: nat, now: int, env: Env)
    requires s.Has(i)
    requires CheckAt(s, i, now, env).trace == s.trace + [Launched(i)]
    ensures CanRun(s.modules[i := s.modules[i].PopCommand()], i)
    ensures s.modules[i].process == NotRunning
  {
    var m := s.modules[i].PopCommand();
    var s1 := s.Put(i, m);
    if !m.needToStart {
      NoLaunchInClose(s1, i, now, env);
    } else if m.process != NotRunning {
      NoLaunchInAnswer(s1, i, now, env);
    }
  }

  lemma NoLaunchInClose(s: Service, i: nat, now: int, env: Env)
    requires s.Has(i)
    ensures CloseAt(s, i, true, now, env).0.trace != s.trace + [Launched(i)]
  {
    if s.modules[i].process == Running {
      var s1 := s.Put(i, s.modules[i].(needToStart := false));
      assert s1.modules[i].process == Running;
      var k := Killed(i, s1.modules[i].lastUpdate == s1.modules[i].initDate, ForClosing);
      assert KillAt(s1, i, now, env, ForClosing).0.trace == s.trace + [k];
      assert (s.trace + [k])[|s.trace|] == k;
      assert (s.trace + [CloseSent(i)])[|s.trace|] == CloseSent(i);
      assert (s.trace + [k] + [CloseSent(i)])[|s.trace|] == k;
      assert (s.trace + [Launched(i)])[|s.trace|] == Launched(i);
    }
  }

  lemma NoLaunchInAnswer(s: Service, i: nat, now: int, env: Env)
    requires s.Has(i)
    ensures CheckAnswer(s, i, now, env).trace != s.trace + [Launched(i)]
  {
    var t := CheckAnswer(s, i, now, env).trace;
    assert (s.trace + [Launched(i)])[|s.trace|] == Launched(i);
    assert |t| > |s.trace| ==> t[|s.trace|] != Launched(i);
  }

  predicate EndsLife(e: Effect, j: nat) {
    e == Launched(j) || e == StartedUp(j) || e.Loaded?
  }

  /** Module `j` came up at `p`, and that process is its latest. */
  predicate CameUp(t: seq<Effect>, j: nat, p: nat) {
    p < |t| && t[p] == StartedUp(j) && forall r :: p < r < |t| ==> !EndsLife(t[r], j)
  }

  /** The latest process of module `j` came up at `p` and has answered at `q`. */
  predicate AnsweredInLife(t: seq<Effect>, j: nat, p: nat, q: nat) {
    CameUp(t, j, p) && p < q < |t| && t[q] == Touched(j)
  }

  lemma {:induction false} UpMeans(t: seq<Effect>, j: nat)
    ensures HistoryOf(t, j).up <==> exists p: nat :: CameUp(t, j, p)
  {
    if t == [] {
    } else {
      var n := |t| - 1;
      var u := t[..n];
      UpMeans(u, j);
      if p: nat :| CameUp(u, j, p) && !EndsLife(t[n], j) {
        assert CameUp(t, j, p);
      }
      if p: nat :| CameUp(t, j, p) && p < n {
        assert CameUp(u, j, p);
      }
      if t[n] == StartedUp(j) {
        assert CameUp(t, j, n);
      }
    }
  }

  lemma {:induction false} AnsweredInLifeMeans(t: seq<Effect>, j: nat)
    ensures HistoryOf(t, j).up && HistoryOf(t, j).answered <==> exists p: nat, q: nat :: AnsweredInLife(t, j, p, q)
  {
    if t == [] {
    } else {
      var n := |t| - 1;
      var u := t[..n];
      UpMeans(u, j);
      AnsweredInLifeMeans(u, j);
      if p: nat :| t[n] == Touched(j) && CameUp(u, j, p) {
        assert AnsweredInLife(t, j, p, n);
      }
      if p: nat, q: nat :| AnsweredInLife(u, j, p, q) && !EndsLife(t[n], j) {
        assert AnsweredInLife(t, j, p, q);
      }
      if p: nat, q: nat :| AnsweredInLife(t, j, p, q) {
        assert CameUp(u, j, p) && (q < n ==> AnsweredInLife(u, j, p, q));
      }
    }
  }

  /** What the gate lets module `i` be launched on: an exclusive module waits until nothing
      runs, any other until module `j`, if it is needed and has a smaller priority, has a
      process and has answered since it last came up. */
  ghost predicate ReadyFor(t: seq<Effect>, m: Module, other: Module, j: nat)
  {
    if m.exclusive then other.process != Running
    else
      other.needToStart && other.startPriority < m.startPriority ==>
        other.process != NotRunning && exists q: nat :: AnsweredAt(t, j, q)
  }

  /** Whenever a check launches a module with an ordinary priority, every other module is
      ready for it. */
  lemma LaunchOrder(s: Service, i: nat, j: nat, now: int, env: Env)
    requires Inv(s) && s.Has(i) && s.Has(j) && j != i
    requires CheckAt(s, i, now, env).trace == s.trace + [Launched(i)]
    requires s.modules[i].startPriority != NO_PRIORITY
    ensures s.modules[i].process == NotRunning && ReadyFor(s.trace, s.modules[i], s.modules[j], j)
  {
    LaunchMeansCanRun(s, i, now, env);
    var ms := s.modules[i := s.modules[i].PopCommand()];
    assert !BlocksStart(ms[j], ms[i]);
    if HistoryOf(s.trace, j).answered {
      AnsweredMeans(s.trace, j);
    }
  }

  /** The answer that a launch waited for comes from the process that the other module has
      now if and only if that process is running: a module that crashed after it answered and
      was launched again passes the gate before its new process has answered. */
  lemma LaunchAnsweredIff(s: Service, i: nat, j: nat, now: int, env: Env)
    requires Inv(s) && s.Has(i) && s.Has(j) && j != i
    requires CheckAt(s, i, now, env).trace == s.trace + [Launched(i)]
    requires !s.modules[i].exclusive && s.modules[i].startPriority != NO_PRIORITY
    requires s.modules[j].needToStart && s.modules[j].startPriority < s.modules[i].startPriority
    ensures s.modules[j].process == Running <==> exists p: nat, q: nat :: AnsweredInLife(s.trace, j, p, q)
  {
    LaunchMeansCanRun(s, i, now, env);
    var ms := s.modules[i := s.modules[i].PopCommand()];
    assert !BlocksStart(ms[j], ms[i]);
    AnsweredInLifeMeans(s.trace, j);
  }

  // Two modules that are started automatically, the first one first.
  function Sample(name: string, priority: uint32): Module {
    Module(name, false, true, priority, 0, 0, 0, 60, NotRunning, true, false, 0, 0, 0, 0, 0, [])
  }

  const FIRST := Sample("a", 1)
  const SECOND := Sample("b", 2)
  const SMOOTH := Env(_ => KillOutcome(false, true), _ => true)
  const HELLO := Message("a", OtherCommand, "")

  function Known(first: Module, second: Module, trace: seq<Effect>): Service {
    Service([first, second], NoAction, true, [Loaded([false, false])] + trace)
  }

  const STARTED := FIRST.(process := Running, restartCount := 1, initDate := 1, lastUpdate := 1)
  const CRASHED := STARTED.(process := NotRunning, lastUpdate := 2)

  lemma FirstStarts()
    ensures Boot([FIRST, SECOND], 0) == Known(FIRST, SECOND, [])
    ensures Step(Known(FIRST, SECOND, []), At(0, CheckTick(SMOOTH)))
      == Known(FIRST.(process := Starting), SECOND, [Launched(0)])
    ensures Step(Known(FIRST.(process := Starting), SECOND, [Launched(0)]), At(1, ProcessStarted(0)))
      == Known(STARTED, SECOND, [Launched(0), StartedUp(0)])
  {
    var s, m := Known(FIRST, SECOND, []), FIRST.(process := Starting);
    assert FreshModules([FIRST, SECOND], 0) == [FIRST, SECOND];
    assert ExclusiveFlags([FIRST, SECOND]) == [false, false];
    assert FIRST.PopCommand() == FIRST && SECOND.PopCommand() == SECOND;
    assert CheckAt(s, 0, 0, SMOOTH) == Known(m, SECOND, [Launched(0)]);
    var s1 := Known(m, SECOND, [Launched(0)]);
    assert BlocksStart(s1.modules[0], s1.modules[1]);
    assert s1.modules[1 := SECOND] == s1.modules && s1.Put(1, SECOND) == s1;
    assert CheckAt(s1, 1, 0, SMOOTH) == s1;
    assert CheckFrom(s1, 1, 0, SMOOTH) == s1;
  }

  lemma FirstAnswersAndCrashes()
    ensures Step(Known(STARTED, SECOND, [Launched(0), StartedUp(0)]), At(2, Received(HELLO, SMOOTH)))
      == Known(STARTED.(lastUpdate := 2), SECOND, [Launched(0), StartedUp(0), Touched(0)])
    ensures Step(Known(STARTED.(lastUpdate := 2), SECOND, [Launched(0), StartedUp(0), Touched(0)]),
                 At(3, ProcessFinished(0, false)))
      == Known(CRASHED, SECOND, [Launched(0), StartedUp(0), Touched(0)])
  {
    var s := Known(STARTED, SECOND, [Launched(0), StartedUp(0)]);
    assert Find(s.modules, "a") == Some(0);
    assert Obey(s, HELLO, 2, SMOOTH) == s;
    assert s.modules[0 := STARTED.Touch(2)] == [STARTED.(lastUpdate := 2), SECOND];
  }

  lemma BothAreLaunched()
    ensures Step(Known(CRASHED, SECOND, [Launched(0), StartedUp(0), Touched(0)]), At(4, CheckTick(SMOOTH)))
      == Known(CRASHED.(process := Starting), SECOND.(process := Starting),
               [Launched(0), StartedUp(0), Touched(0), Launched(0), Launched(1)])
  {
    var t := [Launched(0), StartedUp(0), Touched(0)];
    var s := Known(CRASHED, SECOND, t);
    var m := CRASHED.(process := Starting);
    assert CRASHED.PopCommand() == CRASHED && SECOND.PopCommand() == SECOND;
    var s1 := Known(m, SECOND, t + [Launched(0)]);
    assert CheckAt(s, 0, 4, SMOOTH) == s1;
    var s2 := Known(m, SECOND.(process := Starting), t + [Launched(0), Launched(1)]);
    assert CheckAt(s1, 1, 4, SMOOTH) == s2;
    assert CheckFrom(s1, 1, 4, SMOOTH) == s2;
    assert t + [Launched(0), Launched(1)] == [Launched(0), StartedUp(0), Touched(0), Launched(0), Launched(1)];
  }

  const CRASH_RUN := [At(0, CheckTick(SMOOTH)), At(1, ProcessStarted(0)), At(2, Received(HELLO, SMOOTH)),
                      At(3, ProcessFinished(0, false)), At(4, CheckTick(SMOOTH))]

  lemma RunFive(s: Service, a: Timed, b: Timed, c: Timed, d: Timed, e: Timed)
    ensures Run(s, [a, b, c, d, e]) == Step(Step(Step(Step(Step(s, a), b), c), d), e)
  {
    assert [a, b, c, d, e][1..] == [b, c, d, e] && [b, c, d, e][1..] == [c, d, e];
    assert [c, d, e][1..] == [d, e] && [d, e][1..] == [e] && [e][1..] == [];
    var s2 := Step(Step(s, a), b);
    assert Run(s, [a, b, c, d, e]) == Run(s2, [c, d, e]);
    assert Run(s2, [c, d, e]) == Run(Step(Step(s2, c), d), [e]);
  }

  lemma CrashRunEnds()
    ensures Run(Boot([FIRST, SECOND], 0), CRASH_RUN)
      == Known(CRASHED.(process := Starting), SECOND.(process := Starting),
               [Launched(0), StartedUp(0), Touched(0), Launched(0), Launched(1)])
  {
    RunFive(Boot([FIRST, SECOND], 0), CRASH_RUN[0], CRASH_RUN[1], CRASH_RUN[2], CRASH_RUN[3], CRASH_RUN[4]);
    FirstStarts();
    FirstAnswersAndCrashes();
    BothAreLaunched();
  }

  /** Such a run from the first start on: the second module is launched at the last position
      although the first one's new process, launched just before, has not answered. */
  lemma LaunchedOnAnOldAnswer()
    ensures
      var t := Run(Boot([FIRST, SECOND], 0), CRASH_RUN).trace;
      |t| == 6 && t[5] == Launched(1) && t[4] == Launched(0) &&
      !exists p: nat, q: nat :: AnsweredInLife(t[..5], 0, p, q)
  {
    CrashRunEnds();
    var t := Run(Boot([FIRST, SECOND], 0), CRASH_RUN).trace;
    assert EndsLife(t[..5][4], 0);
  }

  // ---------------------------------------------------------------- closing

  predicate Reaches(e: Effect, k: nat) {
    e == CloseSent(k) || (e.Killed? && e.id == k)
  }

  predicate RunningAt(s: Service, i: int) {
    s.Has(i) && s.modules[i].process == Running
  }

  /** All a close pass does to a module: it may stop being needed, and its process may go. */
  predicate OnlyCloses(m: Module, m': Module) {
    && m' == m.(process := m'.process, needToStart := m'.needToStart, killOnStartCount := m'.killOnStartCount)
    && (m'.process != m.process ==> m.process == Running && m'.process == NotRunning)
  }

  lemma CloseAtEffects(s: Service, i: nat, now: int, env: Env)
    requires s.Has(i)
    ensures
      var (r, closed) := CloseAt(s, i, false, now, env);
      && s.trace <= r.trace && r.action == s.action
      && (forall j :: 0 <= j < |s.modules| && j != i ==> r.modules[j] == s.modules[j])
      && OnlyCloses(s.modules[i], r.modules[i])
      && (closed <==> !RunningAt(r, i))
      && (forall p :: |s.trace| <= p < |r.trace| ==> Reaches(r.trace[p], i) && CanTerminate(s.modules, i))
      && (RunningAt(s, i) && closed ==> |s.trace| < |r.trace| && r.trace[|s.trace|].Killed?)
  {
    if RunningAt(s, i) {
      var s1 := s.Put(i, s.modules[i].(needToStart := false));
      assert CanTerminate(s1.modules, i) <==> CanTerminate(s.modules, i) by {
        forall j | 0 <= j < |s.modules|
          ensures BlocksClose(s1.modules[j], s1.modules[i]) == BlocksClose(s.modules[j], s.modules[i])
        {}
      }
      var k := Killed(i, s1.modules[i].lastUpdate == s1.modules[i].initDate, ForClosing);
      var (s2, gone) := KillAt(s1, i, now, env, ForClosing);
      assert s2.trace == s.trace + [k];
      assert s2.trace[|s.trace|] == k;
    }
  }

  /** What an iteration of the close loop at `i` does, from `s` and `c` to `r` and `c'`. */
  ghost predicate Closing(s: Service, i: nat, c: bool, r: Service, c': bool) {
    && s.Has(i) && |r.modules| == |s.modules| && s.trace <= r.trace && r.action == s.action
    && (forall j :: 0 <= j < |s.modules| && j != i ==> r.modules[j] == s.modules[j])
    && OnlyCloses(s.modules[i], r.modules[i])
    && (c' <==> c && !RunningAt(r, i))
    && (forall p, k :: |s.trace| <= p < |r.trace| && Reaches(r.trace[p], k) ==> k == i && CanTerminate(s.modules, i))
    && (RunningAt(s, i) && !RunningAt(r, i) ==>
          |s.trace| < |r.trace| && r.trace[|s.trace|].Killed? && r.trace[|s.trace|].id == i)
  }

  lemma CloseNextCloses(s: Service, i: nat, c: bool, now: int, env: Env)
    requires s.Has(i)
    ensures var (r, c') := CloseNext(s, i, c, now, env); Closing(s, i, c, r, c')
  {
    CloseAtEffects(s, i, now, env);
    var (s1, closed) := CloseAt(s, i, false, now, env);
    var (r, c') := CloseNext(s, i, c, now, env);
    assert r.modules == s1.modules;
    forall p, k | |s.trace| <= p < |r.trace| && Reaches(r.trace[p], k)
      ensures k == i && CanTerminate(s.modules, i)
    {
      assert p < |s1.trace|;
      assert Reaches(s1.trace[p], i);
    }
  }

  /** What the rest of a pass from `s` does: `r` is its result. */
  ghost predicate ClosedRest(s: Service, r: Service) {
    && |r.modules| == |s.modules| && s.trace <= r.trace && r.action == s.action
    && forall j :: 0 <= j < |s.modules| ==> OnlyCloses(s.modules[j], r.modules[j])
  }

  lemma ClosingThenRest(s: Service, i: nat, c: bool, s1: Service, c1: bool, r: Service)
    requires Closing(s, i, c, s1, c1) && ClosedRest(s1, r)
    ensures ClosedRest(s, r)
  {}

  lemma {:induction false} CloseFromCloses(s: Service, i: nat, c: bool, now: int, env: Env)
    ensures ClosedRest(s, CloseFrom(s, i, c, now, env).0)
    decreases |s.modules| - i
  {
    if i >= |s.modules| {
    } else {
      CloseNextCloses(s, i, c, now, env);
      var (s1, c1) := CloseNext(s, i, c, now, env);
      CloseFromCloses(s1, i + 1, c1, now, env);
      ClosingThenRest(s, i, c, s1, c1, CloseFrom(s1, i + 1, c1, now, env).0);
    }
  }

  ghost predicate KilledBetween(t: seq<Effect>, j: nat, from: nat, to: nat) {
    exists q :: from <= q < to && q < |t| && t[q].Killed? && t[q].id == j
  }

  lemma CloseOrderNext(s: Service, i: nat, c: bool, s1: Service, c1: bool, r: Service, p: nat, k: nat, j: nat)
    requires Closing(s, i, c, s1, c1) && ClosedRest(s1, r)
    requires s.Has(k) && s.modules[k].closePriority != NO_PRIORITY
    requires RunningAt(s, j) && s.modules[j].closePriority < s.modules[k].closePriority
    requires |s.trace| <= p < |r.trace| && Reaches(r.trace[p], k)
    ensures |s1.trace| <= p
    ensures RunningAt(s1, j) || (KilledBetween(r.trace, j, |s.trace|, p) && !RunningAt(r, j))
    ensures s1.modules[k].closePriority == s.modules[k].closePriority
    ensures s1.modules[j].closePriority == s.modules[j].closePriority
  {
    if p < |s1.trace| {
      assert s1.trace[p] == r.trace[p];
      assert BlocksClose(s.modules[j], s.modules[k]);
      assert false;
    }
    if !RunningAt(s1, j) {
      assert r.trace[|s.trace|] == s1.trace[|s.trace|];
      assert OnlyCloses(s1.modules[j], r.modules[j]);
    }
  }

  /** In a close pass a close message or a kill reaches a module with an ordinary priority
      only after every running module of smaller priority was killed earlier in that same
      pass, and its process is gone. */
  lemma {:induction false} CloseOrder(s: Service, i: nat, c: bool, now: int, env: Env, p: nat, k: nat, j: nat)
    requires s.Has(k) && s.modules[k].closePriority != NO_PRIORITY
    requires RunningAt(s, j) && s.modules[j].closePriority < s.modules[k].closePriority
    requires var t := CloseFrom(s, i, c, now, env).0.trace; |s.trace| <= p < |t| && Reaches(t[p], k)
    ensures
      var r := CloseFrom(s, i, c, now, env).0;
      KilledBetween(r.trace, j, |s.trace|, p) && !RunningAt(r, j)
    decreases |s.modules| - i
  {
    assert i < |s.modules|;
    var (s1, c1) := CloseNext(s, i, c, now, env);
    var r := CloseFrom(s1, i + 1, c1, now, env).0;
    CloseNextCloses(s, i, c, now, env);
    CloseFromCloses(s1, i + 1, c1, now, env);
    CloseOrderNext(s, i, c, s1, c1, r, p, k, j);
    if RunningAt(s1, j) {
      CloseOrder(s1, i + 1, c1, now, env, p, k, j);
    }
  }

  lemma {:induction false} CloseFromVerdict(s: Service, i: nat, c: bool, now: int, env: Env)
    requires i <= |s.modules|
    ensures
      var (r, done) := CloseFrom(s, i, c, now, env);
      (done <==> c && forall j :: i <= j < |s.modules| ==> !RunningAt(r, j)) &&
      forall j :: 0 <= j < i ==> r.modules[j] == s.modules[j]
    decreases |s.modules| - i
  {
    if i >= |s.modules| {
    } else {
      CloseNextCloses(s, i, c, now, env);
      var (s1, c1) := CloseNext(s, i, c, now, env);
      CloseFromVerdict(s1, i + 1, c1, now, env);
      var r := CloseFrom(s1, i + 1, c1, now, env).0;
      assert r.modules[i] == s1.modules[i];
      assert RunningAt(r, i) <==> RunningAt(s1, i);
    }
  }

  /** A close pass takes the close action exactly when it leaves no module running, and then
      as its very last effect. */
  lemma ClosesIffNothingRuns(s: Service, sender: string, now: int, env: Env)
    ensures
      var (r, done) := ClosePass(s, sender, now, env);
      (done <==> forall j :: 0 <= j < |r.modules| ==> !RunningAt(r, j)) &&
      (done <==> r.trace[|r.trace| - 1] == Closed(s.action))
  {
    CloseFromVerdict(s.(timerActive := false), 0, true, now, env);
    CloseFromCloses(s.(timerActive := false), 0, true, now, env);
    var s1 := CloseFrom(s.(timerActive := false), 0, true, now, env).0;
    var r := ClosePass(s, sender, now, env).0;
    assert r.modules == s1.modules;
    assert forall j :: RunningAt(r, j) <==> RunningAt(s1, j);
  }

  // ---------------------------------------------------------------- shutdown ends

  predicate PastClosing(m: Module, now: int) {
    m.process == Running ==> m.lastUpdate + 1000 * m.CloseTimeout() < now
  }

  predicate KillsSucceed(env: Env, n: nat) {
    forall i :: 0 <= i < n ==> env.kill(i).finished
  }

  function RunningPriorities(s: Service): set<int> {
    set i | 0 <= i < |s.modules| && s.modules[i].process == Running :: s.modules[i].closePriority as int
  }

  ghost predicate HasSmallerRunning(s: Service, k: nat)
    requires s.Has(k)
  {
    exists j :: RunningAt(s, j) && s.modules[j].closePriority < s.modules[k].closePriority
  }

  lemma OverdueCloseKills(s: Service, i: nat, c: bool, now: int, env: Env)
    requires s.Has(i) && PastClosing(s.modules[i], now) && env.kill(i).finished
    requires RunningAt(CloseNext(s, i, c, now, env).0, i)
    ensures HasSmallerRunning(s, i)
  {
    if RunningAt(s, i) {
      var s1 := s.Put(i, s.modules[i].(needToStart := false));
      if !CanTerminate(s1.modules, i) {
        var j :| 0 <= j < |s.modules| && BlocksClose(s1.modules[j], s1.modules[i]);
        assert RunningAt(s, j);
      }
    }
  }

  lemma SmallerRunningCarriesBack(s: Service, i: nat, c: bool, s1: Service, c1: bool, k: nat)
    requires Closing(s, i, c, s1, c1) && s.Has(k) && HasSmallerRunning(s1, k)
    ensures HasSmallerRunning(s, k)
  {
    var j :| RunningAt(s1, j) && s1.modules[j].closePriority < s1.modules[k].closePriority;
    assert RunningAt(s, j);
  }

  lemma PastClosingCarries(s: Service, s1: Service, now: int)
    requires ClosedRest(s, s1)
    requires forall j :: 0 <= j < |s.modules| ==> PastClosing(s.modules[j], now)
    ensures forall j :: 0 <= j < |s1.modules| ==> PastClosing(s1.modules[j], now)
  {
    forall j | 0 <= j < |s1.modules| ensures PastClosing(s1.modules[j], now) {
      assert OnlyCloses(s.modules[j], s1.modules[j]) && PastClosing(s.modules[j], now);
    }
  }

  lemma ClosingKeepsDeadlines(s: Service, i: nat, c: bool, s1: Service, c1: bool, now: int)
    requires Closing(s, i, c, s1, c1) && forall j :: 0 <= j < |s.modules| ==> PastClosing(s.modules[j], now)
    ensures forall j :: 0 <= j < |s1.modules| ==> PastClosing(s1.modules[j], now)
  {
    ClosingThenRest(s, i, c, s1, c1, s1);
    PastClosingCarries(s, s1, now);
  }

  lemma StillRunningNext(s1: Service, r: Service, k: nat)
    requires ClosedRest(s1, r) && RunningAt(r, k)
    ensures RunningAt(s1, k)
  {
    assert OnlyCloses(s1.modules[k], r.modules[k]);
  }

  /** What is still running after a pass had, at its start, a running module of smaller
      priority. */
  lemma {:induction false} SurvivorsWereBlocked(s: Service, i: nat, c: bool, now: int, env: Env, k: nat)
    requires s.Has(k) && i <= k
    requires forall j :: 0 <= j < |s.modules| ==> PastClosing(s.modules[j], now)
    requires KillsSucceed(env, |s.modules|)
    requires RunningAt(CloseFrom(s, i, c, now, env).0, k)
    ensures HasSmallerRunning(s, k)
    decreases |s.modules| - i
  {
    CloseNextCloses(s, i, c, now, env);
    var (s1, c1) := CloseNext(s, i, c, now, env);
    CloseFromCloses(s1, i + 1, c1, now, env);
    if i == k {
      StillRunningNext(s1, CloseFrom(s1, i + 1, c1, now, env).0, k);
      OverdueCloseKills(s, i, c, now, env);
    } else {
      ClosingKeepsDeadlines(s, i, c, s1, c1, now);
      SurvivorsWereBlocked(s1, i + 1, c1, now, env, k);
      SmallerRunningCarriesBack(s, i, c, s1, c1, k);
    }
  }

  /** One round of the shutdown: some processes exit by themselves, then a pass is made. */
  datatype Round = Round(now: int, exits: nat -> bool, sender: string, env: Env)

  function AfterExits(s: Service, exits: nat -> bool): (r: Service)
    ensures |r.modules| == |s.modules|
  {
    s.(modules := seq(|s.modules|, i requires 0 <= i < |s.modules| =>
                    if exits(i) then s.modules[i].(process := NotRunning) else s.modules[i]))
  }

  function RoundPass(s: Service, r: Round): (Service, bool) {
    ClosePass(AfterExits(s, r.exits), r.sender, r.now, r.env)
  }

  /** Some pass of the rounds, made one after another, takes the close action. */
  predicate ClosesWithin(s: Service, rounds: seq<Round>)
    decreases |rounds|
  {
    rounds != [] && (RoundPass(s, rounds[0]).1 || ClosesWithin(RoundPass(s, rounds[0]).0, rounds[1..]))
  }

  /** Some running module has the smallest priority that runs. */
  lemma {:induction false} LeastRunning(s: Service, k: nat) returns (m: nat)
    requires RunningAt(s, k)
    ensures RunningAt(s, m) && !HasSmallerRunning(s, m)
    decreases s.modules[k].closePriority
  {
    if HasSmallerRunning(s, k) {
      var j :| RunningAt(s, j) && s.modules[j].closePriority < s.modules[k].closePriority;
      m := LeastRunning(s, j);
    } else {
      m := k;
    }
  }

  /** What a round leaves running was running before, unchanged in all that the next round
      looks at, and is not of the smallest priority. */
  lemma SurvivorsOfRound(s: Service, round: Round, k: nat)
    requires forall j :: 0 <= j < |s.modules| ==> PastClosing(s.modules[j], round.now)
    requires KillsSucceed(round.env, |s.modules|)
    requires RunningAt(RoundPass(s, round).0, k)
    ensures RunningAt(s, k) && HasSmallerRunning(s, k)
    ensures
      var m := RoundPass(s, round).0.modules[k];
      m.closePriority == s.modules[k].closePriority && m.lastUpdate == s.modules[k].lastUpdate &&
      m.CloseTimeout() == s.modules[k].CloseTimeout()
  {
    var s0 := AfterExits(s, round.exits).(timerActive := false);
    var s1 := CloseFrom(s0, 0, true, round.now, round.env).0;
    assert RoundPass(s, round).0.modules == s1.modules;
    CloseFromCloses(s0, 0, true, round.now, round.env);
    assert OnlyCloses(s0.modules[k], s1.modules[k]);
    forall j | 0 <= j < |s0.modules| ensures PastClosing(s0.modules[j], round.now) {
      assert PastClosing(s.modules[j], round.now);
    }
    assert RunningAt(s1, k);
    SurvivorsWereBlocked(s0, 0, true, round.now, round.env, k);
    var j :| RunningAt(s0, j) && s0.modules[j].closePriority < s0.modules[k].closePriority;
    assert RunningAt(s, j);
  }

  /** The measure: a round that does not close drops a priority. */
  lemma RoundDropsPriority(s: Service, round: Round)
    requires forall j :: 0 <= j < |s.modules| ==> PastClosing(s.modules[j], round.now)
    requires KillsSucceed(round.env, |s.modules|)
    requires !RoundPass(s, round).1
    ensures 0 < |RunningPriorities(RoundPass(s, round).0)| < |RunningPriorities(s)|
  {
    var r := RoundPass(s, round).0;
    ClosesIffNothingRuns(AfterExits(s, round.exits), round.sender, round.now, round.env);
    var k: nat :| RunningAt(r, k);
    SurvivorsOfRound(s, round, k);
    var m := LeastRunning(s, k);
    var least := s.modules[m].closePriority as int;
    forall x | x in RunningPriorities(r) ensures x in RunningPriorities(s) && x != least {
      var j :| 0 <= j < |r.modules| && r.modules[j].process == Running && r.modules[j].closePriority as int == x;
      assert RunningAt(r, j);
      SurvivorsOfRound(s, round, j);
    }
    assert r.modules[k].closePriority as int in RunningPriorities(r);
    SmallerSet(RunningPriorities(r), RunningPriorities(s), least);
  }

  lemma SmallerSet<T>(a: set<T>, b: set<T>, x: T)
    requires a <= b && x in b && x !in a
    ensures |a| < |b|
  {
    assert a <= b - {x};
    SubsetSize(a, b - {x});
  }

  lemma {:induction false} SubsetSize<T>(a: set<T>, b: set<T>)
    requires a <= b
    ensures |a| <= |b|
    decreases |a|
  {
    if a == {} {
    } else {
      var x :| x in a;
      SubsetSize(a - {x}, b - {x});
    }
  }

  /** If no module starts or pings, every running module is past its closing deadline and
      kills succeed, the close action is taken within as many passes as there are distinct
      close priorities among the running modules (one pass if there are none), for any
      order of the modules and whatever exits by itself on the way. */
  lemma {:induction false} ShutdownEnds(s: Service, rounds: seq<Round>)
    requires |rounds| >= 1 && |rounds| >= |RunningPriorities(s)|
    requires forall r :: r in rounds ==> KillsSucceed(r.env, |s.modules|)
    requires forall r, j :: r in rounds && 0 <= j < |s.modules| ==> PastClosing(s.modules[j], r.now)
    ensures ClosesWithin(s, rounds)
    decreases |rounds|
  {
    var (s1, done) := RoundPass(s, rounds[0]);
    if done {
    } else {
      RoundDropsPriority(s, rounds[0]);
      forall r, j | r in rounds[1..] && 0 <= j < |s1.modules| ensures PastClosing(s1.modules[j], r.now) {
        assert PastClosing(s.modules[j], r.now);
        if RunningAt(s1, j) {
          SurvivorsOfRound(s, rounds[0], j);
        }
      }
      ShutdownEnds(s1, rounds[1..]);
    }
  }
}
