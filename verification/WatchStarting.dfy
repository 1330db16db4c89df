/** What the watchdog does to a process that is still starting: it has no answer and no start
    date of its own yet. */
module WatchStarting {
  import opened Common
  import opened WatchModel
  import opened WatchHistory
  import opened WatchClaims
  import opened WatchOrder

  // ---------------------------------------------------------------- killed for silence

  /** The latest process of module `k` came up, and has either answered or had its time for a
      first answer since the date on which it came up. */
  ghost predicate HadItsTime(s: Service, k: nat, now: int)
    requires s.Has(k)
  {
    (exists p: nat, q: nat :: AnsweredInLife(s.trace, k, p, q)) ||
    ((exists p: nat :: CameUp(s.trace, k, p)) && s.modules[k].initDate == s.modules[k].lastUpdate &&
     s.modules[k].initDate + 1000 * s.modules[k].FirstPingTimeout() <= now)
  }

  /** A process that a check pass kills for silence has answered, or had its time to, if and only
      if it was running when the pass began: one launched after a crash still has the dates of the
      process before it, and can be killed before it has come up. */
  lemma SilencedHadItsTimeIff(s: Service, now: int, env: Env, p: nat)
    requires Inv(s)
    requires var t := CheckPass(s, now, env).trace; |s.trace| <= p < |t| && IsSilenceKill(t[p])
    ensures
      var k := CheckPass(s, now, env).trace[p].id;
      s.Has(k) && (s.modules[k].process == Running <==> HadItsTime(s, k, now))
  {
    SilenceKillsAreOverdue(s, 0, now, env, p);
    var k := CheckPass(s, now, env).trace[p].id;
    assert Agrees(s.modules[k], HistoryOf(s.trace, k));
    UpMeans(s.trace, k);
    AnsweredInLifeMeans(s.trace, k);
  }

  // ---------------------------------------------------------------- closed while starting

  /** A close pass leaves no process at all if and only if it takes the close action and nothing
      was still starting when it began: such a process counts as closed. */
  lemma ClosesEverythingIff(s: Service, sender: string, now: int, env: Env)
    ensures
      var (r, done) := ClosePass(s, sender, now, env);
      (forall j :: 0 <= j < |r.modules| ==> r.modules[j].process == NotRunning) <==>
      done && forall j :: 0 <= j < |s.modules| ==> s.modules[j].process != Starting
  {
    var s0 := s.(timerActive := false);
    var (r, done) := ClosePass(s, sender, now, env);
    var s1 := CloseFrom(s0, 0, true, now, env).0;
    ClosesIffNothingRuns(s, sender, now, env);
    CloseFromCloses(s0, 0, true, now, env);
    assert r.modules == s1.modules;
    forall j | 0 <= j < |s.modules| ensures r.modules[j].process == Starting <==> s.modules[j].process == Starting {
      assert OnlyCloses(s0.modules[j], s1.modules[j]);
    }
    forall j | 0 <= j < |r.modules| ensures RunningAt(r, j) <==> r.modules[j].process == Running {}
  }

  // ---------------------------------------------------------------- runs

  lemma {:induction false} RunAppends(s: Service, a: seq<Timed>, b: seq<Timed>)
    ensures Run(s, a + b) == Run(Run(s, a), b)
    decreases |a|
  {
    if a == [] {
      assert a + b == b;
    } else {
      assert (a + b)[0] == a[0] && (a + b)[1..] == a[1..] + b;
      RunAppends(Step(s, a[0]), a[1..], b);
    }
  }

  lemma RunTwo(s: Service, a: Timed, b: Timed)
    ensures Run(s, [a, b]) == Step(Step(s, a), b)
  {
    assert [a, b][1..] == [b] && [b][1..] == [];
    assert Run(Step(s, a), [b]) == Step(Step(s, a), b);
  }

  const RELAUNCHED := CRASHED.(process := Starting)
  const SECOND_STARTING := SECOND.(process := Starting)
  const AFTER_CRASH := [Launched(0), StartedUp(0), Touched(0), Launched(0), Launched(1)]
  const MISSES := [Missed(0), Missed(1)]
  const KILLS := [Killed(0, false, ForSilence), Killed(1, true, ForSilence)]
  const TWO_CHECKS := [At(100_000, CheckTick(SMOOTH)), At(101_000, CheckTick(SMOOTH))]

  lemma FirstCheckMisses()
    ensures Step(Known(RELAUNCHED, SECOND_STARTING, AFTER_CRASH), TWO_CHECKS[0])
      == Known(RELAUNCHED.(noResponseCount := 1), SECOND_STARTING.(noResponseCount := 1), AFTER_CRASH + MISSES)
  {
    var s := Known(RELAUNCHED, SECOND_STARTING, AFTER_CRASH);
    var s1 := Known(RELAUNCHED.(noResponseCount := 1), SECOND_STARTING, AFTER_CRASH + [Missed(0)]);
    var s2 := Known(RELAUNCHED.(noResponseCount := 1), SECOND_STARTING.(noResponseCount := 1), AFTER_CRASH + MISSES);
    assert CheckAt(s, 0, 100_000, SMOOTH) == s1;
    assert CheckAt(s1, 1, 100_000, SMOOTH) == s2;
    assert CheckFrom(s1, 1, 100_000, SMOOTH) == s2;
  }

  lemma SecondCheckKills()
    ensures Step(Known(RELAUNCHED.(noResponseCount := 1), SECOND_STARTING.(noResponseCount := 1), AFTER_CRASH + MISSES),
                 TWO_CHECKS[1]).trace
      == Known(RELAUNCHED, SECOND_STARTING, AFTER_CRASH + MISSES + KILLS).trace
  {
    var s := Known(RELAUNCHED.(noResponseCount := 1), SECOND_STARTING.(noResponseCount := 1), AFTER_CRASH + MISSES);
    var s1 := CheckAt(s, 0, 101_000, SMOOTH);
    assert s1.trace == s.trace + [KILLS[0]] && s1.modules[1] == s.modules[1];
    var s2 := CheckAt(s1, 1, 101_000, SMOOTH);
    assert s2.trace == s1.trace + [KILLS[1]];
    assert CheckFrom(s1, 1, 101_000, SMOOTH) == s2;
  }

  /** Such a run from the first start on: a module answers, crashes and is launched again, and its
      new process is killed for silence although it has not come up. */
  lemma KilledBeforeItCameUp()
    ensures
      var t := Run(Boot([FIRST, SECOND], 0), CRASH_RUN + TWO_CHECKS).trace;
      |t| == 10 && t[8] == Killed(0, false, ForSilence) && !exists p: nat :: CameUp(t[..8], 0, p)
  {
    CrashRunEnds();
    RunAppends(Boot([FIRST, SECOND], 0), CRASH_RUN, TWO_CHECKS);
    var s := Known(RELAUNCHED, SECOND_STARTING, AFTER_CRASH);
    RunTwo(s, TWO_CHECKS[0], TWO_CHECKS[1]);
    FirstCheckMisses();
    SecondCheckKills();
    var t := Run(Boot([FIRST, SECOND], 0), CRASH_RUN + TWO_CHECKS).trace;
    assert t == [Loaded([false, false])] + (AFTER_CRASH + MISSES + KILLS);
    assert t[..8][4] == Launched(0) && EndsLife(t[..8][4], 0);
  }

  const CLOSE_RUN := [At(0, CheckTick(SMOOTH)), At(0, CloseTick(SMOOTH))]

  /** And one in which the close action is taken while a process is still starting. */
  lemma ClosedWhileStarting()
    ensures
      var s := Run(Boot([FIRST, SECOND], 0), CLOSE_RUN);
      s.trace != [] && s.trace[|s.trace| - 1] == Closed(NoAction) &&
      |s.modules| == 2 && s.modules[0].process == Starting
  {
    FirstStarts();
    RunTwo(Boot([FIRST, SECOND], 0), CLOSE_RUN[0], CLOSE_RUN[1]);
    var s := Known(FIRST.(process := Starting), SECOND, [Launched(0)]);
    var s0 := s.(timerActive := false);
    assert CloseFrom(s0, 0, true, 0, SMOOTH) == (s0, true) by {
      assert CloseNext(s0, 0, true, 0, SMOOTH) == (s0, true) && CloseNext(s0, 1, true, 0, SMOOTH) == (s0, true);
      assert CloseFrom(s0, 1, true, 0, SMOOTH) == (s0, true);
    }
  }
}
