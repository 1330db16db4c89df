/** The whole-run claims that follow from the watchdog's invariant, stated over the trace
    itself: no claim below mentions the counters that the watchdog keeps to achieve it,
    except to say what they are. */
module WatchClaims {
  import opened Common
  import opened WatchModel
  import opened WatchHistory

  // ---------------------------------------------------------------- restart limit

  predicate Resets(e: Effect, i: nat) {
    e == CountReset(i) || e.Loaded?
  }

  function StartsIn(t: seq<Effect>, i: nat): nat {
    if t == [] then 0 else StartsIn(t[..|t| - 1], i) + if t[|t| - 1] == StartedUp(i) then 1 else 0
  }

  lemma {:induction false} StartsCounted(t: seq<Effect>, p: nat, i: nat)
    requires p <= |t|
    requires forall q :: p <= q < |t| ==> !Resets(t[q], i)
    ensures StartsIn(t[p..], i) <= HistoryOf(t, i).starts
  {
    if p >= |t| {
    } else {
      var u := t[..|t| - 1];
      assert t[p..][..|t[p..]| - 1] == u[p..];
      StartsCounted(u, p, i);
    }
  }

  /** In every reachable state a limited module has restarted at most `maxStartCount` times,
      strictly less while a start is pending, and no stretch of the trace without a reset
      of its counter holds more successful starts than that. */
  lemma RestartLimit(config: seq<Module>, now: int, ts: seq<Timed>, i: nat, p: nat)
    requires var s := Run(Boot(config, now), ts);
      s.Has(i) && s.modules[i].maxStartCount > 0 && p <= |s.trace| &&
      forall q :: p <= q < |s.trace| ==> !Resets(s.trace[q], i)
    ensures
      var s := Run(Boot(config, now), ts);
      var m := s.modules[i];
      StartsIn(s.trace[p..], i) <= m.restartCount <= m.maxStartCount &&
      (m.process == Starting ==> m.restartCount < m.maxStartCount)
  {
    InvEverywhere(config, now, ts);
    StartsCounted(Run(Boot(config, now), ts).trace, p, i);
  }

  // ---------------------------------------------------------------- two strikes

  predicate ClearsMiss(e: Effect, i: nat) {
    e == OnTime(i) || e.Loaded? || (e.Killed? && e.id == i && e.why == ForSilence)
  }

  predicate OpenMiss(t: seq<Effect>, i: nat, q: nat) {
    q < |t| && t[q] == Missed(i) && forall r :: q < r < |t| ==> !ClearsMiss(t[r], i)
  }

  lemma {:induction false} MissPendingMeans(t: seq<Effect>, i: nat)
    ensures HistoryOf(t, i).missPending <==> exists q: nat :: OpenMiss(t, i, q)
  {
    if t == [] {
    } else {
      var n := |t| - 1;
      var u := t[..n];
      MissPendingMeans(u, i);
      if HistoryOf(t, i).missPending {
        if t[n] == Missed(i) {
          assert OpenMiss(t, i, n);
        } else {
          var q: nat :| OpenMiss(u, i, q);
          assert OpenMiss(t, i, q);
        }
      }
      if exists q: nat :: OpenMiss(t, i, q) {
        var q: nat :| OpenMiss(t, i, q);
        if q < n {
          assert OpenMiss(u, i, q);
        }
      }
    }
  }

  /** Every kill for silence follows an earlier missed deadline of the same module, with no
      answer in time and no other kill for silence in between; the counter is 0 or 1. */
  lemma TwoStrikes(config: seq<Module>, now: int, ts: seq<Timed>)
    ensures
      var s := Run(Boot(config, now), ts);
      (forall i :: 0 <= i < |s.modules| ==> s.modules[i].noResponseCount in {0, 1}) &&
      forall p :: 0 <= p < |s.trace| && s.trace[p].Killed? && s.trace[p].why == ForSilence ==>
        exists q: nat :: OpenMiss(s.trace[..p], s.trace[p].id, q)
  {
    InvEverywhere(config, now, ts);
    var s := Run(Boot(config, now), ts);
    forall i | 0 <= i < |s.modules| ensures s.modules[i].noResponseCount in {0, 1} {
      assert Agrees(s.modules[i], HistoryOf(s.trace, i));
    }
    forall p | 0 <= p < |s.trace| && s.trace[p].Killed? && s.trace[p].why == ForSilence
      ensures exists q: nat :: OpenMiss(s.trace[..p], s.trace[p].id, q)
    {
      assert Justified(s.trace[..p], s.trace[p]);
      MissPendingMeans(s.trace[..p], s.trace[p].id);
    }
  }

  // ---------------------------------------------------------------- what one check does to the others

  /** Everything a check decides on, except whether the module is needed. */
  predicate SameButNeed(m: Module, m': Module) {
    m' == m.(needToStart := m'.needToStart)
  }

  lemma CheckLeavesOthers(s: Service, i: nat, now: int, env: Env)
    requires s.Has(i)
    ensures var r := CheckAt(s, i, now, env);
      forall j :: 0 <= j < |s.modules| && j != i ==> SameButNeed(s.modules[j], r.modules[j])
  {}

  predicate Overdue(m: Module, now: int) {
    m.lastUpdate + 1000 * m.killTimeout < now &&
    (m.lastUpdate == m.initDate ==> m.initDate + 1000 * m.FirstPingTimeout() <= now)
  }

  /** A process that is past its deadlines, for the second time. */
  predicate Silenced(m: Module, now: int) {
    m.process != NotRunning && Overdue(m, now) && m.noResponseCount > 0
  }

  lemma SilencedIgnoresNeed(m: Module, m': Module, now: int)
    requires SameButNeed(m, m')
    ensures Silenced(m, now) == Silenced(m', now)
  {}

  predicate IsSilenceKill(e: Effect) {
    e.Killed? && e.why == ForSilence
  }

  lemma ClosingIsNotSilence(s: Service, i: nat, ignorePriority: bool, now: int, env: Env, p: nat)
    requires s.Has(i)
    requires |s.trace| <= p < |CloseAt(s, i, ignorePriority, now, env).0.trace|
    ensures !IsSilenceKill(CloseAt(s, i, ignorePriority, now, env).0.trace[p])
  {
    if s.modules[i].process == Running {
      var s1 := s.Put(i, s.modules[i].(needToStart := false));
      assert s1.modules[i].process == Running;
      assert KillAt(s1, i, now, env, ForClosing).0.trace
          == s.trace + [Killed(i, s1.modules[i].lastUpdate == s1.modules[i].initDate, ForClosing)];
    }
  }

  lemma AnswerKillIsOverdue(s: Service, i: nat, now: int, env: Env, p: nat)
    requires s.Has(i)
    requires var t := CheckAnswer(s, i, now, env).trace; |s.trace| <= p < |t| && IsSilenceKill(t[p])
    ensures CheckAnswer(s, i, now, env).trace[p].id == i
    ensures Overdue(s.modules[i], now) && s.modules[i].noResponseCount > 0
  {}

  lemma SilenceKillAt(s: Service, i: nat, now: int, env: Env, p: nat)
    requires s.Has(i)
    requires var t := CheckAt(s, i, now, env).trace; |s.trace| <= p < |t| && IsSilenceKill(t[p])
    ensures CheckAt(s, i, now, env).trace[p].id == i
    ensures Silenced(s.modules[i], now)
  {
    var m := s.modules[i].PopCommand();
    var s1 := s.Put(i, m);
    if !m.needToStart {
      ClosingIsNotSilence(s1, i, true, now, env, p);
    } else if m.process != NotRunning {
      AnswerKillIsOverdue(s1, i, now, env, p);
    }
  }

  lemma CheckExtends(s: Service, i: nat, now: int, env: Env)
    requires s.Has(i)
    ensures s.trace <= CheckAt(s, i, now, env).trace
  {}

  /** A check pass kills a silent module only after both of its deadlines, taken from the
      state the pass began in: a module still without a ping keeps its first-ping time. */
  lemma {:induction false} SilenceKillsAreOverdue(s: Service, i: nat, now: int, env: Env, p: nat)
    requires var t := CheckFrom(s, i, now, env).trace; |s.trace| <= p < |t| && IsSilenceKill(t[p])
    ensures
      var k := CheckFrom(s, i, now, env).trace[p].id;
      i <= k < |s.modules| && Silenced(s.modules[k], now)
    decreases |s.modules| - i
  {
    assert i < |s.modules|;
    var s1 := CheckAt(s, i, now, env);
    var r := CheckFrom(s1, i + 1, now, env);
    CheckExtends(s, i, now, env);
    CheckFromExtends(s1, i + 1, now, env);
    if p < |s1.trace| {
      assert s1.trace[p] == r.trace[p];
      SilenceKillAt(s, i, now, env, p);
    } else {
      SilenceKillsAreOverdue(s1, i + 1, now, env, p);
      SilenceKillCarriesBack(s, i, now, env, r.trace[p].id);
    }
  }

  lemma SilenceKillCarriesBack(s: Service, i: nat, now: int, env: Env, k: nat)
    requires i < k < |s.modules|
    requires Silenced(CheckAt(s, i, now, env).modules[k], now)
    ensures Silenced(s.modules[k], now)
  {
    CheckLeavesOthers(s, i, now, env);
    SilencedIgnoresNeed(s.modules[k], CheckAt(s, i, now, env).modules[k], now);
  }

  lemma {:induction false} CheckFromExtends(s: Service, i: nat, now: int, env: Env)
    ensures s.trace <= CheckFrom(s, i, now, env).trace
    decreases |s.modules| - i
  {
    if i >= |s.modules| {
    } else {
      CheckExtends(s, i, now, env);
      CheckFromExtends(CheckAt(s, i, now, env), i + 1, now, env);
    }
  }

  // ---------------------------------------------------------------- first-ping back-off

  function Capped(t: nat): nat {
    if t < FIRST_PING_MAX then t else FIRST_PING_MAX
  }

  predicate EndsKillStreak(e: Effect, i: nat) {
    e == Touched(i) || e.Loaded? || (e.Killed? && e.id == i && !e.duringStartup)
  }

  function StartupKillsIn(t: seq<Effect>, i: nat): nat {
    if t == [] then 0
    else StartupKillsIn(t[..|t| - 1], i) +
         if t[|t| - 1].Killed? && t[|t| - 1].id == i && t[|t| - 1].duringStartup then 1 else 0
  }

  lemma {:induction false} StartupKillsCounted(t: seq<Effect>, p: nat, i: nat)
    requires p <= |t|
    requires p == 0 || EndsKillStreak(t[p - 1], i)
    requires forall q :: p <= q < |t| ==> !EndsKillStreak(t[q], i)
    ensures HistoryOf(t, i).startupKills == StartupKillsIn(t[p..], i)
  {
    if p >= |t| {
    } else {
      var u := t[..|t| - 1];
      assert t[p..][..|t[p..]| - 1] == u[p..];
      StartupKillsCounted(u, p, i);
    }
  }

  /** The timeout is ten seconds more for each of `n` kills, capped, just when the unsigned sum
      does not wrap below the cap. */
  predicate BackoffExact(m: Module, n: nat) {
    var wanted := m.firstPingTimeout + FIRST_PING_INCREMENT * n;
    m.FirstPingTimeout() == Capped(wanted) <==> wanted < TWO_TO_THE_32 || wanted % TWO_TO_THE_32 >= FIRST_PING_MAX
  }

  lemma BackoffFormula(m: Module, h: History)
    requires Agrees(m, h)
    ensures BackoffExact(m, h.startupKills)
  {}

  lemma BackoffAt(s: Service, i: nat, p: nat)
    requires Inv(s) && s.Has(i) && p <= |s.trace| && (p == 0 || EndsKillStreak(s.trace[p - 1], i))
    requires forall q :: p <= q < |s.trace| ==> !EndsKillStreak(s.trace[q], i)
    ensures BackoffExact(s.modules[i], StartupKillsIn(s.trace[p..], i))
  {
    assert Agrees(s.modules[i], HistoryOf(s.trace, i));
    StartupKillsCounted(s.trace, p, i);
    BackoffFormula(s.modules[i], HistoryOf(s.trace, i));
  }

  /** After `n` kills during start-up with no ping and no other kill since position `p`, the
      first-ping timeout is the base plus ten seconds for each, capped, in every reachable
      state; the formula is exact just when the unsigned sum does not wrap below the cap. */
  lemma FirstPingBackoff(config: seq<Module>, now: int, ts: seq<Timed>, i: nat, p: nat)
    requires var s := Run(Boot(config, now), ts);
      s.Has(i) && p <= |s.trace| && (p == 0 || EndsKillStreak(s.trace[p - 1], i)) &&
      forall q :: p <= q < |s.trace| ==> !EndsKillStreak(s.trace[q], i)
    ensures
      var s := Run(Boot(config, now), ts);
      BackoffExact(s.modules[i], StartupKillsIn(s.trace[p..], i))
  {
    InvEverywhere(config, now, ts);
    BackoffAt(Run(Boot(config, now), ts), i, p);
  }

  // ---------------------------------------------------------------- exclusive start

  predicate ChangesSaved(e: Effect) {
    e.Loaded? || e.FlagsSaved?
  }

  lemma {:induction false} SavedStays(t: seq<Effect>, q: nat)
    requires q < |t| && t[q].FlagsSaved?
    requires forall r :: q < r < |t| ==> !ChangesSaved(t[r])
    ensures MarksOf(t).saved == t[q].flags
  {
    if q == |t| - 1 {
    } else {
      SavedStays(t[..|t| - 1], q);
    }
  }

  /** The start command of an exclusive module first saves which modules were needed just
      before it, whatever follows. */
  lemma ExclusiveStartSaves(s: Service, i: nat)
    requires s.Has(i) && s.modules[i].exclusive
    ensures s.trace + [FlagsSaved(NeedFlags(s.modules))] <= OrderStart(s, i).trace
    ensures forall j :: 0 <= j < |s.modules| && j != i ==> !OrderStart(s, i).modules[j].needToStart
  {}

  lemma {:induction false} ExclusiveStays(t: seq<Effect>, q: nat)
    requires q <= |t| && forall r :: q <= r < |t| ==> !t[r].Loaded?
    ensures MarksOf(t).exclusive == MarksOf(t[..q]).exclusive
  {
    if q == |t| {
      assert t[..q] == t;
    } else {
      assert t[..|t| - 1][..q] == t[..q];
      ExclusiveStays(t[..|t| - 1], q);
    }
  }

  lemma CloseExtends(s: Service, i: nat, ignorePriority: bool, now: int, env: Env)
    requires s.Has(i)
    ensures s.trace <= CloseAt(s, i, ignorePriority, now, env).0.trace
  {}

  lemma {:induction false} CloseFromExtends(s: Service, i: nat, c: bool, now: int, env: Env)
    ensures s.trace <= CloseFrom(s, i, c, now, env).0.trace
    decreases |s.modules| - i
  {
    if i >= |s.modules| {
    } else {
      CloseExtends(s, i, false, now, env);
      var (s1, c1) := CloseNext(s, i, c, now, env);
      CloseFromExtends(s1, i + 1, c1, now, env);
    }
  }

  lemma OrderCloseAllExtends(s: Service, action: CloseAction, sender: string, now: int, env: Env)
    ensures s.trace <= OrderCloseAll(s, action, sender, now, env).trace
  {
    CloseFromExtends(s.(modules := Unneeded(s.modules), action := action, timerActive := false), 0, true, now, env);
  }

  lemma ReceiveExtends(s: Service, msg: Message, now: int, env: Env)
    ensures s.trace <= Receive(s, msg, now, env).trace
  {
    var i := Find(s.modules, msg.target);
    match msg.command
    case StartModule => if i.Some? { CheckFromExtends(OrderStart(s, i.value), 0, now, env); }
    case CloseModule => if i.Some? { CheckFromExtends(OrderClose(s, i.value), 0, now, env); }
    case Restart => OrderCloseAllExtends(s, RestartModules, "watchdog", now, env);
    case CloseAll => OrderCloseAllExtends(s, NoAction, msg.sender, now, env);
    case Exit => OrderCloseAllExtends(s, ExitService, "watchdog", now, env);
    case Reboot => OrderCloseAllExtends(s, RebootSystem, "watchdog", now, env);
    case Shutdown => OrderCloseAllExtends(s, ShutdownSystem, "watchdog", now, env);
    case OtherCommand =>
  }

  lemma {:induction false} AutoStartExtends(s: Service, i: nat, now: int, envs: nat -> Env)
    ensures s.trace <= AutoStartFrom(s, i, now, envs).trace
    decreases |s.modules| - i
  {
    if i >= |s.modules| {
    } else if s.modules[i].autoStart && !s.modules[i].needToStart {
      CheckFromExtends(RearmAt(s, i), 0, now, envs(i));
      AutoStartExtends(CheckPass(RearmAt(s, i), now, envs(i)), i + 1, now, envs);
    } else {
      AutoStartExtends(s, i + 1, now, envs);
    }
  }

  lemma StepExtends(s: Service, t: Timed)
    ensures s.trace <= Step(s, t).trace
  {
    match t.event
    case Received(msg, env) => ReceiveExtends(s, msg, t.now, env);
    case CheckTick(env) => CheckFromExtends(s, 0, t.now, env);
    case CloseTick(env) => CloseFromExtends(s.(timerActive := false), 0, true, t.now, env);
    case AutoStartTick(envs) => AutoStartExtends(s, 0, t.now, envs);
    case _ =>
  }

  lemma {:induction false} RunExtends(s: Service, ts: seq<Timed>)
    ensures s.trace <= Run(s, ts).trace
    decreases |ts|
  {
    if ts == [] {
    } else {
      StepExtends(s, ts[0]);
      RunExtends(Step(s, ts[0]), ts[1..]);
    }
  }

  predicate StartsExclusive(s: Service, t: Timed) {
    t.event.Received? && t.event.msg.command == StartModule &&
    var i := Find(s.modules, t.event.msg.target);
    i.Some? && s.modules[i.value].exclusive
  }

  lemma StartIsSaved(s: Service, t: Timed, after: seq<Timed>)
    requires StartsExclusive(s, t)
    ensures var r := Run(Step(s, t), after).trace; |s.trace| < |r| && r[|s.trace|] == FlagsSaved(NeedFlags(s.modules))
  {
    var i := Find(s.modules, t.event.msg.target).value;
    ExclusiveStartSaves(s, i);
    CheckFromExtends(OrderStart(s, i), 0, t.now, t.event.env);
    RunExtends(Step(s, t), after);
    var saved := s.trace + [FlagsSaved(NeedFlags(s.modules))];
    assert saved <= OrderStart(s, i).trace <= Step(s, t).trace <= Run(Step(s, t), after).trace;
    assert saved[|s.trace|] == FlagsSaved(NeedFlags(s.modules));
  }

  /** The flags recorded when an exclusive module uses up its starts are, for every other
      non-exclusive module, those that were saved last. */
  lemma SavedFlagsReturn(t: seq<Effect>, q: nat, p: nat, j: nat)
    requires AllJustified(t) && q < p < |t| && t[q].FlagsSaved? && t[p].LimitReached?
    requires forall r :: q < r < p ==> !ChangesSaved(t[r])
    requires var exclusive := MarksOf(t[..p]).exclusive;
      t[p].id < |exclusive| && exclusive[t[p].id] && j < |exclusive| && !exclusive[j]
    ensures j < |t[p].flags| && j < |t[q].flags| && t[p].flags[j] == t[q].flags[j]
  {
    assert Justified(t[..p], t[p]);
    SavedStays(t[..p], q);
  }

  /** When an exclusive module uses up its starts, every other non-exclusive module is needed
      again exactly if it was needed just before the latest exclusive start command `t`, no
      matter what happened in between. */
  lemma ExclusiveRestores(config: seq<Module>, now: int, before: seq<Timed>, t: Timed, after: seq<Timed>,
                          p: nat, j: nat)
    requires var s := Run(Boot(config, now), before);
      var r := Run(Step(s, t), after).trace;
      StartsExclusive(s, t) && |s.trace| < p < |r| && r[p].LimitReached? &&
      (forall k :: |s.trace| < k < p ==> !ChangesSaved(r[k])) &&
      s.Has(r[p].id) && s.modules[r[p].id].exclusive && s.Has(j) && !s.modules[j].exclusive
    ensures
      var s := Run(Boot(config, now), before);
      var r := Run(Step(s, t), after).trace;
      j < |r[p].flags| && r[p].flags[j] == s.modules[j].needToStart
  {
    var s := Run(Boot(config, now), before);
    var r := Run(Step(s, t), after).trace;
    var q := |s.trace|;
    InvEverywhere(config, now, before);
    KeepsStep(s, t);
    KeepsRun(Step(s, t), after);
    StartIsSaved(s, t, after);
    StepExtends(s, t);
    RunExtends(Step(s, t), after);
    assert r[..p][..q] == s.trace;
    ExclusiveStays(r[..p], q);
    SavedFlagsReturn(r, q, p, j);
  }
}
