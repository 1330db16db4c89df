/** A change of the system clock changes nothing the watchdog does: after `onTimeChanged(d)`
    every later event, with the clock shifted by `d`, has the same effects and ends in the
    shifted state. */
module WatchClock {
  import opened Common
  import opened WatchModel

  function Moved(m: Module, d: int): Module {
    m.(initDate := m.initDate + d, lastUpdate := m.lastUpdate + d)
  }

  lemma ShiftedPut(s: Service, i: nat, m: Module, d: int)
    requires s.Has(i)
    ensures Shifted(s.Put(i, m), d) == Shifted(s, d).Put(i, Moved(m, d))
  {
    assert ShiftedModules(s.modules[i := m], d) == ShiftedModules(s.modules, d)[i := Moved(m, d)];
  }

  /** Two services agree up to a clock shift by `d`. */
  ghost predicate Apart(a: Service, b: Service, d: int) {
    b == Shifted(a, d)
  }

  lemma PutApart(a: Service, b: Service, d: int, i: nat, m: Module, m': Module)
    requires Apart(a, b, d) && a.Has(i) && m' == Moved(m, d)
    ensures Apart(a.Put(i, m), b.Put(i, m'), d)
  {
    ShiftedPut(a, i, m, d);
  }

  lemma GatesAgree(ms: seq<Module>, i: nat, d: int)
    requires i < |ms|
    ensures CanRun(ShiftedModules(ms, d), i) == CanRun(ms, i)
    ensures CanTerminate(ShiftedModules(ms, d), i) == CanTerminate(ms, i)
  {
    var ns := ShiftedModules(ms, d);
    assert forall j :: 0 <= j < |ms| ==> BlocksStart(ns[j], ns[i]) == BlocksStart(ms[j], ms[i]);
    assert forall j :: 0 <= j < |ms| ==> BlocksClose(ns[j], ns[i]) == BlocksClose(ms[j], ms[i]);
  }

  lemma KillApart(a: Service, b: Service, d: int, i: nat, now: int, env: Env, why: Killer)
    requires Apart(a, b, d) && a.Has(i)
    ensures Apart(KillAt(a, i, now, env, why).0, KillAt(b, i, now + d, env, why).0, d)
    ensures KillAt(a, i, now, env, why).1 == KillAt(b, i, now + d, env, why).1
  {
    var o := env.kill(i);
    var a1, b1 := a, b;
    if a.modules[i].process == Starting && o.startedFirst {
      PutApart(a, b, d, i, a.modules[i].StartUp(now), b.modules[i].StartUp(now + d));
      a1, b1 := StartUpAt(a, i, now), StartUpAt(b, i, now + d);
    }
    PutApart(a1, b1, d, i, a1.modules[i].Reap(o), b1.modules[i].Reap(o));
  }

  lemma CloseApart(a: Service, b: Service, d: int, i: nat, ignorePriority: bool, now: int, env: Env)
    requires Apart(a, b, d) && a.Has(i)
    ensures Apart(CloseAt(a, i, ignorePriority, now, env).0, CloseAt(b, i, ignorePriority, now + d, env).0, d)
    ensures CloseAt(a, i, ignorePriority, now, env).1 == CloseAt(b, i, ignorePriority, now + d, env).1
  {
    if a.modules[i].process == Running {
      var m, n := a.modules[i].(needToStart := false), b.modules[i].(needToStart := false);
      PutApart(a, b, d, i, m, n);
      GatesAgree(a.Put(i, m).modules, i, d);
      if m.lastUpdate + 1000 * m.CloseTimeout() < now {
        KillApart(a.Put(i, m), b.Put(i, n), d, i, now, env, ForClosing);
      }
    }
  }

  lemma GiveUpApart(a: Service, b: Service, d: int, i: nat)
    requires Apart(a, b, d) && a.Has(i)
    ensures Apart(GiveUp(a, i), GiveUp(b, i), d)
  {
    var ms := a.modules[i := a.modules[i].(needToStart := false)];
    var ns := b.modules[i := b.modules[i].(needToStart := false)];
    assert ns == ShiftedModules(ms, d);
    assert Restored(ns, i) == ShiftedModules(Restored(ms, i), d);
    assert NeedFlags(ns) == NeedFlags(ms);
    assert NeedFlags(Restored(ns, i)) == NeedFlags(Restored(ms, i));
  }

  lemma SilenceKillApart(a: Service, b: Service, d: int, i: nat, now: int, env: Env)
    requires Apart(a, b, d) && a.Has(i)
    ensures
      var a1, b1 := KillAt(a, i, now, env, ForSilence).0, KillAt(b, i, now + d, env, ForSilence).0;
      Apart(a1.Put(i, a1.modules[i].(noResponseCount := 0)), b1.Put(i, b1.modules[i].(noResponseCount := 0)), d)
  {
    KillApart(a, b, d, i, now, env, ForSilence);
    var a1, b1 := KillAt(a, i, now, env, ForSilence).0, KillAt(b, i, now + d, env, ForSilence).0;
    PutApart(a1, b1, d, i, a1.modules[i].(noResponseCount := 0), b1.modules[i].(noResponseCount := 0));
  }

  lemma CountApart(a: Service, b: Service, d: int, i: nat, count: int, e: Effect)
    requires Apart(a, b, d) && a.Has(i)
    ensures Apart(a.Put(i, a.modules[i].(noResponseCount := count)).Emit(e),
                  b.Put(i, b.modules[i].(noResponseCount := count)).Emit(e), d)
  {
    PutApart(a, b, d, i, a.modules[i].(noResponseCount := count), b.modules[i].(noResponseCount := count));
  }

  lemma SameDeadlines(m: Module, d: int, now: int)
    ensures var n := Moved(m, d);
      && (n.initDate == n.lastUpdate && n.initDate + 1000 * n.FirstPingTimeout() > now + d
          <==> m.initDate == m.lastUpdate && m.initDate + 1000 * m.FirstPingTimeout() > now)
      && (n.lastUpdate + 1000 * n.killTimeout < now + d <==> m.lastUpdate + 1000 * m.killTimeout < now)
      && n.noResponseCount == m.noResponseCount
  {}

  lemma AnswerApart(a: Service, b: Service, d: int, i: nat, now: int, env: Env)
    requires Apart(a, b, d) && a.Has(i)
    ensures Apart(CheckAnswer(a, i, now, env), CheckAnswer(b, i, now + d, env), d)
  {
    var m := a.modules[i];
    SameDeadlines(m, d, now);
    if m.initDate == m.lastUpdate && m.initDate + 1000 * m.FirstPingTimeout() > now {
    } else if m.lastUpdate + 1000 * m.killTimeout < now {
      if m.noResponseCount > 0 {
        SilenceKillApart(a, b, d, i, now, env);
      } else {
        CountApart(a, b, d, i, m.noResponseCount + 1, Missed(i));
      }
    } else {
      CountApart(a, b, d, i, 0, OnTime(i));
    }
  }

  lemma TryStartApart(a: Service, b: Service, d: int, i: nat, env: Env)
    requires Apart(a, b, d) && a.Has(i)
    ensures Apart(LaunchAt(a, i, env), LaunchAt(b, i, env), d)
    ensures CanRun(b.modules, i) == CanRun(a.modules, i) && LimitHit(b.modules[i]) == LimitHit(a.modules[i])
  {
    GatesAgree(a.modules, i, d);
    var p := if env.launch(i) then Starting else NotRunning;
    PutApart(a, b, d, i, a.modules[i].(process := p), b.modules[i].(process := p));
  }

  lemma CheckApart(a0: Service, b0: Service, d: int, i: nat, now: int, env: Env)
    requires Apart(a0, b0, d) && a0.Has(i)
    ensures Apart(CheckAt(a0, i, now, env), CheckAt(b0, i, now + d, env), d)
  {
    var m, n := a0.modules[i].PopCommand(), b0.modules[i].PopCommand();
    PutApart(a0, b0, d, i, m, n);
    var a, b := a0.Put(i, m), b0.Put(i, n);
    if !m.needToStart {
      CloseApart(a, b, d, i, true, now, env);
    } else if m.process == NotRunning {
      TryStartApart(a, b, d, i, env);
      GiveUpApart(a, b, d, i);
    } else {
      AnswerApart(a, b, d, i, now, env);
    }
  }

  lemma {:induction false} CheckFromApart(a: Service, b: Service, d: int, i: nat, now: int, env: Env)
    requires Apart(a, b, d)
    ensures Apart(CheckFrom(a, i, now, env), CheckFrom(b, i, now + d, env), d)
    decreases |a.modules| - i
  {
    if i >= |a.modules| {
    } else {
      CheckApart(a, b, d, i, now, env);
      CheckFromApart(CheckAt(a, i, now, env), CheckAt(b, i, now + d, env), d, i + 1, now, env);
    }
  }

  lemma {:induction false} CloseFromApart(a: Service, b: Service, d: int, i: nat, c: bool, now: int, env: Env)
    requires Apart(a, b, d)
    ensures Apart(CloseFrom(a, i, c, now, env).0, CloseFrom(b, i, c, now + d, env).0, d)
    ensures CloseFrom(a, i, c, now, env).1 == CloseFrom(b, i, c, now + d, env).1
    decreases |a.modules| - i
  {
    if i >= |a.modules| {
    } else {
      CloseApart(a, b, d, i, false, now, env);
      var (a1, c1) := CloseNext(a, i, c, now, env);
      CloseFromApart(a1, CloseNext(b, i, c, now + d, env).0, d, i + 1, c1, now, env);
    }
  }

  lemma ClosePassApart(a: Service, b: Service, d: int, sender: string, now: int, env: Env)
    requires Apart(a, b, d)
    ensures Apart(ClosePass(a, sender, now, env).0, ClosePass(b, sender, now + d, env).0, d)
    ensures ClosePass(a, sender, now, env).1 == ClosePass(b, sender, now + d, env).1
  {
    CloseFromApart(a.(timerActive := false), b.(timerActive := false), d, 0, true, now, env);
  }

  lemma OrderStartApart(a: Service, b: Service, d: int, i: nat)
    requires Apart(a, b, d) && a.Has(i)
    ensures Apart(OrderStart(a, i), OrderStart(b, i), d)
  {
    var a1, b1 := a, b;
    if a.modules[i].exclusive {
      a1 := a.(modules := Suspended(a.modules)).Emit(FlagsSaved(NeedFlags(a.modules)));
      b1 := b.(modules := Suspended(b.modules)).Emit(FlagsSaved(NeedFlags(b.modules)));
      assert Suspended(b.modules) == ShiftedModules(Suspended(a.modules), d);
      assert NeedFlags(b.modules) == NeedFlags(a.modules);
    }
    var m, n := a1.modules[i], b1.modules[i];
    PutApart(a1, b1, d, i,
             m.(needToStart := true, restartCount := 0, commandStack := m.commandStack + [PushedStart]),
             n.(needToStart := true, restartCount := 0, commandStack := n.commandStack + [PushedStart]));
  }

  lemma OrderCloseApart(a: Service, b: Service, d: int, i: nat)
    requires Apart(a, b, d) && a.Has(i)
    ensures Apart(OrderClose(a, i), OrderClose(b, i), d)
  {
    var m, n := a.modules[i], b.modules[i];
    PutApart(a, b, d, i,
             m.(needToStart := false, commandStack := m.commandStack + [PushedClose]),
             n.(needToStart := false, commandStack := n.commandStack + [PushedClose]));
  }

  lemma OrderCloseAllApart(a: Service, b: Service, d: int, action: CloseAction, sender: string, now: int, env: Env)
    requires Apart(a, b, d)
    ensures Apart(OrderCloseAll(a, action, sender, now, env), OrderCloseAll(b, action, sender, now + d, env), d)
  {
    assert Unneeded(b.modules) == ShiftedModules(Unneeded(a.modules), d);
    ClosePassApart(a.(modules := Unneeded(a.modules), action := action),
                   b.(modules := Unneeded(b.modules), action := action), d, sender, now, env);
  }

  lemma {:induction false} FindFromApart(ms: seq<Module>, d: int, name: string, i: nat)
    requires i <= |ms|
    ensures FindFrom(ShiftedModules(ms, d), name, i) == FindFrom(ms, name, i)
    decreases |ms| - i
  {
    if i >= |ms| {
    } else {
      FindFromApart(ms, d, name, i + 1);
    }
  }

  lemma ObeyApart(a: Service, b: Service, d: int, msg: Message, now: int, env: Env)
    requires Apart(a, b, d)
    ensures Apart(Obey(a, msg, now, env), Obey(b, msg, now + d, env), d)
  {
    FindFromApart(a.modules, d, msg.target, 0);
    var i := Find(a.modules, msg.target);
    match msg.command
    case StartModule =>
      if i.Some? {
        OrderStartApart(a, b, d, i.value);
        CheckFromApart(OrderStart(a, i.value), OrderStart(b, i.value), d, 0, now, env);
      }
    case CloseModule =>
      if i.Some? {
        OrderCloseApart(a, b, d, i.value);
        CheckFromApart(OrderClose(a, i.value), OrderClose(b, i.value), d, 0, now, env);
      }
    case Restart => OrderCloseAllApart(a, b, d, RestartModules, "watchdog", now, env);
    case CloseAll => OrderCloseAllApart(a, b, d, NoAction, msg.sender, now, env);
    case Exit => OrderCloseAllApart(a, b, d, ExitService, "watchdog", now, env);
    case Reboot => OrderCloseAllApart(a, b, d, RebootSystem, "watchdog", now, env);
    case Shutdown => OrderCloseAllApart(a, b, d, ShutdownSystem, "watchdog", now, env);
    case OtherCommand =>
  }

  lemma ReceiveApart(a: Service, b: Service, d: int, msg: Message, now: int, env: Env)
    requires Apart(a, b, d)
    ensures Apart(Receive(a, msg, now, env), Receive(b, msg, now + d, env), d)
  {
    ObeyApart(a, b, d, msg, now, env);
    var a1, b1 := Obey(a, msg, now, env), Obey(b, msg, now + d, env);
    FindFromApart(a1.modules, d, msg.sender, 0);
    var i := Find(a1.modules, msg.sender);
    if i.Some? {
      PutApart(a1, b1, d, i.value, a1.modules[i.value].Touch(now), b1.modules[i.value].Touch(now + d));
    }
  }

  lemma {:induction false} AutoStartApart(a: Service, b: Service, d: int, i: nat, now: int, envs: nat -> Env)
    requires Apart(a, b, d)
    ensures Apart(AutoStartFrom(a, i, now, envs), AutoStartFrom(b, i, now + d, envs), d)
    decreases |a.modules| - i
  {
    if i >= |a.modules| {
    } else {
      if a.modules[i].autoStart && !a.modules[i].needToStart {
        PutApart(a, b, d, i, a.modules[i].(needToStart := true, restartCount := 0),
                             b.modules[i].(needToStart := true, restartCount := 0));
        CheckFromApart(RearmAt(a, i), RearmAt(b, i), d, 0, now, envs(i));
        AutoStartApart(CheckPass(RearmAt(a, i), now, envs(i)), CheckPass(RearmAt(b, i), now + d, envs(i)),
                       d, i + 1, now, envs);
      } else {
        AutoStartApart(a, b, d, i + 1, now, envs);
      }
    }
  }

  lemma SignalApart(a: Service, b: Service, d: int, i: nat, now: int)
    requires Apart(a, b, d) && a.Has(i)
    ensures Apart(StartUpAt(a, i, now), StartUpAt(b, i, now + d), d)
    ensures Apart(a.Put(i, a.modules[i].(process := NotRunning)), b.Put(i, b.modules[i].(process := NotRunning)), d)
  {
    PutApart(a, b, d, i, a.modules[i].StartUp(now), b.modules[i].StartUp(now + d));
    PutApart(a, b, d, i, a.modules[i].(process := NotRunning), b.modules[i].(process := NotRunning));
  }

  function Later(t: Timed, d: int): Timed {
    At(t.now + d, t.event)
  }

  lemma SignalStepApart(a: Service, b: Service, d: int, t: Timed)
    requires Apart(a, b, d)
    requires t.event.ProcessStarted? || t.event.ProcessFinished? || t.event.ProcessFailedToStart?
    ensures Apart(Step(a, t), Step(b, Later(t, d)), d)
  {
    var i := t.event.id;
    if a.Has(i) {
      SignalApart(a, b, d, i, t.now);
      assert b.modules[i].process == a.modules[i].process;
    }
  }

  lemma ShiftApart(a: Service, b: Service, d: int, e: int)
    requires Apart(a, b, d)
    ensures Apart(Shifted(a, e), Shifted(b, e), d)
  {
    assert ShiftedModules(b.modules, e) == ShiftedModules(ShiftedModules(a.modules, e), d);
  }

  lemma LoadApart(a: Service, b: Service, d: int, config: seq<Module>, now: int)
    requires Apart(a, b, d)
    ensures Apart(Load(a, config, now), Load(b, config, now + d), d)
  {
    assert FreshModules(config, now + d) == ShiftedModules(FreshModules(config, now), d);
  }

  lemma PassStepApart(a: Service, b: Service, d: int, t: Timed)
    requires Apart(a, b, d)
    requires t.event.CheckTick? || t.event.CloseTick? || t.event.AutoStartTick?
    ensures Apart(Step(a, t), Step(b, Later(t, d)), d)
  {
    match t.event
    case CheckTick(env) => CheckFromApart(a, b, d, 0, t.now, env);
    case CloseTick(env) => ClosePassApart(a, b, d, "watchdog", t.now, env);
    case AutoStartTick(envs) => AutoStartApart(a, b, d, 0, t.now, envs);
  }

  lemma OtherStepApart(a: Service, b: Service, d: int, t: Timed)
    requires Apart(a, b, d)
    requires t.event.Received? || t.event.ClockChanged? || t.event.Reloaded?
    ensures Apart(Step(a, t), Step(b, Later(t, d)), d)
  {
    match t.event
    case Received(msg, env) => ReceiveApart(a, b, d, msg, t.now, env);
    case ClockChanged(e) => ShiftApart(a, b, d, e);
    case Reloaded(config) => LoadApart(a, b, d, config, t.now);
  }

  lemma StepApart(a: Service, b: Service, d: int, t: Timed)
    requires Apart(a, b, d)
    ensures Apart(Step(a, t), Step(b, Later(t, d)), d)
  {
    var e := t.event;
    if e.ProcessStarted? || e.ProcessFinished? || e.ProcessFailedToStart? {
      SignalStepApart(a, b, d, t);
    } else if e.CheckTick? || e.CloseTick? || e.AutoStartTick? {
      PassStepApart(a, b, d, t);
    } else {
      OtherStepApart(a, b, d, t);
    }
  }

  function AllLater(ts: seq<Timed>, d: int): (r: seq<Timed>)
    ensures |r| == |ts|
    ensures forall i :: 0 <= i < |ts| ==> r[i] == Later(ts[i], d)
  {
    seq(|ts|, i requires 0 <= i < |ts| => Later(ts[i], d))
  }

  lemma {:induction false} RunApart(a: Service, b: Service, d: int, ts: seq<Timed>)
    requires Apart(a, b, d)
    ensures Apart(Run(a, ts), Run(b, AllLater(ts, d)), d)
    decreases |ts|
  {
    if ts == [] {
    } else {
      StepApart(a, b, d, ts[0]);
      assert AllLater(ts, d)[1..] == AllLater(ts[1..], d);
      RunApart(Step(a, ts[0]), Step(b, Later(ts[0], d)), d, ts[1..]);
    }
  }

  /** The clock jumps by `d` at some moment, the watchdog is told, and any events follow at
      shifted times: its trace is the one it would have had without the jump, and it ends in
      the shifted state. */
  lemma ClockChangeIsInvisible(s: Service, now: int, d: int, ts: seq<Timed>)
    ensures
      var jumped := Run(s, [At(now, ClockChanged(d))] + AllLater(ts, d));
      var steady := Run(s, ts);
      jumped.trace == steady.trace && jumped == Shifted(steady, d)
  {
    var t := At(now, ClockChanged(d));
    var rest := AllLater(ts, d);
    assert ([t] + rest)[1..] == rest;
    RunApart(s, Shifted(s, d), d, ts);
  }
}
