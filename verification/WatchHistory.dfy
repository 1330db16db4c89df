/** What holds in every reachable state of the watchdog: its counters are functions of its
    own history. The restart limit, the two-strike kill, the first-ping back-off and the
    restoring of suspended modules follow. */
module WatchHistory {
  import opened Common
  import opened WatchModel

  /** What the trace says about module `i`. */
  datatype History = History(
    missPending: bool,   // a missed deadline, and since then neither an answer in time nor a kill for silence
    startupKills: nat,   // kills during start-up since the last ping or other kill
    starts: nat,         // successful starts since the last reset of the restart counter
    answered: bool,      // a ping since it last came up
    up: bool)            // it came up, and was not launched again since

  const NO_HISTORY := History(false, 0, 0, false, false)

  function Advance(h: History, e: Effect, i: nat): History {
    match e
    case Loaded(_) => NO_HISTORY
    case Launched(id) => if id == i then h.(up := false) else h
    case StartedUp(id) => if id == i then h.(starts := h.starts + 1, answered := false, up := true) else h
    case CountReset(id) => if id == i then h.(starts := 0) else h
    case Touched(id) => if id == i then h.(startupKills := 0, answered := true) else h
    case Missed(id) => if id == i then h.(missPending := true) else h
    case OnTime(id) => if id == i then h.(missPending := false) else h
    case Killed(id, startup, why) =>
      if id != i then h
      else h.(startupKills := if startup then h.startupKills + 1 else 0,
              missPending := why != ForSilence && h.missPending)
    case _ => h
  }

  function HistoryOf(t: seq<Effect>, i: nat): History {
    if t == [] then NO_HISTORY else Advance(HistoryOf(t[..|t| - 1], i), t[|t| - 1], i)
  }

  /** The flags saved by the latest exclusive start (none needed when there was none since
      the modules were loaded), and which modules are exclusive. */
  datatype Marks = Marks(saved: seq<bool>, exclusive: seq<bool>)

  function AdvanceMarks(k: Marks, e: Effect): Marks {
    match e
    case Loaded(exclusive) => Marks(seq(|exclusive|, _ => false), exclusive)
    case FlagsSaved(flags) => k.(saved := flags)
    case _ => k
  }

  function MarksOf(t: seq<Effect>): Marks {
    if t == [] then Marks([], []) else AdvanceMarks(MarksOf(t[..|t| - 1]), t[|t| - 1])
  }

  lemma Appended(t: seq<Effect>, e: Effect)
    ensures forall i: nat :: HistoryOf(t + [e], i) == Advance(HistoryOf(t, i), e, i)
    ensures MarksOf(t + [e]) == AdvanceMarks(MarksOf(t), e)
  {
    assert (t + [e])[..|t|] == t;
  }

  // ---------------------------------------------------------------- the invariant

  predicate Agrees(m: Module, h: History) {
    && m.noResponseCount == (if h.missPending then 1 else 0)
    && m.killOnStartCount == h.startupKills
    && (m.initDate != m.lastUpdate ==> h.answered)
    && (m.process == Running ==> h.up) && (m.process == Starting ==> !h.up)
    && (m.maxStartCount > 0 ==>
          m.restartCount == h.starts <= m.maxStartCount &&
          (m.process == Starting ==> h.starts < m.maxStartCount))
  }

  /** What an effect that ends the trace `t + [e]` promises about `t`. */
  predicate Justified(t: seq<Effect>, e: Effect) {
    match e
    case Killed(id, _, ForSilence) => HistoryOf(t, id).missPending
    case LimitReached(id, flags) =>
      var k := MarksOf(t);
      |flags| == |k.saved| == |k.exclusive| && id < |flags| && !flags[id] &&
      (k.exclusive[id] ==> forall j :: 0 <= j < |flags| && j != id && !k.exclusive[j] ==> flags[j] == k.saved[j])
    case _ => true
  }

  predicate AllJustified(t: seq<Effect>) {
    forall p :: 0 <= p < |t| ==> Justified(t[..p], t[p])
  }

  predicate Marked(ms: seq<Module>, k: Marks) {
    |ms| == |k.saved| == |k.exclusive| &&
    forall i :: 0 <= i < |ms| ==> ms[i].previousNeedToStart == k.saved[i] && ms[i].exclusive == k.exclusive[i]
  }

  predicate Inv(s: Service) {
    && (forall i :: 0 <= i < |s.modules| ==> Agrees(s.modules[i], HistoryOf(s.trace, i)))
    && Marked(s.modules, MarksOf(s.trace))
    && AllJustified(s.trace)
  }

  predicate SameMarks(m: Module, m': Module) {
    m'.previousNeedToStart == m.previousNeedToStart && m'.exclusive == m.exclusive
  }

  lemma JustifiedAppended(t: seq<Effect>, e: Effect)
    requires AllJustified(t) && Justified(t, e)
    ensures AllJustified(t + [e])
  {
    forall p | 0 <= p < |t + [e]| ensures Justified((t + [e])[..p], (t + [e])[p]) {
      assert (t + [e])[..p] == t[..p];
      assert t[..|t|] == t;
    }
  }

  /** One module changes and one effect about that module is recorded. */
  lemma KeepsPutEmit(s: Service, i: nat, m: Module, e: Effect)
    requires Inv(s) && s.Has(i) && SameMarks(s.modules[i], m)
    requires Agrees(m, Advance(HistoryOf(s.trace, i), e, i))
    requires forall j: nat, h: History :: j != i ==> Advance(h, e, j) == h
    requires AdvanceMarks(MarksOf(s.trace), e) == MarksOf(s.trace)
    requires Justified(s.trace, e)
    ensures Inv(s.Put(i, m).Emit(e))
  {
    Appended(s.trace, e);
    JustifiedAppended(s.trace, e);
  }

  lemma KeepsPut(s: Service, i: nat, m: Module)
    requires Inv(s) && s.Has(i) && SameMarks(s.modules[i], m)
    requires Agrees(m, HistoryOf(s.trace, i))
    ensures Inv(s.Put(i, m))
  {}

  /** An effect that no history looks at. */
  predicate Silent(e: Effect) {
    e.CloseSent? || e.ModuleClosedSent? || e.CloseForwarded? || e.AutoStartScheduled? ||
    e.RetryScheduled? || e.CloseBroadcast? || e.UpdaterCloseSent? || e.Closed?
  }

  lemma KeepsEmitted(s: Service, e: Effect)
    requires Inv(s) && Justified(s.trace, e) && (Silent(e) || e.LimitReached?)
    ensures Inv(s.Emit(e))
  {
    Appended(s.trace, e);
    JustifiedAppended(s.trace, e);
  }

  lemma KeepsEmit(s: Service, e: Effect)
    requires Inv(s) && Silent(e)
    ensures Inv(s.Emit(e))
  {
    KeepsEmitted(s, e);
  }

  // ---------------------------------------------------------------- kept by every step

  lemma AgreesAfterReap(m: Module, h: History, i: nat, outcome: KillOutcome, why: Killer)
    requires Agrees(m, h)
    ensures
      var r := m.Reap(outcome);
      Agrees(if why == ForSilence then r.(noResponseCount := 0) else r,
             Advance(h, Killed(i, m.lastUpdate == m.initDate, why), i))
  {}

  lemma PutAgain(s: Service, i: nat, first: Module, second: Module, e: Effect)
    requires s.Has(i)
    ensures s.Put(i, first).Emit(e).Put(i, second) == s.Put(i, second).Emit(e)
  {
    assert s.modules[i := first][i := second] == s.modules[i := second];
  }

  lemma KeepsReap(s: Service, i: nat, outcome: KillOutcome, why: Killer)
    requires Inv(s) && s.Has(i)
    requires why == ForSilence ==> HistoryOf(s.trace, i).missPending
    ensures
      var r := ReapAt(s, i, outcome, why);
      Inv(if why == ForSilence then r.Put(i, r.modules[i].(noResponseCount := 0)) else r)
  {
    var m := s.modules[i];
    var e := Killed(i, m.lastUpdate == m.initDate, why);
    var r := m.Reap(outcome);
    AgreesAfterReap(m, HistoryOf(s.trace, i), i, outcome, why);
    if why == ForSilence {
      var after := r.(noResponseCount := 0);
      KeepsPutEmit(s, i, after, e);
      PutAgain(s, i, r, after, e);
    } else {
      KeepsPutEmit(s, i, r, e);
      assert ReapAt(s, i, outcome, why) == s.Put(i, r).Emit(e);
    }
  }

  lemma KeepsKill(s: Service, i: nat, now: int, env: Env, why: Killer)
    requires Inv(s) && s.Has(i)
    requires why == ForSilence ==> HistoryOf(s.trace, i).missPending
    ensures why == ForClosing ==> Inv(KillAt(s, i, now, env, why).0)
    ensures why == ForSilence ==>
      var r := KillAt(s, i, now, env, why).0;
      Inv(r.Put(i, r.modules[i].(noResponseCount := 0)))
  {
    var o := env.kill(i);
    var s1 := s;
    if s.modules[i].process == Starting && o.startedFirst {
      s1 := StartUpAt(s, i, now);
      KeepsPutEmit(s, i, s.modules[i].StartUp(now), StartedUp(i));
      Appended(s.trace, StartedUp(i));
    }
    KeepsReap(s1, i, o, why);
  }

  lemma KeepsClose(s: Service, i: nat, ignorePriority: bool, now: int, env: Env)
    requires Inv(s) && s.Has(i)
    ensures Inv(CloseAt(s, i, ignorePriority, now, env).0)
  {
    if s.modules[i].process == Running {
      var m := s.modules[i].(needToStart := false);
      var s1 := s.Put(i, m);
      KeepsPut(s, i, m);
      if CanTerminate(s1.modules, i) || ignorePriority {
        if m.lastUpdate + 1000 * m.CloseTimeout() < now {
          KeepsKill(s1, i, now, env, ForClosing);
          KeepsEmit(KillAt(s1, i, now, env, ForClosing).0, CloseSent(i));
        } else {
          KeepsEmit(s1, CloseSent(i));
        }
      }
    }
  }

  /** Only `needToStart` changes, in any number of modules. */
  lemma KeepsNeeds(s: Service, ms: seq<Module>)
    requires Inv(s) && |ms| == |s.modules|
    requires forall i :: 0 <= i < |ms| ==> ms[i] == s.modules[i].(needToStart := ms[i].needToStart)
    ensures Inv(s.(modules := ms))
  {
    forall i | 0 <= i < |ms| ensures Agrees(ms[i], HistoryOf(s.trace, i)) && SameMarks(s.modules[i], ms[i]) {
      assert Agrees(s.modules[i], HistoryOf(s.trace, i));
    }
  }

  lemma KeepsGiveUp(s: Service, i: nat)
    requires Inv(s) && s.Has(i)
    ensures Inv(GiveUp(s, i))
  {
    var ms := s.modules[i := s.modules[i].(needToStart := false)];
    var ms' := if ms[i].exclusive then Restored(ms, i) else ms;
    var e := LimitReached(i, NeedFlags(ms'));
    KeepsNeeds(s, ms');
    assert Marked(s.modules, MarksOf(s.trace));
    assert Justified(s.trace, e);
    var s1 := s.(modules := ms');
    assert GiveUp(s, i) == s1.Emit(e);
    KeepsEmitted(s1, e);
  }

  lemma KeepsCount(s: Service, i: nat, count: int, e: Effect)
    requires Inv(s) && s.Has(i)
    requires (e == Missed(i) && s.modules[i].noResponseCount == 0 && count == 1) || (e == OnTime(i) && count == 0)
    ensures Inv(s.Put(i, s.modules[i].(noResponseCount := count)).Emit(e))
  {
    KeepsPutEmit(s, i, s.modules[i].(noResponseCount := count), e);
  }

  lemma KeepsSilenceKill(s: Service, i: nat, now: int, env: Env)
    requires Inv(s) && s.Has(i) && s.modules[i].noResponseCount > 0
    ensures
      var r := KillAt(s, i, now, env, ForSilence).0;
      Inv(r.Put(i, r.modules[i].(noResponseCount := 0)))
  {
    assert Agrees(s.modules[i], HistoryOf(s.trace, i));
    KeepsKill(s, i, now, env, ForSilence);
  }

  lemma KeepsCheckAnswer(s: Service, i: nat, now: int, env: Env)
    requires Inv(s) && s.Has(i)
    ensures Inv(CheckAnswer(s, i, now, env))
  {
    var m := s.modules[i];
    if m.initDate == m.lastUpdate && m.initDate + 1000 * m.FirstPingTimeout() > now {
    } else if m.lastUpdate + 1000 * m.killTimeout < now {
      if m.noResponseCount > 0 {
        KeepsSilenceKill(s, i, now, env);
      } else {
        KeepsCount(s, i, m.noResponseCount + 1, Missed(i));
      }
    } else {
      KeepsCount(s, i, 0, OnTime(i));
    }
  }

  lemma KeepsLaunch(s: Service, i: nat, env: Env)
    requires Inv(s) && s.Has(i) && s.modules[i].process == NotRunning && !LimitHit(s.modules[i])
    ensures Inv(LaunchAt(s, i, env))
  {
    var m := s.modules[i].(process := if env.launch(i) then Starting else NotRunning);
    KeepsPutEmit(s, i, m, Launched(i));
    assert LaunchAt(s, i, env) == s.Put(i, m).Emit(Launched(i));
  }

  lemma KeepsCheck(s0: Service, i: nat, now: int, env: Env)
    requires Inv(s0) && s0.Has(i)
    ensures Inv(CheckAt(s0, i, now, env))
  {
    var m := s0.modules[i].PopCommand();
    var s := s0.Put(i, m);
    KeepsPut(s0, i, m);
    if !m.needToStart {
      KeepsClose(s, i, true, now, env);
    } else if m.process == NotRunning {
      if CanRun(s.modules, i) {
        if LimitHit(m) {
          KeepsGiveUp(s, i);
        } else {
          KeepsLaunch(s, i, env);
        }
      }
    } else {
      KeepsCheckAnswer(s, i, now, env);
    }
  }

  lemma {:induction false} KeepsCheckFrom(s: Service, i: nat, now: int, env: Env)
    requires Inv(s)
    ensures Inv(CheckFrom(s, i, now, env))
    decreases |s.modules| - i
  {
    if i >= |s.modules| {
    } else {
      KeepsCheck(s, i, now, env);
      KeepsCheckFrom(CheckAt(s, i, now, env), i + 1, now, env);
    }
  }

  lemma {:induction false} KeepsCloseFrom(s: Service, i: nat, canClose: bool, now: int, env: Env)
    requires Inv(s)
    ensures Inv(CloseFrom(s, i, canClose, now, env).0)
    decreases |s.modules| - i
  {
    if i >= |s.modules| {
    } else {
      KeepsClose(s, i, false, now, env);
      var (s1, closed) := CloseAt(s, i, false, now, env);
      KeepsEmit(s1, RetryScheduled);
      var (s2, canClose2) := CloseNext(s, i, canClose, now, env);
      KeepsCloseFrom(s2, i + 1, canClose2, now, env);
    }
  }

  lemma KeepsClosePass(s: Service, sender: string, now: int, env: Env)
    requires Inv(s)
    ensures Inv(ClosePass(s, sender, now, env).0)
  {
    var s0 := s.(timerActive := false);
    KeepsCloseFrom(s0, 0, true, now, env);
    var s1 := CloseFrom(s0, 0, true, now, env).0;
    var e := if sender == "updater" then CloseBroadcast else UpdaterCloseSent;
    KeepsEmit(s1, e);
    KeepsEmit(s1.Emit(e), Closed(s1.action));
  }

  lemma KeepsSuspend(s: Service)
    requires Inv(s)
    ensures Inv(s.(modules := Suspended(s.modules)).Emit(FlagsSaved(NeedFlags(s.modules))))
  {
    var e := FlagsSaved(NeedFlags(s.modules));
    Appended(s.trace, e);
    JustifiedAppended(s.trace, e);
  }

  lemma KeepsOrderStart(s: Service, i: nat)
    requires Inv(s) && s.Has(i)
    ensures Inv(OrderStart(s, i))
  {
    var s1 := s;
    if s.modules[i].exclusive {
      KeepsSuspend(s);
      s1 := s.(modules := Suspended(s.modules)).Emit(FlagsSaved(NeedFlags(s.modules)));
    }
    var m := s1.modules[i];
    var m' := m.(needToStart := true, restartCount := 0, commandStack := m.commandStack + [PushedStart]);
    KeepsPutEmit(s1, i, m', CountReset(i));
    assert OrderStart(s, i) == s1.Put(i, m').Emit(CountReset(i));
  }

  lemma KeepsOrderCloseAll(s: Service, action: CloseAction, sender: string, now: int, env: Env)
    requires Inv(s)
    ensures Inv(OrderCloseAll(s, action, sender, now, env))
  {
    KeepsNeeds(s, Unneeded(s.modules));
    KeepsClosePass(s.(modules := Unneeded(s.modules), action := action), sender, now, env);
  }

  lemma KeepsObey(s: Service, msg: Message, now: int, env: Env)
    requires Inv(s)
    ensures Inv(Obey(s, msg, now, env))
  {
    var i := Find(s.modules, msg.target);
    match msg.command
    case StartModule =>
      if i.Some? {
        KeepsOrderStart(s, i.value);
        KeepsCheckFrom(OrderStart(s, i.value), 0, now, env);
      }
    case CloseModule =>
      if i.Some? {
        var m := s.modules[i.value];
        var m' := m.(needToStart := false, commandStack := m.commandStack + [PushedClose]);
        KeepsPut(s, i.value, m');
        KeepsEmit(s.Put(i.value, m'), AutoStartScheduled);
        KeepsCheckFrom(OrderClose(s, i.value), 0, now, env);
      } else {
        KeepsEmit(s, CloseForwarded(msg.target));
      }
    case Restart => KeepsOrderCloseAll(s, RestartModules, "watchdog", now, env);
    case CloseAll => KeepsOrderCloseAll(s, NoAction, msg.sender, now, env);
    case Exit => KeepsOrderCloseAll(s, ExitService, "watchdog", now, env);
    case Reboot => KeepsOrderCloseAll(s, RebootSystem, "watchdog", now, env);
    case Shutdown => KeepsOrderCloseAll(s, ShutdownSystem, "watchdog", now, env);
    case OtherCommand =>
  }

  lemma {:induction false} KeepsAutoStart(s: Service, i: nat, now: int, envs: nat -> Env)
    requires Inv(s)
    ensures Inv(AutoStartFrom(s, i, now, envs))
    decreases |s.modules| - i
  {
    if i >= |s.modules| {
    } else {
      if s.modules[i].autoStart && !s.modules[i].needToStart {
        KeepsPutEmit(s, i, s.modules[i].(needToStart := true, restartCount := 0), CountReset(i));
        KeepsCheckFrom(RearmAt(s, i), 0, now, envs(i));
        KeepsAutoStart(CheckPass(RearmAt(s, i), now, envs(i)), i + 1, now, envs);
      } else {
        KeepsAutoStart(s, i + 1, now, envs);
      }
    }
  }

  lemma EstablishedByLoad(s: Service, config: seq<Module>, now: int)
    requires AllJustified(s.trace)
    ensures Inv(Load(s, config, now))
  {
    var e := Loaded(ExclusiveFlags(config));
    Appended(s.trace, e);
    JustifiedAppended(s.trace, e);
  }

  lemma KeepsReceive(s: Service, msg: Message, now: int, env: Env)
    requires Inv(s)
    ensures Inv(Receive(s, msg, now, env))
  {
    KeepsObey(s, msg, now, env);
    var s1 := Obey(s, msg, now, env);
    var i := Find(s1.modules, msg.sender);
    if i.Some? {
      KeepsPutEmit(s1, i.value, s1.modules[i.value].Touch(now), Touched(i.value));
    }
  }

  lemma KeepsStarted(s: Service, i: nat, now: int)
    requires Inv(s) && s.Has(i) && s.modules[i].process == Starting
    ensures Inv(StartUpAt(s, i, now))
  {
    KeepsPutEmit(s, i, s.modules[i].StartUp(now), StartedUp(i));
  }

  lemma KeepsFinished(s: Service, i: nat, announce: bool)
    requires Inv(s) && s.Has(i)
    ensures Inv(s.Put(i, s.modules[i].(process := NotRunning)))
    ensures Inv(FinishAt(s, i, announce))
  {
    KeepsPut(s, i, s.modules[i].(process := NotRunning));
    KeepsEmit(s.Put(i, s.modules[i].(process := NotRunning)), ModuleClosedSent(i));
  }

  lemma KeepsShift(s: Service, d: int)
    requires Inv(s)
    ensures Inv(Shifted(s, d))
  {
    var ms := ShiftedModules(s.modules, d);
    forall i | 0 <= i < |ms| ensures Agrees(ms[i], HistoryOf(s.trace, i)) && SameMarks(s.modules[i], ms[i]) {
      assert Agrees(s.modules[i], HistoryOf(s.trace, i));
    }
  }

  lemma KeepsSignal(s: Service, t: Timed)
    requires Inv(s)
    requires t.event.ProcessStarted? || t.event.ProcessFinished? || t.event.ProcessFailedToStart?
    ensures Inv(Step(s, t))
  {
    var i := t.event.id;
    if Step(s, t) != s {
      match t.event
      case ProcessStarted(_) =>
        KeepsStarted(s, i, t.now);
        assert Step(s, t) == StartUpAt(s, i, t.now);
      case ProcessFinished(_, announce) =>
        KeepsFinished(s, i, announce);
        assert Step(s, t) == FinishAt(s, i, announce);
      case ProcessFailedToStart(_) =>
        KeepsFinished(s, i, false);
        assert Step(s, t) == s.Put(i, s.modules[i].(process := NotRunning));
    }
  }

  lemma KeepsPass(s: Service, t: Timed)
    requires Inv(s)
    requires t.event.CheckTick? || t.event.CloseTick? || t.event.AutoStartTick?
    ensures Inv(Step(s, t))
  {
    match t.event
    case CheckTick(env) => KeepsCheckFrom(s, 0, t.now, env);
    case CloseTick(env) => KeepsClosePass(s, "watchdog", t.now, env);
    case AutoStartTick(envs) => KeepsAutoStart(s, 0, t.now, envs);
  }

  lemma KeepsStep(s: Service, t: Timed)
    requires Inv(s)
    ensures Inv(Step(s, t))
  {
    var e := t.event;
    if e.ProcessStarted? || e.ProcessFinished? || e.ProcessFailedToStart? {
      KeepsSignal(s, t);
    } else if e.CheckTick? || e.CloseTick? || e.AutoStartTick? {
      KeepsPass(s, t);
    } else if e.Received? {
      KeepsReceive(s, e.msg, t.now, e.env);
    } else if e.ClockChanged? {
      KeepsShift(s, e.offset);
    } else {
      EstablishedByLoad(s, e.config, t.now);
    }
  }

  lemma {:induction false} KeepsRun(s: Service, ts: seq<Timed>)
    requires Inv(s)
    ensures Inv(Run(s, ts))
    decreases |ts|
  {
    if ts == [] {
    } else {
      KeepsStep(s, ts[0]);
      KeepsRun(Step(s, ts[0]), ts[1..]);
    }
  }

  lemma InvEverywhere(config: seq<Module>, now: int, ts: seq<Timed>)
    ensures Inv(Run(Boot(config, now), ts))
  {
    EstablishedByLoad(Service([], NoAction, false, []), config, now);
    KeepsRun(Boot(config, now), ts);
  }
}
