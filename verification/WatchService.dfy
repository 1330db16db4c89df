/** The watchdog as its own event handlers: the loops and in-place updates, each proved to
    do what the state machine of WatchModel says. */
module WatchHandlers {
  import opened Common
  import opened WatchModel

  class WatchService {
    var modules: seq<Module>
    var closeAction: CloseAction
    var timerActive: bool
    var trace: seq<Effect>

    function State(): Service
      reads this
    {
      Service(modules, closeAction, timerActive, trace)
    }

    constructor (config: seq<Module>, now: int)
      ensures State() == Boot(config, now)
    {
      modules := FreshModules(config, now);
      closeAction := NoAction;
      timerActive := true;
      trace := [Loaded(ExclusiveFlags(config))];
    }

    method Note(e: Effect)
      modifies this`trace
      ensures State() == old(State()).Emit(e)
    {
      trace := trace + [e];
    }

    method CanRun(i: nat) returns (ok: bool)
      requires i < |modules|
      ensures ok <==> WatchModel.CanRun(modules, i)
    {
      if modules[i].startPriority == NO_PRIORITY {
        return true;
      }
      for j := 0 to |modules|
        invariant forall k :: 0 <= k < j ==> !BlocksStart(modules[k], modules[i])
      {
        var other := modules[j];
        if modules[i].exclusive {
          if other.process == Running {
            assert BlocksStart(modules[j], modules[i]);
            return false;
          }
        } else if other.startPriority < modules[i].startPriority && other.needToStart {
          if other.process == NotRunning {
            assert BlocksStart(modules[j], modules[i]);
            return false;
          }
          if other.initDate == other.lastUpdate {
            assert BlocksStart(modules[j], modules[i]);
            return false;
          }
        }
      }
      return true;
    }

    method CanTerminate(i: nat) returns (ok: bool)
      requires i < |modules|
      ensures ok <==> WatchModel.CanTerminate(modules, i)
    {
      if modules[i].closePriority == NO_PRIORITY {
        return true;
      }
      for j := 0 to |modules|
        invariant forall k :: 0 <= k < j ==> !BlocksClose(modules[k], modules[i])
      {
        if modules[j].closePriority < modules[i].closePriority {
          if modules[j].process == Running {
            assert BlocksClose(modules[j], modules[i]);
            return false;
          }
        }
      }
      return true;
    }

    method Kill(i: nat, now: int, env: Env, why: Killer) returns (gone: bool)
      requires i < |modules|
      modifies this`modules, this`trace
      ensures (State(), gone) == KillAt(old(State()), i, now, env, why)
    {
      var outcome := env.kill(i);
      if modules[i].process == Starting && outcome.startedFirst {
        OnModuleStarted(i, now);
      }
      gone := modules[i].process == Running && outcome.finished;
      var m := modules[i];
      if gone {
        m := m.(process := NotRunning);
      }
      var startup := m.lastUpdate == m.initDate;
      if startup {
        m := m.(killOnStartCount := m.killOnStartCount + 1);
      } else {
        m := m.(killOnStartCount := 0);
      }
      modules := modules[i := m];
      Note(Killed(i, startup, why));
    }

    method CloseModule(i: nat, ignorePriority: bool, now: int, env: Env) returns (closed: bool)
      requires i < |modules|
      modifies this`modules, this`trace
      ensures (State(), closed) == CloseAt(old(State()), i, ignorePriority, now, env)
    {
      if modules[i].process == Running {
        modules := modules[i := modules[i].(needToStart := false)];
        var allowed := CanTerminate(i);
        if allowed || ignorePriority {
          var needToKill := modules[i].lastUpdate + 1000 * modules[i].CloseTimeout() < now;
          if needToKill {
            var gone := Kill(i, now, env, ForClosing);
            if gone {
              return true;
            }
          }
          Note(CloseSent(i));
          return false;
        }
        return false;
      }
      return true;
    }

    method RestoreOthers(k: nat)
      requires k < |modules|
      modifies this`modules
      ensures modules == Restored(old(modules), k)
    {
      for i := 0 to |modules|
        invariant |modules| == |old(modules)|
        invariant modules[..i] == Restored(old(modules), k)[..i]
        invariant modules[i..] == old(modules)[i..]
      {
        assert modules[i] == old(modules)[i];
        if i != k && !modules[i].exclusive {
          modules := modules[i := modules[i].(needToStart := modules[i].previousNeedToStart)];
        }
      }
    }

    method PopCommand(i: nat)
      requires i < |modules|
      modifies this`modules
      ensures State() == old(State()).Put(i, old(modules[i]).PopCommand())
    {
      var m := modules[i];
      if m.commandStack != [] {
        if m.commandStack[0] == PushedStart {
          m := m.(needToStart := true);
        } else {
          m := m.(needToStart := false);
        }
        m := m.(commandStack := m.commandStack[1..]);
      }
      modules := modules[i := m];
    }

    /** The check loop on a needed module whose process is not there. */
    method TryStart(i: nat, env: Env)
      requires i < |modules|
      modifies this`modules, this`trace
      ensures WatchModel.CanRun(old(modules), i) || State() == old(State())
      ensures WatchModel.CanRun(old(modules), i) ==>
        State() == if LimitHit(old(modules[i])) then GiveUp(old(State()), i) else LaunchAt(old(State()), i, env)
    {
      var ready := CanRun(i);
      if !ready {
        return;
      }
      var m := modules[i];
      if m.maxStartCount > 0 {
        if m.restartCount >= m.maxStartCount {
          modules := modules[i := m.(needToStart := false)];
          if m.exclusive {
            RestoreOthers(i);
          }
          Note(LimitReached(i, NeedFlags(modules)));
          return;
        }
      }
      modules := modules[i := m.(process := if env.launch(i) then Starting else NotRunning)];
      Note(Launched(i));
    }

    /** The check loop on a needed module whose process is there. */
    method JudgeAnswer(i: nat, now: int, env: Env)
      requires i < |modules|
      modifies this`modules, this`trace
      ensures State() == CheckAnswer(old(State()), i, now, env)
    {
      var m := modules[i];
      if m.initDate == m.lastUpdate {
        if m.initDate + 1000 * m.FirstPingTimeout() > now {
          return;
        }
      }
      if m.lastUpdate + 1000 * m.killTimeout < now {
        if m.noResponseCount > 0 {
          var _ := Kill(i, now, env, ForSilence);
          modules := modules[i := modules[i].(noResponseCount := 0)];
        } else {
          modules := modules[i := m.(noResponseCount := m.noResponseCount + 1)];
          Note(Missed(i));
        }
      } else {
        modules := modules[i := m.(noResponseCount := 0)];
        Note(OnTime(i));
      }
    }

    /** One iteration of the check loop. */
    method CheckModule(i: nat, now: int, env: Env)
      requires i < |modules|
      modifies this`modules, this`trace
      ensures State() == CheckAt(old(State()), i, now, env)
    {
      PopCommand(i);
      if modules[i].needToStart {
        if modules[i].process == NotRunning {
          TryStart(i, env);
        } else {
          JudgeAnswer(i, now, env);
        }
      } else {
        var _ := CloseModule(i, true, now, env);
      }
    }

    method OnCheckModules(now: int, env: Env)
      modifies this`modules, this`trace
      ensures State() == CheckPass(old(State()), now, env)
    {
      var i := 0;
      while i < |modules|
        invariant i <= |modules|
        invariant closeAction == old(closeAction) && timerActive == old(timerActive)
        invariant CheckFrom(State(), i, now, env) == CheckPass(old(State()), now, env)
        decreases |modules| - i
      {
        CheckModule(i, now, env);
        i := i + 1;
      }
    }

    method CloseActionNow()
      modifies this`closeAction, this`trace
      ensures State() == TakeCloseAction(old(State()))
    {
      Note(Closed(closeAction));
      if closeAction == RestartModules {
        closeAction := NoAction;
      }
    }

    method DoCloseModules(sender: string, now: int, env: Env) returns (done: bool)
      modifies this
      ensures (State(), done) == ClosePass(old(State()), sender, now, env)
    {
      if timerActive {
        timerActive := false;
      }
      var canClose := true;
      var i := 0;
      while i < |modules|
        invariant i <= |modules|
        invariant CloseFrom(State(), i, canClose, now, env)
          == CloseFrom(old(State()).(timerActive := false), 0, true, now, env)
        decreases |modules| - i
      {
        var closed := CloseModule(i, false, now, env);
        if !closed {
          if canClose {
            Note(RetryScheduled);
            canClose := false;
          }
        }
        i := i + 1;
      }
      if sender == "updater" {
        Note(CloseBroadcast);
      } else {
        Note(UpdaterCloseSent);
      }
      if canClose {
        CloseActionNow();
      }
      done := canClose;
    }

    method SuspendAll()
      modifies this`modules
      ensures modules == Suspended(old(modules))
    {
      for i := 0 to |modules|
        invariant |modules| == |old(modules)|
        invariant modules[..i] == Suspended(old(modules))[..i]
        invariant modules[i..] == old(modules)[i..]
      {
        assert modules[i] == old(modules)[i];
        modules := modules[i := modules[i].(previousNeedToStart := modules[i].needToStart)];
        modules := modules[i := modules[i].(needToStart := false)];
      }
    }

    method ClearNeeds()
      modifies this`modules
      ensures modules == Unneeded(old(modules))
    {
      for i := 0 to |modules|
        invariant |modules| == |old(modules)|
        invariant modules[..i] == Unneeded(old(modules))[..i]
        invariant modules[i..] == old(modules)[i..]
      {
        assert modules[i] == old(modules)[i];
        modules := modules[i := modules[i].(needToStart := false)];
      }
    }

    method CloseEverything(action: CloseAction, sender: string, now: int, env: Env)
      modifies this
      ensures State() == OrderCloseAll(old(State()), action, sender, now, env)
    {
      ClearNeeds();
      closeAction := action;
      var _ := DoCloseModules(sender, now, env);
    }

    method StartCommand(i: nat)
      requires i < |modules|
      modifies this`modules, this`trace
      ensures State() == OrderStart(old(State()), i)
    {
      if modules[i].exclusive {
        Note(FlagsSaved(NeedFlags(modules)));
        SuspendAll();
      }
      var m := modules[i];
      m := m.(needToStart := true, restartCount := 0);
      m := m.(commandStack := m.commandStack + [PushedStart]);
      modules := modules[i := m];
      Note(CountReset(i));
    }

    method CloseCommand(i: nat)
      requires i < |modules|
      modifies this`modules, this`trace
      ensures State() == OrderClose(old(State()), i)
    {
      var m := modules[i];
      m := m.(needToStart := false);
      m := m.(commandStack := m.commandStack + [PushedClose]);
      modules := modules[i := m];
      if m.autoStart {
        Note(AutoStartScheduled);
      }
    }

    method Dispatch(msg: Message, now: int, env: Env)
      modifies this
      ensures State() == Obey(old(State()), msg, now, env)
    {
      match msg.command {
        case StartModule =>
          var it := Find(modules, msg.target);
          if it.Some? {
            StartCommand(it.value);
            OnCheckModules(now, env);
          }
        case CloseModule =>
          var it := Find(modules, msg.target);
          if it.Some? {
            CloseCommand(it.value);
            OnCheckModules(now, env);
          } else {
            Note(CloseForwarded(msg.target));
          }
        case Restart => CloseEverything(RestartModules, "watchdog", now, env);
        case CloseAll => CloseEverything(NoAction, msg.sender, now, env);
        case Exit => CloseEverything(ExitService, "watchdog", now, env);
        case Reboot => CloseEverything(RebootSystem, "watchdog", now, env);
        case Shutdown => CloseEverything(ShutdownSystem, "watchdog", now, env);
        case OtherCommand =>
      }
    }

    method MessageReceived(msg: Message, now: int, env: Env)
      modifies this
      ensures State() == Receive(old(State()), msg, now, env)
    {
      Dispatch(msg, now, env);
      var it := Find(modules, msg.sender);
      if it.Some? {
        modules := modules[it.value := modules[it.value].Touch(now)];
        Note(Touched(it.value));
      }
    }

    method Rearm(i: nat)
      requires i < |modules|
      modifies this`modules, this`trace
      ensures State() == RearmAt(old(State()), i)
    {
      modules := modules[i := modules[i].(needToStart := true, restartCount := 0)];
      Note(CountReset(i));
    }

    method CheckAutoStartModules(now: int, envs: nat -> Env)
      modifies this`modules, this`trace
      ensures State() == AutoStartFrom(old(State()), 0, now, envs)
    {
      var i := 0;
      while i < |modules|
        invariant i <= |modules|
        invariant closeAction == old(closeAction) && timerActive == old(timerActive)
        invariant AutoStartFrom(State(), i, now, envs) == AutoStartFrom(old(State()), 0, now, envs)
        decreases |modules| - i
      {
        if modules[i].autoStart && !modules[i].needToStart {
          Rearm(i);
          OnCheckModules(now, envs(i));
        }
        i := i + 1;
      }
    }

    method OnModuleStarted(i: nat, now: int)
      requires i < |modules| && modules[i].process == Starting
      modifies this`modules, this`trace
      ensures State() == StartUpAt(old(State()), i, now)
      ensures State() == Step(old(State()), At(now, ProcessStarted(i)))
    {
      modules := modules[i := modules[i].StartUp(now)];
      Note(StartedUp(i));
    }

    method OnModuleFinished(i: nat, announce: bool, now: int)
      requires i < |modules| && modules[i].process == Running
      modifies this`modules, this`trace
      ensures State() == Step(old(State()), At(now, ProcessFinished(i, announce)))
    {
      modules := modules[i := modules[i].(process := NotRunning)];
      if announce {
        Note(ModuleClosedSent(i));
      }
    }

    method OnTimeChanged(d: int)
      modifies this`modules
      ensures State() == Shifted(old(State()), d)
    {
      for i := 0 to |modules|
        invariant |modules| == |old(modules)|
        invariant modules[..i] == ShiftedModules(old(modules), d)[..i]
        invariant modules[i..] == old(modules)[i..]
      {
        assert modules[i] == old(modules)[i];
        modules := modules[i := modules[i].(initDate := modules[i].initDate + d)];
        modules := modules[i := modules[i].(lastUpdate := modules[i].lastUpdate + d)];
      }
    }

    method Reinitialize(config: seq<Module>, now: int)
      modifies this`modules, this`timerActive, this`trace
      ensures State() == Load(old(State()), config, now)
    {
      modules := FreshModules(config, now);
      timerActive := true;
      Note(Loaded(ExclusiveFlags(config)));
    }

    /** The event loop: the handler that Qt calls for each event. */
    method OnEvent(t: Timed)
      modifies this
      ensures State() == Step(old(State()), t)
    {
      match t.event {
        case Received(msg, env) => MessageReceived(msg, t.now, env);
        case CheckTick(env) => if timerActive { OnCheckModules(t.now, env); }
        case CloseTick(env) => var _ := DoCloseModules("watchdog", t.now, env);
        case AutoStartTick(envs) => CheckAutoStartModules(t.now, envs);
        case ProcessStarted(i) =>
          if i < |modules| && modules[i].process == Starting {
            OnModuleStarted(i, t.now);
          }
        case ProcessFinished(i, announce) =>
          if i < |modules| && modules[i].process == Running {
            OnModuleFinished(i, announce, t.now);
          }
        case ProcessFailedToStart(i) =>
          if i < |modules| && modules[i].process == Starting {
            modules := modules[i := modules[i].(process := NotRunning)];
          }
        case ClockChanged(d) => OnTimeChanged(d);
        case Reloaded(config) => Reinitialize(config, t.now);
      }
    }
  }
}
