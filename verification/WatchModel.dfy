/** The watchdog supervisor as a state machine: one supervised module, one close of a
    module, one check pass, one close pass, and one step per event.

    The modules are a sequence in the key order of the source's map. Dates are
    milliseconds. What the watchdog does to the outside (processes it launches or kills,
    messages it sends, the action it takes when everything is closed) and the few
    internal facts the whole-run claims talk about are appended to a trace. */
module WatchModel {
  import opened Common

  // A `uint` compared with -1 is compared with the largest 32-bit value.
  const NO_PRIORITY: uint32 := 0xFFFF_FFFF

  const SLOW_PC_KILL_TIMEOUT := 180
  const FIRST_PING_INCREMENT := 10
  const FIRST_PING_MAX := 600

  datatype ProcessState = NotRunning | Starting | Running

  datatype StackCommand = PushedStart | PushedClose

  datatype CloseAction = NoAction | RestartModules | ExitService | RebootSystem | ShutdownSystem

  /** What `kill()` meets: `started()` may be delivered while it waits for a process that is
      still starting, and the process may or may not be gone when the wait ends. */
  datatype KillOutcome = KillOutcome(startedFirst: bool, finished: bool)

  datatype Killer = ForSilence | ForClosing

  datatype Effect =
    | Loaded(exclusive: seq<bool>)
    | Launched(id: nat)
    | StartedUp(id: nat)
    | CountReset(id: nat)
    | Touched(id: nat)
    | Missed(id: nat)
    | OnTime(id: nat)
    | Killed(id: nat, duringStartup: bool, why: Killer)
    | CloseSent(id: nat)
    | FlagsSaved(flags: seq<bool>)
    | LimitReached(id: nat, flags: seq<bool>)
    | ModuleClosedSent(id: nat)
    | CloseForwarded(name: string)
    | AutoStartScheduled
    | RetryScheduled
    | CloseBroadcast
    | UpdaterCloseSent
    | Closed(action: CloseAction)

  datatype Module = Module(
    name: string,
    exclusive: bool,
    autoStart: bool,
    startPriority: uint32,
    closePriority: uint32,
    maxStartCount: uint32,
    firstPingTimeout: uint32,
    killTimeout: int,
    process: ProcessState,
    needToStart: bool,
    previousNeedToStart: bool,
    restartCount: uint32,
    noResponseCount: int,
    killOnStartCount: nat,
    initDate: int,
    lastUpdate: int,
    commandStack: seq<StackCommand>)
  {
    function Touch(now: int): Module {
      this.(lastUpdate := now, killOnStartCount := 0)
    }

    // Unsigned 32-bit arithmetic, as in the source.
    function FirstPingTimeout(): nat {
      var t := (firstPingTimeout + killOnStartCount * FIRST_PING_INCREMENT) % TWO_TO_THE_32;
      if t < FIRST_PING_MAX then t else FIRST_PING_MAX
    }

    /** The `started()` handler: the process is now Running. */
    function StartUp(now: int): Module {
      this.(process := Running,
            restartCount := (restartCount + 1) % TWO_TO_THE_32,
            initDate := now,
            lastUpdate := now)
    }

    predicate DiesOf(outcome: KillOutcome) {
      process == Running && outcome.finished
    }

    /** What `kill()` leaves of a module whose pending `started()` has been handled. */
    function Reap(outcome: KillOutcome): Module {
      this.(process := if DiesOf(outcome) then NotRunning else process,
            killOnStartCount := if lastUpdate == initDate then killOnStartCount + 1 else 0)
    }

    function PopCommand(): Module {
      if commandStack == [] then this
      else this.(needToStart := commandStack[0] == PushedStart, commandStack := commandStack[1..])
    }

    // The seconds without an answer after which a close request becomes a kill.
    function CloseTimeout(): int {
      if ToLower(name) == "updater" then SLOW_PC_KILL_TIMEOUT else killTimeout
    }

    /** What loading the configuration makes of this entry: only the configured fields count. */
    function Fresh(now: int): Module {
      this.(process := NotRunning, needToStart := autoStart, previousNeedToStart := false,
            restartCount := 0, noResponseCount := 0, killOnStartCount := 0,
            initDate := now, lastUpdate := now, commandStack := [])
    }
  }

  function ToLower(s: string): string {
    seq(|s|, i requires 0 <= i < |s| => if 'A' <= s[i] <= 'Z' then (s[i] as int + 32) as char else s[i])
  }

  datatype Service = Service(modules: seq<Module>, action: CloseAction, timerActive: bool, trace: seq<Effect>)
  {
    predicate Has(i: int) {
      0 <= i < |modules|
    }

    function Emit(e: Effect): Service {
      this.(trace := trace + [e])
    }

    function Put(i: nat, m: Module): Service
      requires i < |modules|
    {
      this.(modules := modules[i := m])
    }
  }

  /** How the processes react during one pass, module by module. */
  datatype Env = Env(kill: nat -> KillOutcome, launch: nat -> bool)

  // ---------------------------------------------------------------- gates

  predicate BlocksStart(other: Module, m: Module) {
    if m.exclusive then
      other.process == Running
    else
      other.startPriority < m.startPriority && other.needToStart &&
      (other.process == NotRunning || other.initDate == other.lastUpdate)
  }

  predicate CanRun(ms: seq<Module>, i: nat)
    requires i < |ms|
  {
    ms[i].startPriority == NO_PRIORITY || forall j :: 0 <= j < |ms| ==> !BlocksStart(ms[j], ms[i])
  }

  predicate BlocksClose(other: Module, m: Module) {
    other.closePriority < m.closePriority && other.process == Running
  }

  predicate CanTerminate(ms: seq<Module>, i: nat)
    requires i < |ms|
  {
    ms[i].closePriority == NO_PRIORITY || forall j :: 0 <= j < |ms| ==> !BlocksClose(ms[j], ms[i])
  }

  // ---------------------------------------------------------------- one module

  function StartUpAt(s: Service, i: nat, now: int): (r: Service)
    requires s.Has(i)
    ensures |r.modules| == |s.modules|
  {
    s.Put(i, s.modules[i].StartUp(now)).Emit(StartedUp(i))
  }

  function ReapAt(s: Service, i: nat, outcome: KillOutcome, why: Killer): (r: Service)
    requires s.Has(i)
    ensures |r.modules| == |s.modules|
  {
    var m := s.modules[i];
    s.Put(i, m.Reap(outcome)).Emit(Killed(i, m.lastUpdate == m.initDate, why))
  }

  /** `kill`: the new state, and whether the process is gone. */
  function KillAt(s: Service, i: nat, now: int, env: Env, why: Killer): (r: (Service, bool))
    requires s.Has(i)
    ensures |r.0.modules| == |s.modules|
  {
    var outcome := env.kill(i);
    var s1 := if s.modules[i].process == Starting && outcome.startedFirst then StartUpAt(s, i, now) else s;
    (ReapAt(s1, i, outcome, why), s1.modules[i].DiesOf(outcome))
  }

  /** `closeModule`: the new state, and whether the module counts as closed. */
  function CloseAt(s: Service, i: nat, ignorePriority: bool, now: int, env: Env): (r: (Service, bool))
    requires s.Has(i)
    ensures |r.0.modules| == |s.modules|
  {
    if s.modules[i].process != Running then (s, true)
    else
      var s1 := s.Put(i, s.modules[i].(needToStart := false));
      if !CanTerminate(s1.modules, i) && !ignorePriority then (s1, false)
      else if s1.modules[i].lastUpdate + 1000 * s1.modules[i].CloseTimeout() < now then
        var (s2, gone) := KillAt(s1, i, now, env, ForClosing);
        if gone then (s2, true) else (s2.Emit(CloseSent(i)), false)
      else (s1.Emit(CloseSent(i)), false)
  }

  function NeedFlags(ms: seq<Module>): (r: seq<bool>)
    ensures |r| == |ms|
    ensures forall i :: 0 <= i < |ms| ==> r[i] == ms[i].needToStart
  {
    seq(|ms|, i requires 0 <= i < |ms| => ms[i].needToStart)
  }

  /** The saved flags come back for every non-exclusive module except number `k`. */
  function Restored(ms: seq<Module>, k: nat): (r: seq<Module>)
    ensures |r| == |ms|
    ensures forall i :: 0 <= i < |ms| ==>
      r[i] == if i != k && !ms[i].exclusive then ms[i].(needToStart := ms[i].previousNeedToStart) else ms[i]
  {
    seq(|ms|, i requires 0 <= i < |ms| =>
      if i != k && !ms[i].exclusive then ms[i].(needToStart := ms[i].previousNeedToStart) else ms[i])
  }

  function GiveUp(s: Service, i: nat): (r: Service)
    requires s.Has(i)
    ensures |r.modules| == |s.modules|
  {
    var ms := s.modules[i := s.modules[i].(needToStart := false)];
    var ms' := if ms[i].exclusive then Restored(ms, i) else ms;
    s.(modules := ms').Emit(LimitReached(i, NeedFlags(ms')))
  }

  function LaunchAt(s: Service, i: nat, env: Env): (r: Service)
    requires s.Has(i)
    ensures |r.modules| == |s.modules|
  {
    s.Put(i, s.modules[i].(process := if env.launch(i) then Starting else NotRunning)).Emit(Launched(i))
  }

  /** The check of a module whose process is there: wait, count a miss, or kill. */
  function CheckAnswer(s: Service, i: nat, now: int, env: Env): (r: Service)
    requires s.Has(i)
    ensures |r.modules| == |s.modules|
  {
    var m := s.modules[i];
    if m.initDate == m.lastUpdate && m.initDate + 1000 * m.FirstPingTimeout() > now then s
    else if m.lastUpdate + 1000 * m.killTimeout < now then
      if m.noResponseCount > 0 then
        var s2 := KillAt(s, i, now, env, ForSilence).0;
        s2.Put(i, s2.modules[i].(noResponseCount := 0))
      else
        s.Put(i, m.(noResponseCount := m.noResponseCount + 1)).Emit(Missed(i))
    else
      s.Put(i, m.(noResponseCount := 0)).Emit(OnTime(i))
  }

  predicate LimitHit(m: Module) {
    m.maxStartCount > 0 && m.restartCount >= m.maxStartCount
  }

  /** One iteration of `onCheckModules`. */
  function CheckAt(s0: Service, i: nat, now: int, env: Env): (r: Service)
    requires s0.Has(i)
    ensures |r.modules| == |s0.modules|
  {
    var s := s0.Put(i, s0.modules[i].PopCommand());
    var m := s.modules[i];
    if !m.needToStart then CloseAt(s, i, true, now, env).0
    else if m.process == NotRunning then
      if !CanRun(s.modules, i) then s
      else if LimitHit(m) then GiveUp(s, i)
      else LaunchAt(s, i, env)
    else CheckAnswer(s, i, now, env)
  }

  // ---------------------------------------------------------------- passes

  function CheckFrom(s: Service, i: nat, now: int, env: Env): (r: Service)
    ensures |r.modules| == |s.modules|
    decreases |s.modules| - i
  {
    if i >= |s.modules| then s else CheckFrom(CheckAt(s, i, now, env), i + 1, now, env)
  }

  function CheckPass(s: Service, now: int, env: Env): (r: Service)
    ensures |r.modules| == |s.modules|
  {
    CheckFrom(s, 0, now, env)
  }

  /** One iteration of `doCloseModules`: a retry is scheduled for the first module not closed. */
  function CloseNext(s: Service, i: nat, canClose: bool, now: int, env: Env): (r: (Service, bool))
    requires s.Has(i)
    ensures |r.0.modules| == |s.modules|
  {
    var (s1, closed) := CloseAt(s, i, false, now, env);
    (if !closed && canClose then s1.Emit(RetryScheduled) else s1, canClose && closed)
  }

  function CloseFrom(s: Service, i: nat, canClose: bool, now: int, env: Env): (r: (Service, bool))
    ensures |r.0.modules| == |s.modules|
    decreases |s.modules| - i
  {
    if i >= |s.modules| then (s, canClose)
    else
      var (s1, canClose1) := CloseNext(s, i, canClose, now, env);
      CloseFrom(s1, i + 1, canClose1, now, env)
  }

  /** `closeAction`: what happens once no module is left running. */
  function TakeCloseAction(s: Service): Service {
    s.Emit(Closed(s.action)).(action := if s.action == RestartModules then NoAction else s.action)
  }

  /** `doCloseModules`: the new state, and whether the close action was taken. */
  function ClosePass(s: Service, sender: string, now: int, env: Env): (r: (Service, bool))
    ensures |r.0.modules| == |s.modules|
  {
    var (s1, canClose) := CloseFrom(s.(timerActive := false), 0, true, now, env);
    var s2 := s1.Emit(if sender == "updater" then CloseBroadcast else UpdaterCloseSent);
    (if canClose then TakeCloseAction(s2) else s2, canClose)
  }

  // ---------------------------------------------------------------- messages

  datatype Command =
    | StartModule | CloseModule | Restart | CloseAll | Exit | Reboot | Shutdown | OtherCommand

  datatype Message = Message(sender: string, command: Command, target: string)

  function Find(ms: seq<Module>, name: string): (r: Option<nat>)
    ensures r.Some? ==> r.value < |ms| && ms[r.value].name == name
    ensures r.None? ==> forall i :: 0 <= i < |ms| ==> ms[i].name != name
  {
    FindFrom(ms, name, 0)
  }

  function FindFrom(ms: seq<Module>, name: string, i: nat): (r: Option<nat>)
    requires i <= |ms|
    ensures r.Some? ==> i <= r.value < |ms| && ms[r.value].name == name
    ensures r.None? ==> forall j :: i <= j < |ms| ==> ms[j].name != name
    decreases |ms| - i
  {
    if i == |ms| then None
    else if ms[i].name == name then Some(i)
    else FindFrom(ms, name, i + 1)
  }

  /** Every flag is saved in `previousNeedToStart` and cleared. */
  function Suspended(ms: seq<Module>): (r: seq<Module>)
    ensures |r| == |ms|
    ensures forall i :: 0 <= i < |ms| ==>
      r[i] == ms[i].(previousNeedToStart := ms[i].needToStart, needToStart := false)
  {
    seq(|ms|, i requires 0 <= i < |ms| =>
      ms[i].(previousNeedToStart := ms[i].needToStart, needToStart := false))
  }

  function Unneeded(ms: seq<Module>): (r: seq<Module>)
    ensures |r| == |ms|
    ensures forall i :: 0 <= i < |ms| ==> r[i] == ms[i].(needToStart := false)
  {
    seq(|ms|, i requires 0 <= i < |ms| => ms[i].(needToStart := false))
  }

  /** The start command up to its check pass. */
  function OrderStart(s: Service, i: nat): (r: Service)
    requires s.Has(i)
    ensures |r.modules| == |s.modules|
  {
    var s1 := if s.modules[i].exclusive
              then s.(modules := Suspended(s.modules)).Emit(FlagsSaved(NeedFlags(s.modules)))
              else s;
    var m := s1.modules[i];
    s1.Put(i, m.(needToStart := true, restartCount := 0, commandStack := m.commandStack + [PushedStart]))
      .Emit(CountReset(i))
  }

  /** The close command up to its check pass. */
  function OrderClose(s: Service, i: nat): (r: Service)
    requires s.Has(i)
    ensures |r.modules| == |s.modules|
  {
    var m := s.modules[i];
    var s1 := s.Put(i, m.(needToStart := false, commandStack := m.commandStack + [PushedClose]));
    if m.autoStart then s1.Emit(AutoStartScheduled) else s1
  }

  /** The commands that close everything. */
  function OrderCloseAll(s: Service, action: CloseAction, sender: string, now: int, env: Env): (r: Service)
    ensures |r.modules| == |s.modules|
  {
    ClosePass(s.(modules := Unneeded(s.modules), action := action), sender, now, env).0
  }

  function Obey(s: Service, msg: Message, now: int, env: Env): (r: Service)
    ensures |r.modules| == |s.modules|
  {
    match msg.command
    case StartModule =>
      var i := Find(s.modules, msg.target);
      if i.Some? then CheckPass(OrderStart(s, i.value), now, env) else s
    case CloseModule =>
      var i := Find(s.modules, msg.target);
      if i.Some? then CheckPass(OrderClose(s, i.value), now, env) else s.Emit(CloseForwarded(msg.target))
    case Restart => OrderCloseAll(s, RestartModules, "watchdog", now, env)
    case CloseAll => OrderCloseAll(s, NoAction, msg.sender, now, env)
    case Exit => OrderCloseAll(s, ExitService, "watchdog", now, env)
    case Reboot => OrderCloseAll(s, RebootSystem, "watchdog", now, env)
    case Shutdown => OrderCloseAll(s, ShutdownSystem, "watchdog", now, env)
    case OtherCommand => s
  }

  function TouchAt(s: Service, i: nat, now: int): (r: Service)
    requires s.Has(i)
    ensures |r.modules| == |s.modules|
  {
    s.Put(i, s.modules[i].Touch(now)).Emit(Touched(i))
  }

  /** `messageReceived`, from the parsed fields on. */
  function Receive(s: Service, msg: Message, now: int, env: Env): (r: Service)
    ensures |r.modules| == |s.modules|
  {
    var s1 := Obey(s, msg, now, env);
    var i := Find(s1.modules, msg.sender);
    if i.Some? then TouchAt(s1, i.value, now) else s1
  }

  // ---------------------------------------------------------------- the other events

  function RearmAt(s: Service, i: nat): (r: Service)
    requires s.Has(i)
    ensures |r.modules| == |s.modules|
  {
    s.Put(i, s.modules[i].(needToStart := true, restartCount := 0)).Emit(CountReset(i))
  }

  /** `checkAutoStartModules`: each module it re-enables is followed by a whole check pass. */
  function AutoStartFrom(s: Service, i: nat, now: int, envs: nat -> Env): (r: Service)
    ensures |r.modules| == |s.modules|
    decreases |s.modules| - i
  {
    if i >= |s.modules| then s
    else if s.modules[i].autoStart && !s.modules[i].needToStart then
      AutoStartFrom(CheckPass(RearmAt(s, i), now, envs(i)), i + 1, now, envs)
    else AutoStartFrom(s, i + 1, now, envs)
  }

  function FinishAt(s: Service, i: nat, announce: bool): (r: Service)
    requires s.Has(i)
    ensures |r.modules| == |s.modules|
  {
    var s1 := s.Put(i, s.modules[i].(process := NotRunning));
    if announce then s1.Emit(ModuleClosedSent(i)) else s1
  }

  function ShiftedModules(ms: seq<Module>, d: int): (r: seq<Module>)
    ensures |r| == |ms|
    ensures forall i :: 0 <= i < |ms| ==>
      r[i] == ms[i].(initDate := ms[i].initDate + d, lastUpdate := ms[i].lastUpdate + d)
  {
    seq(|ms|, i requires 0 <= i < |ms| =>
      ms[i].(initDate := ms[i].initDate + d, lastUpdate := ms[i].lastUpdate + d))
  }

  /** `onTimeChanged`. */
  function Shifted(s: Service, d: int): Service {
    s.(modules := ShiftedModules(s.modules, d))
  }

  function FreshModules(config: seq<Module>, now: int): (r: seq<Module>)
    ensures |r| == |config|
    ensures forall i :: 0 <= i < |config| ==> r[i] == config[i].Fresh(now)
  {
    seq(|config|, i requires 0 <= i < |config| => config[i].Fresh(now))
  }

  function ExclusiveFlags(ms: seq<Module>): (r: seq<bool>)
    ensures |r| == |ms|
    ensures forall i :: 0 <= i < |ms| ==> r[i] == ms[i].exclusive
  {
    seq(|ms|, i requires 0 <= i < |ms| => ms[i].exclusive)
  }

  /** `reinitialize`: the modules are loaded again and the check timer runs. */
  function Load(s: Service, config: seq<Module>, now: int): Service {
    s.(modules := FreshModules(config, now), timerActive := true).Emit(Loaded(ExclusiveFlags(config)))
  }

  datatype Event =
    | Received(msg: Message, env: Env)
    | CheckTick(env: Env)
    | CloseTick(env: Env)
    | AutoStartTick(envs: nat -> Env)
    | ProcessStarted(id: nat)
    | ProcessFinished(id: nat, announce: bool)
    | ProcessFailedToStart(id: nat)
    | ClockChanged(offset: int)
    | Reloaded(config: seq<Module>)

  datatype Timed = At(now: int, event: Event)

  function Step(s: Service, t: Timed): Service {
    match t.event
    case Received(msg, env) => Receive(s, msg, t.now, env)
    case CheckTick(env) => if s.timerActive then CheckPass(s, t.now, env) else s
    case CloseTick(env) => ClosePass(s, "watchdog", t.now, env).0
    case AutoStartTick(envs) => AutoStartFrom(s, 0, t.now, envs)
    case ProcessStarted(i) =>
      if s.Has(i) && s.modules[i].process == Starting then StartUpAt(s, i, t.now) else s
    case ProcessFinished(i, announce) =>
      if s.Has(i) && s.modules[i].process == Running then FinishAt(s, i, announce) else s
    case ProcessFailedToStart(i) =>
      if s.Has(i) && s.modules[i].process == Starting
      then s.Put(i, s.modules[i].(process := NotRunning)) else s
    case ClockChanged(d) => Shifted(s, d)
    case Reloaded(config) => Load(s, config, t.now)
  }

  function Run(s: Service, ts: seq<Timed>): Service
    decreases |ts|
  {
    if ts == [] then s else Run(Step(s, ts[0]), ts[1..])
  }

  /** The service as constructed and first loaded. */
  function Boot(config: seq<Module>, now: int): Service {
    Load(Service([], NoAction, false, []), config, now)
  }
}
