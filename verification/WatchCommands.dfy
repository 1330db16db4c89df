/** What a message makes the watchdog do, for every state or every reachable one. */
module WatchCommands {
  import opened Common
  import opened WatchModel
  import opened WatchClaims
  import opened WatchOrder
  import opened WatchVerdicts
  import opened WatchClosing

  // ---------------------------------------------------------------- the close action

  /** What is to be done once everything is closed, for the commands that close everything. */
  function ActionFor(c: Command): Option<CloseAction> {
    match c
    case Restart => Some(RestartModules)
    case CloseAll => Some(NoAction)
    case Exit => Some(ExitService)
    case Reboot => Some(RebootSystem)
    case Shutdown => Some(ShutdownSystem)
    case _ => None
  }

  /** The action that is asked for after an event. */
  function AskedBy(t: Timed, before: CloseAction): CloseAction {
    if t.event.Received? && ActionFor(t.event.msg.command).Some? then ActionFor(t.event.msg.command).value else before
  }

  /** From `s` to `r` the action `asked` is taken or not, and is remembered except for a restart
      that was taken. */
  predicate TakesOnly(s: Service, r: Service, asked: CloseAction) {
    s.trace <= r.trace && (forall x :: Closed(x) in Added(s, r) ==> x == asked) &&
    r.action == if Closed(RestartModules) in Added(s, r) then NoAction else asked
  }

  lemma TakesNothing(s: Service, r: Service)
    requires s.trace <= r.trace && r.action == s.action && forall e :: e in Added(s, r) ==> !e.Closed?
    ensures TakesOnly(s, r, s.action)
  {}

  predicate SameSettings(s: Service, r: Service) {
    |r.modules| == |s.modules| &&
    forall j :: 0 <= j < |s.modules| ==>
      r.modules[j].name == s.modules[j].name && r.modules[j].autoStart == s.modules[j].autoStart
  }

  predicate Keeps(s: Service, r: Service) {
    r.action == s.action && r.timerActive == s.timerActive && SameSettings(s, r)
  }

  /** What check passes, and what is done between them, never do: take an action, touch, or change the
      settings. */
  predicate Checks(s: Service, r: Service) {
    s.trace <= r.trace && Keeps(s, r) &&
    forall e :: e in Added(s, r) ==> !e.Closed? && !e.Touched?
  }

  lemma ChecksThen(s: Service, m: Service, r: Service)
    requires Checks(s, m) && Checks(m, r)
    ensures Checks(s, r)
  {
    AddedSplits(s, m, r);
  }

  lemma CloseKeeps(s: Service, i: nat, now: int, env: Env)
    requires s.Has(i)
    ensures Keeps(s, CloseAt(s, i, true, now, env).0)
  {
    KillLeaves(s.Put(i, s.modules[i].(needToStart := false)), i, now, env, ForClosing);
  }

  lemma AnswerKeeps(s: Service, i: nat, now: int, env: Env)
    requires s.Has(i)
    ensures Keeps(s, CheckAnswer(s, i, now, env))
  {
    AnswerLeaves(s, i, now, env);
    var r := CheckAnswer(s, i, now, env);
    forall j | 0 <= j < |s.modules| && j != i ensures r.modules[j] == s.modules[j] {
      AnswerStaysInside(s, i, j, now, env);
    }
  }

  lemma CheckKeepsAction(s: Service, i: nat, now: int, env: Env)
    requires s.Has(i)
    ensures Keeps(s, CheckAt(s, i, now, env))
  {
    var s1 := s.Put(i, s.modules[i].PopCommand());
    if !Needed(s, i) {
      CloseKeeps(s1, i, now, env);
    } else if s.modules[i].process != NotRunning {
      AnswerKeeps(s1, i, now, env);
    } else {
      CheckLeavesOthers(s, i, now, env);
    }
  }

  lemma CheckChecks(s: Service, i: nat, now: int, env: Env)
    requires s.Has(i)
    ensures
      var r := CheckAt(s, i, now, env);
      Checks(s, r) && forall e :: e in Added(s, r) ==> !e.CountReset?
  {
    CheckExtends(s, i, now, env);
    CheckConcerns(s, i, now, env);
    CheckKeepsAction(s, i, now, env);
  }

  lemma {:induction false} CheckFromTakesNothing(s: Service, i: nat, now: int, env: Env)
    ensures
      var r := CheckFrom(s, i, now, env);
      Checks(s, r) && forall e :: e in Added(s, r) ==> !e.CountReset?
    decreases |s.modules| - i
  {
    if i >= |s.modules| {
    } else {
      var s1 := CheckAt(s, i, now, env);
      var r := CheckFrom(s1, i + 1, now, env);
      CheckChecks(s, i, now, env);
      CheckFromTakesNothing(s1, i + 1, now, env);
      ChecksThen(s, s1, r);
      AddedSplits(s, s1, r);
    }
  }

  lemma {:induction false} AutoStartTakesNothing(s: Service, i: nat, now: int, envs: nat -> Env)
    ensures Checks(s, AutoStartFrom(s, i, now, envs))
    decreases |s.modules| - i
  {
    if i >= |s.modules| {
    } else if s.modules[i].autoStart && !s.modules[i].needToStart {
      var s1 := RearmAt(s, i);
      var s2 := CheckPass(s1, now, envs(i));
      CheckFromTakesNothing(s1, 0, now, envs(i));
      ChecksThen(s, s1, s2);
      AutoStartTakesNothing(s2, i + 1, now, envs);
      ChecksThen(s, s2, AutoStartFrom(s2, i + 1, now, envs));
    } else {
      AutoStartTakesNothing(s, i + 1, now, envs);
    }
  }

  lemma {:induction false} CloseFromTakesNothing(s: Service, i: nat, c: bool, now: int, env: Env)
    ensures
      var r := CloseFrom(s, i, c, now, env).0;
      s.trace <= r.trace && r.action == s.action && forall e :: e in Added(s, r) ==> !e.Closed?
    decreases |s.modules| - i
  {
    if i >= |s.modules| {
    } else {
      var (s1, c1) := CloseNext(s, i, c, now, env);
      CloseNextTakesNothing(s, i, c, now, env);
      CloseFromTakesNothing(s1, i + 1, c1, now, env);
      AddedSplits(s, s1, CloseFrom(s1, i + 1, c1, now, env).0);
    }
  }

  lemma CloseNextTakesNothing(s: Service, i: nat, c: bool, now: int, env: Env)
    requires s.Has(i)
    ensures
      var r := CloseNext(s, i, c, now, env).0;
      s.trace <= r.trace && r.action == s.action && forall e :: e in Added(s, r) ==> !e.Closed?
  {
    CloseNextAdds(s, i, c, now, env);
    CloseIff(s, i, false, now, env);
    CloseNextCloses(s, i, c, now, env);
  }

  lemma ClosePassTakes(s: Service, sender: string, now: int, env: Env)
    ensures
      var (r, done) := ClosePass(s, sender, now, env);
      TakesOnly(s, r, s.action) && (done <==> Closed(s.action) in Added(s, r))
  {
    var s0 := s.(timerActive := false);
    var (r, done) := ClosePass(s, sender, now, env);
    var s1 := CloseFrom(s0, 0, true, now, env).0;
    ClosePassAdds(s, sender, now, env);
    CloseFromTakesNothing(s0, 0, true, now, env);
    var e := if sender == "updater" then CloseBroadcast else UpdaterCloseSent;
    TakenAtEnd(Added(s, r), Added(s, s1), e, done, s.action);
  }

  lemma TakenAtEnd(u: seq<Effect>, t: seq<Effect>, e: Effect, done: bool, action: CloseAction)
    requires u == t + [e] + (if done then [Closed(action)] else []) && !e.Closed?
    requires forall e :: e in t ==> !e.Closed?
    ensures forall x :: Closed(x) in u <==> done && x == action
  {
    if done {
      assert u[|u| - 1] == Closed(action);
    }
  }

  lemma TakesThen(s: Service, m: Service, r: Service, asked: CloseAction)
    requires TakesOnly(s, m, asked) && m.trace <= r.trace && r.action == m.action
    requires forall e :: e in Added(m, r) ==> !e.Closed?
    ensures TakesOnly(s, r, asked)
    ensures forall x :: Closed(x) in Added(s, r) <==> Closed(x) in Added(s, m)
  {
    AddedSplits(s, m, r);
  }

  /** The state after a command that closes everything, from the close pass it makes. */
  lemma CloseAllIsPass(s: Service, msg: Message, now: int, env: Env)
    requires ActionFor(msg.command).Some?
    ensures
      var s0 := s.(modules := Unneeded(s.modules), action := ActionFor(msg.command).value);
      Obey(s, msg, now, env) == ClosePass(s0, if msg.command == CloseAll then msg.sender else "watchdog", now, env).0
  {}

  lemma StartOrCloseTakes(s: Service, ordered: Service, now: int, env: Env)
    requires s.trace <= ordered.trace && ordered.action == s.action
    requires forall e :: e in Added(s, ordered) ==> !e.Closed?
    ensures TakesOnly(s, CheckPass(ordered, now, env), s.action)
  {
    CheckFromTakesNothing(ordered, 0, now, env);
    AddedSplits(s, ordered, CheckPass(ordered, now, env));
    TakesNothing(s, CheckPass(ordered, now, env));
  }

  lemma OrderAdds(s: Service, i: nat)
    requires s.Has(i)
    ensures
      var r := OrderStart(s, i);
      s.trace <= r.trace && r.action == s.action &&
      Added(s, r) == (if s.modules[i].exclusive then [FlagsSaved(NeedFlags(s.modules))] else []) + [CountReset(i)]
    ensures
      var r := OrderClose(s, i);
      s.trace <= r.trace && r.action == s.action &&
      Added(s, r) == if s.modules[i].autoStart then [AutoStartScheduled] else []
  {}

  lemma CloseAllTakes(s: Service, msg: Message, now: int, env: Env)
    requires ActionFor(msg.command).Some?
    ensures TakesOnly(s, Obey(s, msg, now, env), ActionFor(msg.command).value)
  {
    var s0 := s.(modules := Unneeded(s.modules), action := ActionFor(msg.command).value);
    CloseAllIsPass(s, msg, now, env);
    ClosePassTakes(s0, if msg.command == CloseAll then msg.sender else "watchdog", now, env);
  }

  lemma ObeyTakes(s: Service, msg: Message, now: int, env: Env)
    ensures TakesOnly(s, Obey(s, msg, now, env), AskedBy(At(now, Received(msg, env)), s.action))
  {
    var i := Find(s.modules, msg.target);
    if ActionFor(msg.command).Some? {
      CloseAllTakes(s, msg, now, env);
    } else if i.Some? && msg.command == StartModule {
      OrderAdds(s, i.value);
      StartOrCloseTakes(s, OrderStart(s, i.value), now, env);
    } else if i.Some? && msg.command == CloseModule {
      OrderAdds(s, i.value);
      StartOrCloseTakes(s, OrderClose(s, i.value), now, env);
    } else {
      TakesNothing(s, Obey(s, msg, now, env));
    }
  }

  /** An event takes no close action but the one that is asked for after it, and an action that was
      asked for is remembered until another one is, or until it was a restart and is taken. */
  lemma StepTakes(s: Service, t: Timed)
    ensures TakesOnly(s, Step(s, t), AskedBy(t, s.action))
  {
    match t.event
    case Received(msg, env) =>
      ObeyTakes(s, msg, t.now, env);
      TakesThen(s, Obey(s, msg, t.now, env), Step(s, t), AskedBy(t, s.action));
    case CheckTick(env) =>
      CheckFromTakesNothing(s, 0, t.now, env);
      TakesNothing(s, Step(s, t));
    case CloseTick(env) => ClosePassTakes(s, "watchdog", t.now, env);
    case AutoStartTick(envs) =>
      AutoStartTakesNothing(s, 0, t.now, envs);
      TakesNothing(s, Step(s, t));
    case _ => TakesNothing(s, Step(s, t));
  }

  /** The action of the latest command that closes everything. */
  function LatestAsked(ts: seq<Timed>): CloseAction {
    if ts == [] then NoAction else AskedBy(ts[|ts| - 1], LatestAsked(ts[..|ts| - 1]))
  }

  function Last(ts: seq<Timed>, action: CloseAction): CloseAction
    decreases |ts|
  {
    if ts == [] then action else Last(ts[1..], AskedBy(ts[0], action))
  }

  lemma {:induction false} LastIsLatest(ts: seq<Timed>, more: seq<Timed>)
    ensures Last(more, LatestAsked(ts)) == LatestAsked(ts + more)
    decreases |more|
  {
    if more == [] {
      assert ts + more == ts;
    } else {
      assert (ts + [more[0]])[..|ts|] == ts;
      LastIsLatest(ts + [more[0]], more[1..]);
      assert ts + [more[0]] + more[1..] == ts + more;
    }
  }

  /** The action that is remembered is the one asked for, or that was a restart and is taken. */
  predicate Remembers(action: CloseAction, asked: CloseAction) {
    action == asked || (asked == RestartModules && action == NoAction)
  }

  lemma {:induction false} RunRemembers(s: Service, asked: CloseAction, ts: seq<Timed>)
    requires Remembers(s.action, asked)
    ensures Remembers(Run(s, ts).action, Last(ts, asked))
    decreases |ts|
  {
    if ts == [] {
    } else {
      StepTakes(s, ts[0]);
      RunRemembers(Step(s, ts[0]), AskedBy(ts[0], asked), ts[1..]);
    }
  }

  /** Over every run, a close action that is taken is the one of the latest command that closes
      everything; only after a restart was taken, nothing further is. */
  lemma TakenAsAsked(config: seq<Module>, now: int, ts: seq<Timed>, t: Timed, x: CloseAction)
    requires var s := Run(Boot(config, now), ts); Closed(x) in Added(s, Step(s, t))
    ensures Remembers(x, LatestAsked(ts + [t]))
  {
    RunRemembers(Boot(config, now), NoAction, ts);
    LastIsLatest([], ts);
    assert [] + ts == ts && (ts + [t])[..|ts|] == ts;
    StepTakes(Run(Boot(config, now), ts), t);
  }

  // ---------------------------------------------------------------- the commands that close everything

  /** `r` is `s` after a message was also counted as a sign of life of its sender. */
  predicate OnlyTouched(s: Service, r: Service) {
    |r.modules| == |s.modules| && s.trace <= r.trace && r.timerActive == s.timerActive && r.action == s.action &&
    (forall e :: e in Added(s, r) ==> e.Touched?) &&
    forall j :: 0 <= j < |s.modules| ==>
      r.modules[j] == s.modules[j].(lastUpdate := r.modules[j].lastUpdate,
                                    killOnStartCount := r.modules[j].killOnStartCount)
  }

  lemma ReceiveTouches(s: Service, msg: Message, now: int, env: Env)
    ensures OnlyTouched(Obey(s, msg, now, env), Receive(s, msg, now, env))
  {}

  lemma PassesCloseAlike(s: Service, s0: Service, r0: Service, r: Service, k: nat, now: int, outcome: KillOutcome)
    requires s.Has(k) && s0.modules == Unneeded(s.modules) && s0.trace == s.trace && OnlyTouched(r0, r)
    requires s.trace <= r0.trace && |r0.modules| == |s.modules|
    requires ClosesAs(Added(s0, r0), s0.modules[k], r0.modules[k], k, BlockedBetween(s0, r0, k), now, outcome)
    ensures ClosesAs(Added(s, r), s.modules[k].(needToStart := false), r.modules[k], k, BlockedBetween(s, r, k),
                     now, outcome)
  {
    AddedSplits(s, r0, r);
    forall j ensures Blocks(s, r, j, k) <==> Blocks(s0, r0, j, k) {}
    assert BlockedBetween(s, r, k) <==> BlockedBetween(s0, r0, k);
    ClosesAsCarries(Added(s, r), Added(s0, r0), s0.modules[k], r0.modules[k], k, BlockedBetween(s0, r0, k), now,
                    outcome);
  }

  /** A command that closes everything leaves no module needed and no check timer; each running
      module is killed, asked to close or blocked as in a close pass, and the action the command
      stands for is taken at once if and only if nothing is left running. */
  lemma ClosingCommandCloses(s: Service, msg: Message, now: int, env: Env, k: nat)
    requires ActionFor(msg.command).Some? && s.Has(k)
    ensures
      var r := Step(s, At(now, Received(msg, env)));
      var t, blocked := Added(s, r), BlockedBetween(s, r, k);
      !r.timerActive && !r.modules[k].needToStart &&
      ClosesAs(t, s.modules[k].(needToStart := false), r.modules[k], k, blocked, now, env.kill(k)) &&
      (Closed(ActionFor(msg.command).value) in t <==> forall j :: 0 <= j < |r.modules| ==> !RunningAt(r, j))
  {
    var s0 := s.(modules := Unneeded(s.modules), action := ActionFor(msg.command).value);
    var sender := if msg.command == CloseAll then msg.sender else "watchdog";
    var (r0, done) := ClosePass(s0, sender, now, env);
    var r := Receive(s, msg, now, env);
    CloseAllIsPass(s, msg, now, env);
    ReceiveTouches(s, msg, now, env);
    ClosePassDecides(s0, sender, now, env, k);
    ClosePassSignals(s0, sender, now, env);
    ClosePassTakes(s0, sender, now, env);
    ClosesIffNothingRuns(s0, sender, now, env);
    AddedSplits(s, r0, r);
    PassesCloseAlike(s, s0, r0, r, k, now, env.kill(k));
    forall j ensures RunningAt(r, j) <==> RunningAt(r0, j) {}
  }

  // ---------------------------------------------------------------- no order is left over

  /** No start or close command waits for a later check. */
  predicate NoOrders(s: Service) {
    forall k :: 0 <= k < |s.modules| ==> s.modules[k].commandStack == []
  }

  lemma PassObeysOrders(s: Service, now: int, env: Env)
    requires forall k :: 0 <= k < |s.modules| ==> |s.modules[k].commandStack| <= 1
    ensures NoOrders(CheckPass(s, now, env))
  {
    var r := CheckPass(s, now, env);
    forall k | 0 <= k < |r.modules| ensures r.modules[k].commandStack == [] {
      CheckPassLeaves(s, now, env, k);
      assert |s.modules[k].commandStack| <= 1;
    }
  }

  lemma CloseKeepsOrders(s: Service, i: nat, c: bool, now: int, env: Env)
    requires NoOrders(s)
    ensures NoOrders(CloseFrom(s, i, c, now, env).0)
  {
    CloseFromCloses(s, i, c, now, env);
    var r := CloseFrom(s, i, c, now, env).0;
    forall k | 0 <= k < |r.modules| ensures r.modules[k].commandStack == [] {
      assert OnlyCloses(s.modules[k], r.modules[k]) && s.modules[k].commandStack == [];
    }
  }

  lemma {:induction false} AutoStartObeysOrders(s: Service, i: nat, now: int, envs: nat -> Env)
    requires NoOrders(s)
    ensures NoOrders(AutoStartFrom(s, i, now, envs))
    decreases |s.modules| - i
  {
    if i >= |s.modules| {
    } else if s.modules[i].autoStart && !s.modules[i].needToStart {
      PassObeysOrders(RearmAt(s, i), now, envs(i));
      AutoStartObeysOrders(CheckPass(RearmAt(s, i), now, envs(i)), i + 1, now, envs);
    } else {
      AutoStartObeysOrders(s, i + 1, now, envs);
    }
  }

  lemma ReceiveObeysOrders(s: Service, msg: Message, now: int, env: Env)
    requires NoOrders(s)
    ensures NoOrders(Receive(s, msg, now, env))
  {
    var i := Find(s.modules, msg.target);
    if ActionFor(msg.command).Some? {
      CloseAllIsPass(s, msg, now, env);
      CloseKeepsOrders(s.(modules := Unneeded(s.modules), action := ActionFor(msg.command).value, timerActive := false),
                       0, true, now, env);
    } else if i.Some? && msg.command == StartModule {
      PassObeysOrders(OrderStart(s, i.value), now, env);
    } else if i.Some? && msg.command == CloseModule {
      PassObeysOrders(OrderClose(s, i.value), now, env);
    }
    ReceiveTouches(s, msg, now, env);
  }

  lemma OtherStepKeepsOrders(s: Service, t: Timed)
    requires NoOrders(s)
    requires !t.event.Received? && !t.event.CheckTick? && !t.event.CloseTick? && !t.event.AutoStartTick?
    ensures NoOrders(Step(s, t))
  {}

  lemma StepObeysOrders(s: Service, t: Timed)
    requires NoOrders(s)
    ensures NoOrders(Step(s, t))
  {
    match t.event
    case Received(msg, env) => ReceiveObeysOrders(s, msg, t.now, env);
    case CheckTick(env) => if s.timerActive { PassObeysOrders(s, t.now, env); }
    case CloseTick(env) => CloseKeepsOrders(s.(timerActive := false), 0, true, t.now, env);
    case AutoStartTick(envs) => AutoStartObeysOrders(s, 0, t.now, envs);
    case _ => OtherStepKeepsOrders(s, t);
  }

  /** In every reachable state each start and close command has been obeyed by a check. */
  lemma {:induction false} RunObeysOrders(s: Service, ts: seq<Timed>)
    requires NoOrders(s)
    ensures NoOrders(Run(s, ts))
    decreases |ts|
  {
    if ts == [] {
    } else {
      StepObeysOrders(s, ts[0]);
      RunObeysOrders(Step(s, ts[0]), ts[1..]);
    }
  }

  // ---------------------------------------------------------------- start and close commands

  lemma OrderedIsNeeded(s: Service, i: nat, now: int, env: Env)
    requires NoOrders(s) && s.Has(i)
    ensures Needed(Turn(OrderStart(s, i), 0, i, now, env), i)
    ensures !Needed(Turn(OrderClose(s, i), 0, i, now, env), i)
  {
    TurnPassesBy(OrderStart(s, i), 0, i, now, env);
    TurnPassesBy(OrderClose(s, i), 0, i, now, env);
  }

  lemma OrdersChange(s: Service, i: nat)
    requires s.Has(i)
    ensures
      var m, r := s.modules[i], OrderStart(s, i).modules[i];
      r == m.(needToStart := true, restartCount := 0, commandStack := m.commandStack + [PushedStart],
              previousNeedToStart := r.previousNeedToStart)
    ensures
      var m, r := s.modules[i], OrderClose(s, i).modules[i];
      r == m.(needToStart := false, commandStack := m.commandStack + [PushedClose])
  {}

  lemma OrderedPass(s: Service, ordered: Service, r: Service, k: nat, now: int, env: Env)
    requires s.trace <= ordered.trace && ordered.Has(k) && OnlyTouched(CheckPass(ordered, now, env), r)
    requires forall e :: e in Added(s, ordered) ==> !Concerns(e, k)
    ensures s.trace <= r.trace
    ensures forall e :: Concerns(e, k) ==> (e in Added(s, r) <==> e in Added(ordered, CheckPass(ordered, now, env)))
  {
    var p := CheckPass(ordered, now, env);
    CheckFromTakesNothing(ordered, 0, now, env);
    AddedSplits(s, ordered, p);
    AddedSplits(s, p, r);
  }

  /** Module `k` is launched exactly if it may be, and neither given up nor closed. */
  ghost predicate StartedAs(t: seq<Effect>, k: nat, mayStart: bool) {
    (Launched(k) in t <==> mayStart) && (forall flags :: LimitReached(k, flags) !in t) &&
    CloseSent(k) !in t && !KilledIn(t, k, ForClosing)
  }

  lemma StartFollows(t: seq<Effect>, u: seq<Effect>, m: Module, k: nat, free: bool, now: int, outcome: KillOutcome)
    requires forall e :: Concerns(e, k) ==> (e in t <==> e in u)
    requires m.restartCount == 0 && Decided(u, m, k, true, free, now, outcome)
    ensures StartedAs(t, k, m.process == NotRunning && free)
  {
    forall flags ensures LimitReached(k, flags) !in t {
      assert LimitReached(k, flags) in t <==> LimitReached(k, flags) in u;
    }
  }

  lemma CloseFollows(t: seq<Effect>, u: seq<Effect>, m: Module, m': Module, k: nat, free: bool, now: int,
                     outcome: KillOutcome)
    requires forall e :: Concerns(e, k) ==> (e in t <==> e in u)
    requires m' == m.(needToStart := m'.needToStart, commandStack := m'.commandStack)
    requires Decided(u, m', k, false, free, now, outcome)
    ensures CloseDecided(t, m, k, m.process == Running, now, outcome) && Launched(k) !in t
  {}

  /** The pass that follows a start or a close command, seen from the message. */
  lemma OrderThenPass(s: Service, msg: Message, now: int, env: Env, k: nat)
    requires Find(s.modules, msg.target) == Some(k)
    ensures msg.command == StartModule ==>
      OnlyTouched(CheckPass(OrderStart(s, k), now, env), Receive(s, msg, now, env))
    ensures msg.command == CloseModule ==>
      OnlyTouched(CheckPass(OrderClose(s, k), now, env), Receive(s, msg, now, env))
  {
    ReceiveTouches(s, msg, now, env);
  }

  lemma OrderedStartDecides(s: Service, k: nat, now: int, env: Env)
    requires NoOrders(s) && s.Has(k)
    ensures
      var s1 := OrderStart(s, k);
      s1.modules[k].restartCount == 0 && s1.modules[k].process == s.modules[k].process &&
      Decided(Added(s1, CheckPass(s1, now, env)), s1.modules[k], k, true, Free(Turn(s1, 0, k, now, env), k), now,
              env.kill(k))
  {
    OrdersChange(s, k);
    OrderedIsNeeded(s, k, now, env);
    CheckPassDecides(OrderStart(s, k), now, env, k);
  }

  predicate Bookkeeping(e: Effect) {
    e.FlagsSaved? || e.CountReset? || e.AutoStartScheduled?
  }

  lemma OneOrTwo(t: seq<Effect>, first: seq<Effect>, e: Effect)
    requires t == first + [e] && (first == [] || (|first| == 1 && Bookkeeping(first[0]))) && Bookkeeping(e)
    ensures forall x :: x in t ==> Bookkeeping(x)
  {}

  lemma OrdersRecordNothing(s: Service, k: nat)
    requires s.Has(k)
    ensures s.trace <= OrderStart(s, k).trace && forall e :: e in Added(s, OrderStart(s, k)) ==> Bookkeeping(e)
    ensures s.trace <= OrderClose(s, k).trace && forall e :: e in Added(s, OrderClose(s, k)) ==> Bookkeeping(e)
  {
    OrderAdds(s, k);
    OneOrTwo(Added(s, OrderStart(s, k)), if s.modules[k].exclusive then [FlagsSaved(NeedFlags(s.modules))] else [],
             CountReset(k));
  }

  /** What a start or a close command records about its module is what its check pass records. */
  lemma OrderRecords(s: Service, ordered: Service, msg: Message, now: int, env: Env, k: nat)
    requires Find(s.modules, msg.target) == Some(k)
    requires (msg.command == StartModule && ordered == OrderStart(s, k)) ||
             (msg.command == CloseModule && ordered == OrderClose(s, k))
    ensures forall e :: Concerns(e, k) ==>
      (e in Added(s, Receive(s, msg, now, env)) <==> e in Added(ordered, CheckPass(ordered, now, env)))
  {
    OrdersRecordNothing(s, k);
    OrderThenPass(s, msg, now, env, k);
    OrderedPass(s, ordered, Receive(s, msg, now, env), k, now, env);
  }

  lemma StartObeyed(s: Service, msg: Message, now: int, env: Env, k: nat)
    requires NoOrders(s) && msg.command == StartModule && Find(s.modules, msg.target) == Some(k)
    ensures
      var t := Added(s, Receive(s, msg, now, env));
      StartedAs(t, k, s.modules[k].process == NotRunning && Free(Turn(OrderStart(s, k), 0, k, now, env), k))
  {
    var s1 := OrderStart(s, k);
    OrderRecords(s, s1, msg, now, env, k);
    OrderedStartDecides(s, k, now, env);
    StartFollows(Added(s, Receive(s, msg, now, env)), Added(s1, CheckPass(s1, now, env)), s1.modules[k], k,
                 Free(Turn(s1, 0, k, now, env), k), now, env.kill(k));
  }

  /** In every reachable state a start command launches its module at once if and only if it has no
      process and, when the check comes to it, no other module keeps it: it is not over its limit,
      and it is neither given up nor closed. */
  lemma StartIsObeyed(config: seq<Module>, now0: int, ts: seq<Timed>, msg: Message, now: int, env: Env, k: nat)
    requires var s := Run(Boot(config, now0), ts);
      msg.command == StartModule && Find(s.modules, msg.target) == Some(k)
    ensures
      var s := Run(Boot(config, now0), ts);
      var t := Added(s, Step(s, At(now, Received(msg, env))));
      StartedAs(t, k, s.modules[k].process == NotRunning && Free(Turn(OrderStart(s, k), 0, k, now, env), k))
  {
    RunObeysOrders(Boot(config, now0), ts);
    StartObeyed(Run(Boot(config, now0), ts), msg, now, env, k);
  }

  lemma OrderedCloseDecides(s: Service, k: nat, now: int, env: Env)
    requires NoOrders(s) && s.Has(k)
    ensures
      var s1 := OrderClose(s, k);
      Decided(Added(s1, CheckPass(s1, now, env)), s1.modules[k], k, false, Free(Turn(s1, 0, k, now, env), k), now,
              env.kill(k))
  {
    OrderedIsNeeded(s, k, now, env);
    CheckPassDecides(OrderClose(s, k), now, env, k);
  }

  lemma CloseObeyed(s: Service, msg: Message, now: int, env: Env, k: nat)
    requires NoOrders(s) && msg.command == CloseModule && Find(s.modules, msg.target) == Some(k)
    ensures
      var t := Added(s, Receive(s, msg, now, env));
      CloseDecided(t, s.modules[k], k, s.modules[k].process == Running, now, env.kill(k)) && Launched(k) !in t
  {
    var s1 := OrderClose(s, k);
    OrdersChange(s, k);
    OrderRecords(s, s1, msg, now, env, k);
    OrderedCloseDecides(s, k, now, env);
    CloseFollows(Added(s, Receive(s, msg, now, env)), Added(s1, CheckPass(s1, now, env)), s.modules[k], s1.modules[k],
                 k, Free(Turn(s1, 0, k, now, env), k), now, env.kill(k));
  }

  lemma NewStartIsScheduled(s: Service, msg: Message, now: int, env: Env, k: nat)
    requires msg.command == CloseModule && Find(s.modules, msg.target) == Some(k) && s.modules[k].autoStart
    ensures AutoStartScheduled in Added(s, Receive(s, msg, now, env))
  {
    var s1, r := OrderClose(s, k), Receive(s, msg, now, env);
    CheckFromExtends(s1, 0, now, env);
    ReceiveTouches(s, msg, now, env);
    assert s1.trace[|s.trace|] == AutoStartScheduled;
    assert Added(s, r)[0] == AutoStartScheduled;
  }

  /** In every reachable state a close command kills its module, if it runs, if and only if its
      closing time is over, asks it to close unless that has ended it, and schedules a new start if
      it is started automatically. */
  lemma CloseIsObeyed(config: seq<Module>, now0: int, ts: seq<Timed>, msg: Message, now: int, env: Env, k: nat)
    requires var s := Run(Boot(config, now0), ts);
      msg.command == CloseModule && Find(s.modules, msg.target) == Some(k)
    ensures
      var s := Run(Boot(config, now0), ts);
      var t := Added(s, Step(s, At(now, Received(msg, env))));
      CloseDecided(t, s.modules[k], k, s.modules[k].process == Running, now, env.kill(k)) &&
      Launched(k) !in t && (s.modules[k].autoStart ==> AutoStartScheduled in t)
  {
    var s := Run(Boot(config, now0), ts);
    RunObeysOrders(Boot(config, now0), ts);
    CloseObeyed(s, msg, now, env, k);
    if s.modules[k].autoStart {
      NewStartIsScheduled(s, msg, now, env, k);
    }
  }

  // ---------------------------------------------------------------- signs of life

  /** The first module with a name. */
  predicate IsFirst(ms: seq<Module>, name: string, k: nat) {
    k < |ms| && ms[k].name == name && forall j :: 0 <= j < k ==> ms[j].name != name
  }

  lemma {:induction false} FindsFirst(ms: seq<Module>, name: string, i: nat, k: nat)
    requires i <= k && IsFirst(ms, name, k)
    ensures FindFrom(ms, name, i) == Some(k)
    decreases k - i
  {
    if i == k {
    } else {
      FindsFirst(ms, name, i + 1, k);
    }
  }

  lemma CloseAllKeepsSettings(s: Service, msg: Message, now: int, env: Env)
    requires ActionFor(msg.command).Some?
    ensures s.trace <= Obey(s, msg, now, env).trace && SameSettings(s, Obey(s, msg, now, env))
  {
    var s0 := s.(modules := Unneeded(s.modules), action := ActionFor(msg.command).value);
    var sender := if msg.command == CloseAll then msg.sender else "watchdog";
    CloseAllIsPass(s, msg, now, env);
    ClosePassAdds(s0, sender, now, env);
    CloseFromCloses(s0.(timerActive := false), 0, true, now, env);
    forall j | 0 <= j < |s.modules| ensures OnlyCloses(s0.modules[j], Obey(s, msg, now, env).modules[j]) {}
  }

  lemma ObeyKeepsSettings(s: Service, msg: Message, now: int, env: Env)
    ensures s.trace <= Obey(s, msg, now, env).trace && SameSettings(s, Obey(s, msg, now, env))
  {
    var i := Find(s.modules, msg.target);
    if ActionFor(msg.command).Some? {
      CloseAllKeepsSettings(s, msg, now, env);
    } else if i.Some? && msg.command == StartModule {
      CheckFromTakesNothing(OrderStart(s, i.value), 0, now, env);
    } else if i.Some? && msg.command == CloseModule {
      CheckFromTakesNothing(OrderClose(s, i.value), 0, now, env);
    }
  }

  /** Whatever a module asks for, its message is a sign of life: its date is the present one and
      its kills during start-up are forgotten. */
  lemma SenderIsTouched(s: Service, msg: Message, now: int, env: Env, k: nat)
    requires IsFirst(s.modules, msg.sender, k)
    ensures
      var r := Step(s, At(now, Received(msg, env)));
      r.Has(k) && r.modules[k].lastUpdate == now && r.modules[k].killOnStartCount == 0 && Touched(k) in Added(s, r)
  {
    var s1, r := Obey(s, msg, now, env), Receive(s, msg, now, env);
    ObeyKeepsSettings(s, msg, now, env);
    FindsFirst(s1.modules, msg.sender, 0, k);
    assert r == TouchAt(s1, k, now);
    assert Added(s, r)[|s1.trace| - |s.trace|] == Touched(k);
  }

  // ---------------------------------------------------------------- automatic starts

  /** The state in which the automatic start, being at module `i`, comes to module `k`. */
  function AutoTurn(s: Service, i: nat, k: nat, now: int, envs: nat -> Env): (r: Service)
    requires k <= |s.modules|
    ensures |r.modules| == |s.modules|
    decreases k - i
  {
    if i >= k then s
    else if s.modules[i].autoStart && !s.modules[i].needToStart then
      AutoTurn(CheckPass(RearmAt(s, i), now, envs(i)), i + 1, k, now, envs)
    else AutoTurn(s, i + 1, k, now, envs)
  }

  lemma RearmAdds(s: Service, i: nat, k: nat, now: int, env: Env)
    requires s.Has(i)
    ensures
      var r := CheckPass(RearmAt(s, i), now, env);
      Checks(s, r) && (CountReset(k) in Added(s, r) <==> k == i)
  {
    var s1 := RearmAt(s, i);
    CheckFromTakesNothing(s1, 0, now, env);
    ChecksThen(s, s1, CheckPass(s1, now, env));
    AddedSplits(s, s1, CheckPass(s1, now, env));
    assert Added(s, s1) == [CountReset(i)];
    assert Added(s, s1)[0] == CountReset(i);
  }

  lemma {:induction false} NotRearmed(s: Service, i: nat, k: nat, now: int, envs: nat -> Env)
    requires k < i
    ensures CountReset(k) !in Added(s, AutoStartFrom(s, i, now, envs))
    decreases |s.modules| - i
  {
    if i >= |s.modules| {
    } else if s.modules[i].autoStart && !s.modules[i].needToStart {
      var s1 := CheckPass(RearmAt(s, i), now, envs(i));
      RearmAdds(s, i, k, now, envs(i));
      AutoStartTakesNothing(s1, i + 1, now, envs);
      NotRearmed(s1, i + 1, k, now, envs);
      AddedSplits(s, s1, AutoStartFrom(s1, i + 1, now, envs));
    } else {
      NotRearmed(s, i + 1, k, now, envs);
    }
  }

  /** The automatic start gives a module its starts back, and needs it again, if and only if it is
      started automatically and is not needed when its turn comes. */
  lemma {:induction false} RearmedIff(s: Service, i: nat, k: nat, now: int, envs: nat -> Env)
    requires i <= k && s.Has(k)
    ensures
      CountReset(k) in Added(s, AutoStartFrom(s, i, now, envs)) <==>
      s.modules[k].autoStart && !AutoTurn(s, i, k, now, envs).modules[k].needToStart
    decreases k - i
  {
    if s.modules[i].autoStart && !s.modules[i].needToStart {
      var s1 := CheckPass(RearmAt(s, i), now, envs(i));
      RearmAdds(s, i, k, now, envs(i));
      AutoStartTakesNothing(s1, i + 1, now, envs);
      AddedSplits(s, s1, AutoStartFrom(s1, i + 1, now, envs));
      if i == k {
        NotRearmed(s1, i + 1, k, now, envs);
      } else {
        RearmedIff(s1, i + 1, k, now, envs);
      }
    } else if i == k {
      NotRearmed(s, i + 1, k, now, envs);
    } else {
      RearmedIff(s, i + 1, k, now, envs);
    }
  }

  // ---------------------------------------------------------------- the check timer

  lemma StepKeepsTimerOff(s: Service, t: Timed)
    requires !s.timerActive && !t.event.Reloaded?
    ensures !Step(s, t).timerActive
  {
    match t.event
    case Received(msg, env) =>
      ReceiveTouches(s, msg, t.now, env);
      ObeyKeepsTimerOff(s, msg, t.now, env);
    case CloseTick(env) => ClosePassSignals(s, "watchdog", t.now, env);
    case AutoStartTick(envs) => AutoStartTakesNothing(s, 0, t.now, envs);
    case _ =>
  }

  lemma ObeyKeepsTimerOff(s: Service, msg: Message, now: int, env: Env)
    requires !s.timerActive
    ensures !Obey(s, msg, now, env).timerActive
  {
    var i := Find(s.modules, msg.target);
    if ActionFor(msg.command).Some? {
      var s0 := s.(modules := Unneeded(s.modules), action := ActionFor(msg.command).value);
      CloseAllIsPass(s, msg, now, env);
      ClosePassSignals(s0, if msg.command == CloseAll then msg.sender else "watchdog", now, env);
    } else if i.Some? && msg.command == StartModule {
      CheckFromTakesNothing(OrderStart(s, i.value), 0, now, env);
    } else if i.Some? && msg.command == CloseModule {
      CheckFromTakesNothing(OrderClose(s, i.value), 0, now, env);
    }
  }

  /** Once a close pass was made, the check timer does nothing until the modules are loaded again:
      over any run from there. */
  lemma {:induction false} NoChecksWhileClosing(s: Service, ts: seq<Timed>, now: int, env: Env)
    requires !s.timerActive && forall t :: t in ts ==> !t.event.Reloaded?
    ensures Step(Run(s, ts), At(now, CheckTick(env))) == Run(s, ts)
    decreases |ts|
  {
    if ts == [] {
    } else {
      StepKeepsTimerOff(s, ts[0]);
      NoChecksWhileClosing(Step(s, ts[0]), ts[1..], now, env);
    }
  }

  // ---------------------------------------------------------------- the other events

  /** What a signal of its process does to a module: a starting process comes up or fails, a running
      one ends and may be announced; a signal that comes too late does nothing, and no signal does
      anything to another module. */
  lemma SignalMoves(s: Service, t: Timed, k: nat, j: nat)
    requires t.event == ProcessStarted(k) || t.event == ProcessFailedToStart(k) ||
             (t.event.ProcessFinished? && t.event.id == k)
    requires s.Has(k) && s.Has(j)
    ensures
      var r, m := Step(s, t), s.modules[k];
      var starts := t.event.ProcessStarted? && m.process == Starting;
      var ends := if t.event.ProcessFinished? then m.process == Running
                  else t.event.ProcessFailedToStart? && m.process == Starting;
      |r.modules| == |s.modules| && (j != k ==> r.modules[j] == s.modules[j]) &&
      r.modules[k].process == (if starts then Running else if ends then NotRunning else m.process) &&
      r.modules[k].initDate == (if starts then t.now else m.initDate) &&
      r.modules[k].lastUpdate == (if starts then t.now else m.lastUpdate) &&
      r.modules[k].restartCount == (if starts then (m.restartCount + 1) % TWO_TO_THE_32 else m.restartCount) &&
      s.trace <= r.trace &&
      Added(s, r) == if starts then [StartedUp(k)]
                     else if ends && t.event.ProcessFinished? && t.event.announce then [ModuleClosedSent(k)]
                     else []
  {}

  /** Loading the configuration forgets everything about the modules and starts the check timer: a
      module is needed exactly if it is started automatically. */
  lemma LoadStartsOver(s: Service, config: seq<Module>, now: int, i: nat)
    requires i < |config|
    ensures
      var r := Step(s, At(now, Reloaded(config)));
      r.timerActive && r.action == s.action && |r.modules| == |config| &&
      var m := r.modules[i];
      (m.needToStart <==> config[i].autoStart) && m.process == NotRunning && m.commandStack == [] &&
      m.restartCount == m.noResponseCount == m.killOnStartCount == 0 && m.initDate == m.lastUpdate == now &&
      m.name == config[i].name && m.exclusive == config[i].exclusive && m.maxStartCount == config[i].maxStartCount &&
      m.startPriority == config[i].startPriority && m.closePriority == config[i].closePriority &&
      m.firstPingTimeout == config[i].firstPingTimeout && m.killTimeout == config[i].killTimeout
  {}

  /** A start command for a module that is not known does nothing, and a close command passes the
      request on; either way only the sender is touched. */
  lemma UnknownTarget(s: Service, msg: Message, now: int, env: Env)
    requires msg.command == StartModule || msg.command == CloseModule
    requires forall i :: 0 <= i < |s.modules| ==> s.modules[i].name != msg.target
    ensures
      OnlyTouched(if msg.command == CloseModule then s.Emit(CloseForwarded(msg.target)) else s,
                  Step(s, At(now, Received(msg, env))))
  {
    ReceiveTouches(s, msg, now, env);
  }
}
