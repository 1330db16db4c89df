/** What one check pass and one close pass do to each module: which effect is recorded about
    it, for every state, in terms of the state alone. */
module WatchVerdicts {
  import opened Common
  import opened WatchModel
  import opened WatchClaims
  import opened WatchOrder

  /** What was recorded between two states. */
  function Added(s: Service, r: Service): seq<Effect> {
    if |s.trace| <= |r.trace| then r.trace[|s.trace|..] else []
  }

  lemma AddedSplits(s: Service, m: Service, r: Service)
    requires s.trace <= m.trace <= r.trace
    ensures Added(s, r) == Added(s, m) + Added(m, r)
  {}

  /** The effects about module `k` that a pass can have. */
  predicate Concerns(e: Effect, k: nat) {
    match e
    case Launched(id) => id == k
    case StartedUp(id) => id == k
    case Missed(id) => id == k
    case OnTime(id) => id == k
    case Killed(id, _, _) => id == k
    case CloseSent(id) => id == k
    case LimitReached(id, _) => id == k
    case _ => false
  }

  predicate KilledIn(t: seq<Effect>, k: nat, why: Killer) {
    Killed(k, true, why) in t || Killed(k, false, why) in t
  }

  // ---------------------------------------------------------------- one module

  /** How a kill changes the process. */
  function Survives(m: Module, outcome: KillOutcome): ProcessState {
    if m.process == Running || (m.process == Starting && outcome.startedFirst) then
      if outcome.finished then NotRunning else Running
    else m.process
  }

  lemma KillAdds(s: Service, i: nat, now: int, env: Env, why: Killer)
    requires s.Has(i)
    ensures
      var r, m := KillAt(s, i, now, env, why), s.modules[i];
      var up := m.process == Starting && env.kill(i).startedFirst;
      s.trace <= r.0.trace &&
      Added(s, r.0) == (if up then [StartedUp(i)] else []) + [Killed(i, up || m.lastUpdate == m.initDate, why)] &&
      r.0.modules[i].process == Survives(m, env.kill(i)) &&
      (r.1 <==> r.0.modules[i].process == NotRunning && m.process != NotRunning)
  {}

  lemma KillLeaves(s: Service, i: nat, now: int, env: Env, why: Killer)
    requires s.Has(i)
    ensures
      var m, outcome := s.modules[i], env.kill(i);
      var m' := (if m.process == Starting && outcome.startedFirst then m.StartUp(now) else m).Reap(outcome);
      var r := KillAt(s, i, now, env, why).0;
      r == s.(modules := s.modules[i := m'], trace := r.trace)
  {}

  /** A process whose first-ping time is not over keeps it. */
  predicate MayStillPing(m: Module, now: int) {
    m.initDate == m.lastUpdate && m.initDate + 1000 * m.FirstPingTimeout() > now
  }

  lemma AnswerAdds(s: Service, i: nat, now: int, env: Env)
    requires s.Has(i)
    ensures
      var r, m := CheckAnswer(s, i, now, env), s.modules[i];
      s.trace <= r.trace &&
      Added(s, r) ==
        if Overdue(m, now) then
          if m.noResponseCount > 0 then Added(s, KillAt(s, i, now, env, ForSilence).0) else [Missed(i)]
        else if MayStillPing(m, now) then [] else [OnTime(i)]
  {
    KillAdds(s, i, now, env, ForSilence);
  }

  function ClosingDeadline(m: Module): int {
    m.lastUpdate + 1000 * if ToLower(m.name) == "updater" then SLOW_PC_KILL_TIMEOUT else m.killTimeout
  }

  /** A running module of smaller priority keeps module `i` from being closed. */
  ghost predicate CloseBlocked(s: Service, i: nat)
    requires s.Has(i)
  {
    s.modules[i].closePriority != NO_PRIORITY && HasSmallerRunning(s, i)
  }

  lemma BlockedMeans(s: Service, i: nat)
    requires RunningAt(s, i)
    ensures CanTerminate(s.Put(i, s.modules[i].(needToStart := false)).modules, i) <==> !CloseBlocked(s, i)
  {
    var ms := s.Put(i, s.modules[i].(needToStart := false)).modules;
    forall j | 0 <= j < |ms|
      ensures BlocksClose(ms[j], ms[i]) <==>
        RunningAt(s, j) && s.modules[j].closePriority < s.modules[i].closePriority
    {}
  }

  lemma CloseAdds(s: Service, i: nat, ignorePriority: bool, now: int, env: Env)
    requires s.Has(i)
    ensures
      var (r, closed) := CloseAt(s, i, ignorePriority, now, env);
      var m, late := s.modules[i], ClosingDeadline(s.modules[i]) < now;
      s.trace <= r.trace &&
      Added(s, r) ==
        if m.process != Running || (!ignorePriority && CloseBlocked(s, i)) then []
        else (if late then [Killed(i, m.lastUpdate == m.initDate, ForClosing)] else []) +
             (if late && env.kill(i).finished then [] else [CloseSent(i)])
  {
    var m := s.modules[i];
    if m.process == Running {
      BlockedMeans(s, i);
      KillAdds(s.Put(i, m.(needToStart := false)), i, now, env, ForClosing);
    }
  }

  /** `other` does not keep `m` from being started: an exclusive module waits until it does not
      run, any other until it has answered, if it is needed and has a smaller priority. */
  predicate LetsStart(other: Module, m: Module) {
    if m.exclusive then other.process != Running
    else
      other.startPriority >= m.startPriority || !other.needToStart ||
      (other.process != NotRunning && other.initDate != other.lastUpdate)
  }

  predicate Free(s: Service, k: nat)
    requires s.Has(k)
  {
    s.modules[k].startPriority == NO_PRIORITY ||
    forall j :: 0 <= j < |s.modules| && j != k ==> LetsStart(s.modules[j], s.modules[k])
  }

  /** The start and close commands are obeyed one at each check, the oldest first. */
  predicate Needed(s: Service, k: nat)
    requires s.Has(k)
  {
    var m := s.modules[k];
    if m.commandStack == [] then m.needToStart else m.commandStack[0] == PushedStart
  }

  predicate UsedUp(m: Module) {
    0 < m.maxStartCount <= m.restartCount
  }

  lemma FreeMeans(s: Service, k: nat)
    requires s.Has(k) && Needed(s, k) && s.modules[k].process == NotRunning
    ensures CanRun(s.Put(k, s.modules[k].PopCommand()).modules, k) <==> Free(s, k)
  {
    var ms := s.Put(k, s.modules[k].PopCommand()).modules;
    forall j | 0 <= j < |ms| && j != k ensures BlocksStart(ms[j], ms[k]) <==> !LetsStart(s.modules[j], s.modules[k]) {}
    assert !BlocksStart(ms[k], ms[k]);
  }

  lemma StartAdds(s: Service, k: nat, now: int, env: Env)
    requires s.Has(k) && Needed(s, k) && s.modules[k].process == NotRunning
    ensures
      var r := CheckAt(s, k, now, env);
      s.trace <= r.trace &&
      Added(s, r) ==
        if !Free(s, k) then []
        else if UsedUp(s.modules[k]) then [LimitReached(k, NeedFlags(r.modules))]
        else [Launched(k)]
  {
    FreeMeans(s, k);
  }

  predicate Closes(e: Effect, k: nat) {
    e == CloseSent(k) || (e.Killed? && e.id == k && e.why == ForClosing)
  }

  lemma ClosingEffects(t: seq<Effect>, k: nat, startup: bool, late: bool, done: bool)
    requires t ==
      (if late then [Killed(k, startup, ForClosing)] else []) + (if late && done then [] else [CloseSent(k)])
    ensures forall e :: e in t ==> Closes(e, k)
    ensures KilledIn(t, k, ForClosing) <==> late
    ensures CloseSent(k) in t <==> !(late && done)
  {
    if late {
      assert t[0] == Killed(k, startup, ForClosing);
    }
    if !(late && done) {
      assert t[|t| - 1] == CloseSent(k);
    }
  }

  /** A running module that is not blocked is killed if its closing time is over, and asked to
      close unless that has ended it. */
  lemma CloseIff(s: Service, i: nat, ignorePriority: bool, now: int, env: Env)
    requires s.Has(i)
    ensures
      var t, late := Added(s, CloseAt(s, i, ignorePriority, now, env).0), ClosingDeadline(s.modules[i]) < now;
      var asked := s.modules[i].process == Running && (ignorePriority || !CloseBlocked(s, i));
      s.trace <= CloseAt(s, i, ignorePriority, now, env).0.trace &&
      (forall e :: e in t ==> Closes(e, i)) &&
      (KilledIn(t, i, ForClosing) <==> asked && late) &&
      (CloseSent(i) in t <==> asked && !(late && env.kill(i).finished))
  {
    var m := s.modules[i];
    CloseAdds(s, i, ignorePriority, now, env);
    if m.process == Running && (ignorePriority || !CloseBlocked(s, i)) {
      ClosingEffects(Added(s, CloseAt(s, i, ignorePriority, now, env).0), i, m.lastUpdate == m.initDate,
                     ClosingDeadline(m) < now, env.kill(i).finished);
    }
  }

  predicate Judges(e: Effect, k: nat) {
    e == StartedUp(k) || e == Missed(k) || e == OnTime(k) || (e.Killed? && e.id == k && e.why == ForSilence)
  }

  lemma KillEffects(t: seq<Effect>, up: bool, i: nat, startup: bool)
    requires t == (if up then [StartedUp(i)] else []) + [Killed(i, startup, ForSilence)]
    ensures forall e :: e in t ==> Judges(e, i)
    ensures KilledIn(t, i, ForSilence) && Missed(i) !in t && OnTime(i) !in t
  {
    assert t[|t| - 1] == Killed(i, startup, ForSilence);
  }

  lemma KillConcerns(s: Service, i: nat, now: int, env: Env)
    requires s.Has(i)
    ensures forall e :: e in Added(s, KillAt(s, i, now, env, ForSilence).0) ==> Judges(e, i)
    ensures KilledIn(Added(s, KillAt(s, i, now, env, ForSilence).0), i, ForSilence)
    ensures
      var t := Added(s, KillAt(s, i, now, env, ForSilence).0);
      Missed(i) !in t && OnTime(i) !in t
  {
    var m, up := s.modules[i], s.modules[i].process == Starting && env.kill(i).startedFirst;
    KillAdds(s, i, now, env, ForSilence);
    KillEffects(Added(s, KillAt(s, i, now, env, ForSilence).0), up, i, up || m.lastUpdate == m.initDate);
  }

  lemma AnswerConcerns(s: Service, i: nat, now: int, env: Env)
    requires s.Has(i)
    ensures forall e :: e in Added(s, CheckAnswer(s, i, now, env)) ==> Judges(e, i)
  {
    AnswerAdds(s, i, now, env);
    KillConcerns(s, i, now, env);
  }

  predicate OneStart(t: seq<Effect>, k: nat) {
    t == [] || t == [Launched(k)] || (|t| == 1 && t[0].LimitReached? && t[0].id == k)
  }

  lemma EffectsConcern(t: seq<Effect>, k: nat)
    requires (forall e :: e in t ==> Closes(e, k)) || (forall e :: e in t ==> Judges(e, k)) || OneStart(t, k)
    ensures forall e :: e in t ==> Concerns(e, k)
  {}

  lemma CheckConcerns(s: Service, i: nat, now: int, env: Env)
    requires s.Has(i)
    ensures forall e :: e in Added(s, CheckAt(s, i, now, env)) ==> Concerns(e, i)
  {
    var s1 := s.Put(i, s.modules[i].PopCommand());
    if !Needed(s, i) {
      CloseIff(s1, i, true, now, env);
    } else if s.modules[i].process == NotRunning {
      StartAdds(s, i, now, env);
      assert OneStart(Added(s, CheckAt(s, i, now, env)), i);
    } else {
      AnswerConcerns(s1, i, now, env);
    }
    EffectsConcern(Added(s1, CheckAt(s, i, now, env)), i);
  }

  // ---------------------------------------------------------------- a check pass

  /** The state in which a pass that is at module `i` comes to module `k`. */
  function Turn(s: Service, i: nat, k: nat, now: int, env: Env): (r: Service)
    requires k <= |s.modules|
    ensures |r.modules| == |s.modules|
    decreases k - i
  {
    if i >= k then s else Turn(CheckAt(s, i, now, env), i + 1, k, now, env)
  }

  /** From `s` to `r` nothing is recorded about module `k`, and only its need may change. */
  predicate PassesBy(s: Service, r: Service, k: nat) {
    s.Has(k) && r.Has(k) && s.trace <= r.trace && SameButNeed(s.modules[k], r.modules[k]) &&
    forall e :: e in Added(s, r) ==> !Concerns(e, k)
  }

  lemma PassesTransitive(s: Service, m: Service, r: Service, k: nat)
    requires PassesBy(s, m, k) && PassesBy(m, r, k)
    ensures PassesBy(s, r, k)
  {
    AddedSplits(s, m, r);
  }

  lemma CheckPassesBy(s: Service, i: nat, k: nat, now: int, env: Env)
    requires s.Has(i) && s.Has(k) && i != k
    ensures PassesBy(s, CheckAt(s, i, now, env), k)
  {
    CheckExtends(s, i, now, env);
    CheckConcerns(s, i, now, env);
    CheckLeavesOthers(s, i, now, env);
  }

  lemma {:induction false} RestPassesBy(s: Service, i: nat, k: nat, now: int, env: Env)
    requires k < i && s.Has(k)
    ensures PassesBy(s, CheckFrom(s, i, now, env), k)
    decreases |s.modules| - i
  {
    if i >= |s.modules| {
    } else {
      var s1 := CheckAt(s, i, now, env);
      CheckPassesBy(s, i, k, now, env);
      RestPassesBy(s1, i + 1, k, now, env);
      PassesTransitive(s, s1, CheckFrom(s1, i + 1, now, env), k);
    }
  }

  lemma {:induction false} TurnPassesBy(s: Service, i: nat, k: nat, now: int, env: Env)
    requires s.Has(k)
    ensures PassesBy(s, Turn(s, i, k, now, env), k)
    ensures i <= k ==> CheckFrom(Turn(s, i, k, now, env), k, now, env) == CheckFrom(s, i, now, env)
    decreases k - i
  {
    if i >= k {
    } else {
      var s1 := CheckAt(s, i, now, env);
      CheckPassesBy(s, i, k, now, env);
      TurnPassesBy(s1, i + 1, k, now, env);
      PassesTransitive(s, s1, Turn(s1, i + 1, k, now, env), k);
    }
  }

  lemma SameRecorded(s: Service, turn: Service, next: Service, r: Service, k: nat)
    requires PassesBy(s, turn, k) && turn.trace <= next.trace && PassesBy(next, r, k)
    ensures forall e :: Concerns(e, k) ==> (e in Added(s, r) <==> e in Added(turn, next))
  {
    AddedSplits(s, turn, r);
    AddedSplits(turn, next, r);
  }

  /** What a pass records about module `k` is what its turn records, and apart from its turn
      only its need may change. */
  lemma OnlyItsTurn(s: Service, k: nat, now: int, env: Env)
    requires s.Has(k)
    ensures
      var turn, r := Turn(s, 0, k, now, env), CheckPass(s, now, env);
      var next := CheckAt(turn, k, now, env);
      SameButNeed(s.modules[k], turn.modules[k]) && SameButNeed(next.modules[k], r.modules[k]) &&
      forall e :: Concerns(e, k) ==> (e in Added(s, r) <==> e in Added(turn, next))
  {
    var turn := Turn(s, 0, k, now, env);
    var next := CheckAt(turn, k, now, env);
    TurnPassesBy(s, 0, k, now, env);
    CheckExtends(turn, k, now, env);
    RestPassesBy(next, k + 1, k, now, env);
    SameRecorded(s, turn, next, CheckPass(s, now, env), k);
  }

  // A process that is there and needed.
  predicate AnswersJudged(t: seq<Effect>, m: Module, k: nat, judged: bool, now: int) {
    (KilledIn(t, k, ForSilence) <==> judged && Overdue(m, now) && m.noResponseCount > 0) &&
    (Missed(k) in t <==> judged && Overdue(m, now) && m.noResponseCount <= 0) &&
    (OnTime(k) in t <==> judged && now <= m.lastUpdate + 1000 * m.killTimeout && !MayStillPing(m, now))
  }

  // A module that is needed and has no process.
  ghost predicate StartDecided(t: seq<Effect>, m: Module, k: nat, mayStart: bool) {
    (Launched(k) in t <==> mayStart && !UsedUp(m)) &&
    ((exists flags :: LimitReached(k, flags) in t) <==> mayStart && UsedUp(m))
  }

  // A running process that is to go.
  predicate CloseDecided(t: seq<Effect>, m: Module, k: nat, asked: bool, now: int, outcome: KillOutcome) {
    (KilledIn(t, k, ForClosing) <==> asked && ClosingDeadline(m) < now) &&
    (CloseSent(k) in t <==> asked && !(ClosingDeadline(m) < now && outcome.finished))
  }

  ghost predicate Decided(t: seq<Effect>, m: Module, k: nat, needed: bool, free: bool, now: int, outcome: KillOutcome) {
    && AnswersJudged(t, m, k, needed && m.process != NotRunning, now)
    && StartDecided(t, m, k, needed && m.process == NotRunning && free)
    && CloseDecided(t, m, k, !needed && m.process == Running, now, outcome)
  }

  lemma OnlyClosing(t: seq<Effect>, m: Module, k: nat, asked: bool, now: int, outcome: KillOutcome)
    requires (forall e :: e in t ==> Closes(e, k)) && CloseDecided(t, m, k, asked, now, outcome)
    requires asked <==> m.process == Running
    ensures forall free :: Decided(t, m, k, false, free, now, outcome)
  {
    forall flags ensures LimitReached(k, flags) !in t {}
  }

  lemma OnlyJudging(t: seq<Effect>, m: Module, k: nat, now: int, outcome: KillOutcome)
    requires (forall e :: e in t ==> Judges(e, k)) && AnswersJudged(t, m, k, true, now)
    requires m.process != NotRunning
    ensures forall free :: Decided(t, m, k, true, free, now, outcome)
  {
    forall flags ensures LimitReached(k, flags) !in t {}
  }

  lemma StartDecides(s: Service, k: nat, now: int, env: Env)
    requires s.Has(k) && Needed(s, k) && s.modules[k].process == NotRunning
    ensures
      var t := Added(s, CheckAt(s, k, now, env));
      Decided(t, s.modules[k], k, true, Free(s, k), now, env.kill(k))
  {
    StartAdds(s, k, now, env);
    var flags := NeedFlags(CheckAt(s, k, now, env).modules);
    assert Free(s, k) && UsedUp(s.modules[k]) ==> [LimitReached(k, flags)][0] == LimitReached(k, flags);
  }

  lemma AnswerDecides(s: Service, k: nat, now: int, env: Env)
    requires s.Has(k)
    ensures
      var t := Added(s, CheckAnswer(s, k, now, env));
      (forall e :: e in t ==> Judges(e, k)) && AnswersJudged(t, s.modules[k], k, true, now)
  {
    AnswerAdds(s, k, now, env);
    KillConcerns(s, k, now, env);
  }

  lemma TurnDecides(s: Service, k: nat, now: int, env: Env)
    requires s.Has(k)
    ensures Decided(Added(s, CheckAt(s, k, now, env)), s.modules[k], k, Needed(s, k), Free(s, k), now, env.kill(k))
  {
    var s1 := s.Put(k, s.modules[k].PopCommand());
    var t := Added(s1, CheckAt(s, k, now, env));
    if !Needed(s, k) {
      CloseIff(s1, k, true, now, env);
      OnlyClosing(t, s.modules[k], k, s.modules[k].process == Running, now, env.kill(k));
    } else if s.modules[k].process == NotRunning {
      StartDecides(s, k, now, env);
    } else {
      AnswerDecides(s1, k, now, env);
      OnlyJudging(t, s.modules[k], k, now, env.kill(k));
    }
  }

  lemma DecidedCarries(t: seq<Effect>, u: seq<Effect>, m: Module, m': Module, k: nat, needed: bool, free: bool,
                       now: int, outcome: KillOutcome)
    requires forall e :: Concerns(e, k) ==> (e in t <==> e in u)
    requires SameButNeed(m, m') && Decided(u, m', k, needed, free, now, outcome)
    ensures Decided(t, m, k, needed, free, now, outcome)
  {}

  /** Which effects a check pass has on module `k`, for every state.
      A process that is needed is killed for silence if and only if both deadlines are over for
      the second time; a miss is counted if and only if they are over for the first time; it
      counts as on time if and only if its ping deadline is not over and its first-ping time is.
      A needed module without a process is launched if and only if no other module keeps it
      and it has starts left, and given up if and only if it has none left.
      A running process that is not needed is killed if and only if its closing time is over, and
      asked to close if and only if that has not ended it.
      Needed and free are meant when the pass comes to the module. */
  lemma CheckPassDecides(s: Service, now: int, env: Env, k: nat)
    requires s.Has(k)
    ensures
      var t, turn := Added(s, CheckPass(s, now, env)), Turn(s, 0, k, now, env);
      Decided(t, s.modules[k], k, Needed(turn, k), Free(turn, k), now, env.kill(k))
  {
    var turn := Turn(s, 0, k, now, env);
    OnlyItsTurn(s, k, now, env);
    TurnDecides(turn, k, now, env);
    DecidedCarries(Added(s, CheckPass(s, now, env)), Added(turn, CheckAt(turn, k, now, env)),
                   s.modules[k], turn.modules[k], k, Needed(turn, k), Free(turn, k), now, env.kill(k));
  }

  /** How a pass that records `t` about module `k` changes it: its process changes by a launch or a
      kill only, its dates and its count only by a start signal that comes while it is killed, and
      one command is taken off its stack. */
  predicate Leaves(t: seq<Effect>, m: Module, r: Module, k: nat, now: int, env: Env) {
    var up := m.process == Starting && env.kill(k).startedFirst && KilledIn(t, k, ForSilence);
    && r.process == (if Launched(k) in t then if env.launch(k) then Starting else NotRunning
                     else if KilledIn(t, k, ForSilence) || KilledIn(t, k, ForClosing) then Survives(m, env.kill(k))
                     else m.process)
    && (if up then r.initDate == r.lastUpdate == now && r.restartCount == (m.restartCount + 1) % TWO_TO_THE_32
        else r.initDate == m.initDate && r.lastUpdate == m.lastUpdate && r.restartCount == m.restartCount)
    && r.commandStack == (if m.commandStack == [] then [] else m.commandStack[1..])
  }

  lemma CloseLeaves(s: Service, k: nat, now: int, env: Env)
    requires s.Has(k) && !s.modules[k].needToStart
    ensures
      var r, m := CloseAt(s, k, true, now, env).0, s.modules[k];
      r.modules[k] == m.(process := r.modules[k].process, killOnStartCount := r.modules[k].killOnStartCount) &&
      r.modules[k].process ==
        if m.process == Running && ClosingDeadline(m) < now then Survives(m, env.kill(k)) else m.process
  {}

  lemma AnswerLeaves(s: Service, k: nat, now: int, env: Env)
    requires s.Has(k)
    ensures
      var r, m := CheckAnswer(s, k, now, env), s.modules[k];
      var killed := Overdue(m, now) && m.noResponseCount > 0;
      var up := killed && m.process == Starting && env.kill(k).startedFirst;
      r.modules[k].process == (if killed then Survives(m, env.kill(k)) else m.process) &&
      r.modules[k].initDate == (if up then now else m.initDate) &&
      r.modules[k].lastUpdate == (if up then now else m.lastUpdate) &&
      r.modules[k].restartCount == (if up then (m.restartCount + 1) % TWO_TO_THE_32 else m.restartCount) &&
      r.modules[k].needToStart == m.needToStart && r.modules[k].commandStack == m.commandStack &&
      r.modules[k].name == m.name && r.modules[k].autoStart == m.autoStart &&
      r.action == s.action && r.timerActive == s.timerActive
  {
    KillLeaves(s, k, now, env, ForSilence);
  }

  lemma StartLeaves(s: Service, k: nat, now: int, env: Env)
    requires s.Has(k) && Needed(s, k) && s.modules[k].process == NotRunning
    ensures
      var r, m := CheckAt(s, k, now, env), s.modules[k].PopCommand();
      r.modules[k].process ==
        (if Free(s, k) && !UsedUp(m) then if env.launch(k) then Starting else NotRunning else NotRunning) &&
      r.modules[k].needToStart == !(Free(s, k) && UsedUp(m)) &&
      r.modules[k] == m.(process := r.modules[k].process, needToStart := r.modules[k].needToStart)
  {
    FreeMeans(s, k);
  }

  ghost predicate TurnLeft(s: Service, r: Service, k: nat, now: int, env: Env) {
    s.Has(k) && r.Has(k) && Leaves(Added(s, r), s.modules[k], r.modules[k], k, now, env) &&
    (r.modules[k].needToStart <==> Needed(s, k) && !exists flags :: LimitReached(k, flags) in Added(s, r))
  }

  lemma ClosingTurnLeaves(s: Service, k: nat, now: int, env: Env)
    requires s.Has(k) && !Needed(s, k)
    ensures TurnLeft(s, CheckAt(s, k, now, env), k, now, env)
  {
    TurnDecides(s, k, now, env);
    CloseLeaves(s.Put(k, s.modules[k].PopCommand()), k, now, env);
  }

  lemma StartingTurnLeaves(s: Service, k: nat, now: int, env: Env)
    requires s.Has(k) && Needed(s, k) && s.modules[k].process == NotRunning
    ensures TurnLeft(s, CheckAt(s, k, now, env), k, now, env)
  {
    TurnDecides(s, k, now, env);
    StartLeaves(s, k, now, env);
  }

  lemma AnswerTurnLeaves(s: Service, k: nat, now: int, env: Env)
    requires s.Has(k) && Needed(s, k) && s.modules[k].process != NotRunning
    ensures TurnLeft(s, CheckAt(s, k, now, env), k, now, env)
  {
    TurnDecides(s, k, now, env);
    AnswerLeaves(s.Put(k, s.modules[k].PopCommand()), k, now, env);
  }

  lemma TurnLeaves(s: Service, k: nat, now: int, env: Env)
    requires s.Has(k)
    ensures TurnLeft(s, CheckAt(s, k, now, env), k, now, env)
  {
    if !Needed(s, k) {
      ClosingTurnLeaves(s, k, now, env);
    } else if s.modules[k].process == NotRunning {
      StartingTurnLeaves(s, k, now, env);
    } else {
      AnswerTurnLeaves(s, k, now, env);
    }
  }

  lemma LeavesCarries(t: seq<Effect>, u: seq<Effect>, m: Module, m': Module, r: Module, r': Module, k: nat,
                      now: int, env: Env)
    requires forall e :: Concerns(e, k) ==> (e in t <==> e in u)
    requires SameButNeed(m, m') && SameButNeed(r', r) && Leaves(u, m', r', k, now, env)
    ensures Leaves(t, m, r, k, now, env)
  {}

  /** What a check pass leaves of module `k`, for every state. */
  lemma CheckPassLeaves(s: Service, now: int, env: Env, k: nat)
    requires s.Has(k)
    ensures
      var r := CheckPass(s, now, env);
      Leaves(Added(s, r), s.modules[k], r.modules[k], k, now, env)
  {
    var turn, r := Turn(s, 0, k, now, env), CheckPass(s, now, env);
    var next := CheckAt(turn, k, now, env);
    OnlyItsTurn(s, k, now, env);
    TurnLeaves(turn, k, now, env);
    LeavesCarries(Added(s, r), Added(turn, next), s.modules[k], turn.modules[k], r.modules[k], next.modules[k], k,
                  now, env);
  }

  // ---------------------------------------------------------------- needs during a pass

  lemma CloseStaysInside(s: Service, i: nat, j: nat, now: int, env: Env)
    requires s.Has(i) && s.Has(j) && j != i
    ensures
      var r := CloseAt(s, i, true, now, env).0;
      r.modules[j] == s.modules[j] && r.modules[i].exclusive == s.modules[i].exclusive
  {}

  lemma AnswerStaysInside(s: Service, i: nat, j: nat, now: int, env: Env)
    requires s.Has(i) && s.Has(j) && j != i
    ensures
      var r := CheckAnswer(s, i, now, env);
      r.modules[j] == s.modules[j] && r.modules[i].exclusive == s.modules[i].exclusive
  {
    KillLeaves(s, i, now, env, ForSilence);
  }

  lemma OthersStay(s: Service, i: nat, j: nat, now: int, env: Env)
    requires s.Has(i) && s.Has(j) && j != i && !(Needed(s, i) && s.modules[i].process == NotRunning)
    ensures CheckAt(s, i, now, env).modules[j] == s.modules[j]
    ensures CheckAt(s, i, now, env).modules[i].exclusive == s.modules[i].exclusive
  {
    var s1 := s.Put(i, s.modules[i].PopCommand());
    if Needed(s, i) {
      AnswerStaysInside(s1, i, j, now, env);
    } else {
      CloseStaysInside(s1, i, j, now, env);
    }
  }

  lemma OthersAtStart(s: Service, i: nat, j: nat, now: int, env: Env)
    requires s.Has(i) && s.Has(j) && j != i && Needed(s, i) && s.modules[i].process == NotRunning
    ensures CheckAt(s, i, now, env).modules[i].exclusive == s.modules[i].exclusive
    ensures CheckAt(s, i, now, env).modules[j].needToStart ==
      if Free(s, i) && UsedUp(s.modules[i]) && s.modules[i].exclusive && !s.modules[j].exclusive
      then s.modules[j].previousNeedToStart else s.modules[j].needToStart
  {
    FreeMeans(s, i);
  }

  /** The turn of module `i` changes the need of another one only if `i` is an exclusive module
      that is given up and the other one is not exclusive; the saved need comes back, and it is
      the one that is recorded. */
  lemma OthersNeeds(s: Service, i: nat, j: nat, now: int, env: Env)
    requires s.Has(i) && s.Has(j) && j != i
    ensures
      var r := CheckAt(s, i, now, env);
      r.modules[i].exclusive == s.modules[i].exclusive &&
      (r.modules[j].needToStart != s.modules[j].needToStart ==>
         s.modules[i].exclusive && exists flags :: LimitReached(i, flags) in Added(s, r)) &&
      forall flags :: LimitReached(i, flags) in Added(s, r) ==>
        j < |flags| && r.modules[j].needToStart == flags[j] &&
        flags[j] == if s.modules[i].exclusive && !s.modules[j].exclusive then s.modules[j].previousNeedToStart
                    else s.modules[j].needToStart
  {
    TurnDecides(s, i, now, env);
    if Needed(s, i) && s.modules[i].process == NotRunning {
      StartAdds(s, i, now, env);
      OthersAtStart(s, i, j, now, env);
    } else {
      OthersStay(s, i, j, now, env);
    }
  }

  predicate NoExclusiveGivenUp(s: Service, t: seq<Effect>) {
    forall e :: e in t && e.LimitReached? ==> s.Has(e.id) && !s.modules[e.id].exclusive
  }

  /** Unless an exclusive module is given up before it in the pass, a module is needed at its turn
      as it was when the pass began. */
  lemma {:induction false} NeededAsBefore(s: Service, i: nat, k: nat, now: int, env: Env)
    requires s.Has(k) && NoExclusiveGivenUp(s, Added(s, Turn(s, i, k, now, env)))
    ensures Needed(Turn(s, i, k, now, env), k) == Needed(s, k)
    decreases k - i
  {
    if i >= k {
    } else {
      var s1 := CheckAt(s, i, now, env);
      CheckPassesBy(s, i, k, now, env);
      TurnPassesBy(s1, i + 1, k, now, env);
      AddedSplits(s, s1, Turn(s1, i + 1, k, now, env));
      OthersNeeds(s, i, k, now, env);
      CheckLeavesOthers(s, i, now, env);
      NeededAsBefore(s1, i + 1, k, now, env);
    }
  }
}
