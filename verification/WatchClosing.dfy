/** What one close pass does to each module and to the watchdog itself, for every state. */
module WatchClosing {
  import opened Common
  import opened WatchModel
  import opened WatchClaims
  import opened WatchOrder
  import opened WatchVerdicts

  // ---------------------------------------------------------------- one module

  lemma CloseNextAdds(s: Service, i: nat, c: bool, now: int, env: Env)
    requires s.Has(i)
    ensures
      var (s1, closed) := CloseAt(s, i, false, now, env);
      var (r, c') := CloseNext(s, i, c, now, env);
      s.trace <= s1.trace <= r.trace && r.timerActive == s.timerActive &&
      Added(s, r) == Added(s, s1) + (if c && !c' then [RetryScheduled] else [])
  {
    CloseExtends(s, i, false, now, env);
  }

  /** From `s` to `r` nothing is recorded about module `k`, which does not change. */
  predicate LeavesAlone(s: Service, r: Service, k: nat) {
    s.Has(k) && r.Has(k) && s.trace <= r.trace && s.modules[k] == r.modules[k] &&
    forall e :: e in Added(s, r) ==> !Closes(e, k)
  }

  lemma LeavesTransitive(s: Service, m: Service, r: Service, k: nat)
    requires LeavesAlone(s, m, k) && LeavesAlone(m, r, k)
    ensures LeavesAlone(s, r, k)
  {
    AddedSplits(s, m, r);
  }

  lemma CloseNextOthers(s: Service, i: nat, c: bool, now: int, env: Env)
    requires s.Has(i)
    ensures
      var s1 := CloseNext(s, i, c, now, env).0;
      |s1.modules| == |s.modules| && s1.modules[i].closePriority == s.modules[i].closePriority &&
      forall j :: 0 <= j < |s.modules| && j != i ==> s1.modules[j] == s.modules[j]
  {
    CloseNextCloses(s, i, c, now, env);
  }

  lemma OthersEffects(t: seq<Effect>, u: seq<Effect>, i: nat, k: nat)
    requires i != k && (forall e :: e in t ==> Closes(e, i)) && (u == [] || u == [RetryScheduled])
    ensures forall e :: e in t + u ==> !Closes(e, k)
  {}

  lemma CloseNextLeavesAlone(s: Service, i: nat, c: bool, k: nat, now: int, env: Env)
    requires s.Has(i) && s.Has(k) && i != k
    ensures LeavesAlone(s, CloseNext(s, i, c, now, env).0, k)
  {
    var c' := CloseNext(s, i, c, now, env).1;
    CloseNextAdds(s, i, c, now, env);
    CloseIff(s, i, false, now, env);
    CloseNextOthers(s, i, c, now, env);
    OthersEffects(Added(s, CloseAt(s, i, false, now, env).0), if c && !c' then [RetryScheduled] else [], i, k);
  }

  lemma {:induction false} CloseFromLeavesAlone(s: Service, i: nat, c: bool, k: nat, now: int, env: Env)
    requires k < i && s.Has(k)
    ensures LeavesAlone(s, CloseFrom(s, i, c, now, env).0, k)
    decreases |s.modules| - i
  {
    if i >= |s.modules| {
    } else {
      var (s1, c1) := CloseNext(s, i, c, now, env);
      CloseNextLeavesAlone(s, i, c, k, now, env);
      CloseFromLeavesAlone(s1, i + 1, c1, k, now, env);
      LeavesTransitive(s, s1, CloseFrom(s1, i + 1, c1, now, env).0, k);
    }
  }

  /** Module `j` has a smaller priority and was running when a pass from `s` to `r` came to module
      `k`: the pass had left it running, or was still to come to it. */
  predicate Blocks(s: Service, r: Service, j: int, k: nat)
    requires s.Has(k)
  {
    s.Has(j) && s.modules[j].closePriority < s.modules[k].closePriority && RunningAt(if j < k then r else s, j)
  }

  ghost predicate BlockedBetween(s: Service, r: Service, k: nat)
    requires s.Has(k)
  {
    s.modules[k].closePriority != NO_PRIORITY && exists j :: Blocks(s, r, j, k)
  }

  /** What a pass that records `t` does to a module that may be closed. */
  predicate ClosesAs(t: seq<Effect>, m: Module, r: Module, k: nat, blocked: bool, now: int, outcome: KillOutcome) {
    && CloseDecided(t, m, k, m.process == Running && !blocked, now, outcome)
    && r.process == (if KilledIn(t, k, ForClosing) then Survives(m, outcome) else m.process)
    && r.needToStart == (m.needToStart && m.process != Running)
  }

  lemma CloseAtLeaves(s: Service, k: nat, now: int, env: Env)
    requires s.Has(k)
    ensures
      var r, m := CloseAt(s, k, false, now, env).0.modules[k], s.modules[k];
      r.needToStart == (m.needToStart && m.process != Running) &&
      r.process == if m.process == Running && !CloseBlocked(s, k) && ClosingDeadline(m) < now
                   then Survives(m, env.kill(k)) else m.process
  {
    if s.modules[k].process == Running {
      BlockedMeans(s, k);
      KillLeaves(s.Put(k, s.modules[k].(needToStart := false)), k, now, env, ForClosing);
    }
  }

  lemma CloseTurn(s: Service, k: nat, c: bool, now: int, env: Env)
    requires s.Has(k)
    ensures
      var r := CloseNext(s, k, c, now, env).0;
      s.trace <= r.trace &&
      ClosesAs(Added(s, r), s.modules[k], r.modules[k], k, CloseBlocked(s, k), now, env.kill(k))
  {
    CloseNextAdds(s, k, c, now, env);
    CloseIff(s, k, false, now, env);
    CloseAtLeaves(s, k, now, env);
  }

  // ---------------------------------------------------------------- a close pass

  lemma BlockedFromTurn(s: Service, r: Service, k: nat)
    requires s.Has(k) && |r.modules| == |s.modules| && forall j :: 0 <= j < k ==> r.modules[j] == s.modules[j]
    ensures CloseBlocked(s, k) <==> BlockedBetween(s, r, k)
  {
    if CloseBlocked(s, k) {
      var j :| RunningAt(s, j) && s.modules[j].closePriority < s.modules[k].closePriority;
      assert Blocks(s, r, j, k);
    }
  }

  lemma BlockedFromNext(s: Service, s1: Service, r: Service, i: nat, k: nat)
    requires i < k && s.Has(k) && |s1.modules| == |s.modules|
    requires forall j :: 0 <= j < |s.modules| && j != i ==> s1.modules[j] == s.modules[j]
    requires s1.modules[i].closePriority == s.modules[i].closePriority
    ensures BlockedBetween(s, r, k) <==> BlockedBetween(s1, r, k)
  {
    forall j ensures Blocks(s, r, j, k) <==> Blocks(s1, r, j, k) {}
  }

  lemma ClosesAsCarries(t: seq<Effect>, u: seq<Effect>, m: Module, r: Module, k: nat, blocked: bool,
                        now: int, outcome: KillOutcome)
    requires forall e :: Closes(e, k) ==> (e in t <==> e in u)
    requires ClosesAs(u, m, r, k, blocked, now, outcome)
    ensures ClosesAs(t, m, r, k, blocked, now, outcome)
  {}

  /** What a pass from `s` to `r` does to module `k`. */
  ghost predicate PassCloses(s: Service, r: Service, k: nat, now: int, outcome: KillOutcome) {
    s.Has(k) && |r.modules| == |s.modules| && s.trace <= r.trace &&
    ClosesAs(Added(s, r), s.modules[k], r.modules[k], k, BlockedBetween(s, r, k), now, outcome)
  }

  lemma TurnThenRest(s: Service, s1: Service, r: Service, k: nat, now: int, outcome: KillOutcome)
    requires s.Has(k) && |r.modules| == |s.modules| && forall j :: 0 <= j < k ==> r.modules[j] == s.modules[j]
    requires s1.Has(k) && s.trace <= s1.trace && LeavesAlone(s1, r, k)
    requires ClosesAs(Added(s, s1), s.modules[k], s1.modules[k], k, CloseBlocked(s, k), now, outcome)
    ensures PassCloses(s, r, k, now, outcome)
  {
    AddedSplits(s, s1, r);
    BlockedFromTurn(s, r, k);
    ClosesAsCarries(Added(s, r), Added(s, s1), s.modules[k], r.modules[k], k, CloseBlocked(s, k), now, outcome);
  }

  lemma OtherThenRest(s: Service, i: nat, s1: Service, r: Service, k: nat, now: int, outcome: KillOutcome)
    requires i < k && LeavesAlone(s, s1, k) && PassCloses(s1, r, k, now, outcome) && |s1.modules| == |s.modules|
    requires forall j :: 0 <= j < |s.modules| && j != i ==> s1.modules[j] == s.modules[j]
    requires s1.modules[i].closePriority == s.modules[i].closePriority
    ensures PassCloses(s, r, k, now, outcome)
  {
    AddedSplits(s, s1, r);
    BlockedFromNext(s, s1, r, i, k);
    ClosesAsCarries(Added(s, r), Added(s1, r), s.modules[k], r.modules[k], k, BlockedBetween(s, r, k), now, outcome);
  }

  lemma {:induction false} CloseFromDecides(s: Service, i: nat, c: bool, now: int, env: Env, k: nat)
    requires i <= k && s.Has(k)
    ensures PassCloses(s, CloseFrom(s, i, c, now, env).0, k, now, env.kill(k))
    decreases k - i
  {
    var (s1, c1) := CloseNext(s, i, c, now, env);
    var r := CloseFrom(s1, i + 1, c1, now, env).0;
    CloseNextOthers(s, i, c, now, env);
    if i == k {
      CloseTurn(s, k, c, now, env);
      CloseFromLeavesAlone(s1, k + 1, c1, k, now, env);
      CloseFromVerdict(s1, k + 1, c1, now, env);
      TurnThenRest(s, s1, r, k, now, env.kill(k));
    } else {
      CloseNextLeavesAlone(s, i, c, k, now, env);
      CloseFromDecides(s1, i + 1, c1, now, env, k);
      OtherThenRest(s, i, s1, r, k, now, env.kill(k));
    }
  }

  /** `n` retries and no message to everybody or to the updater. */
  predicate Retries(t: seq<Effect>, n: nat) {
    multiset(t)[RetryScheduled] == n && CloseBroadcast !in t && UpdaterCloseSent !in t
  }

  lemma RetriesAdd(t: seq<Effect>, u: seq<Effect>, n: nat, m: nat)
    requires Retries(t, n) && Retries(u, m)
    ensures Retries(t + u, n + m)
  {}

  lemma ClosingRetriesNot(t: seq<Effect>, k: nat)
    requires forall e :: e in t ==> Closes(e, k)
    ensures Retries(t, 0)
  {
    assert RetryScheduled !in t;
  }

  lemma NextRetries(s: Service, i: nat, c: bool, now: int, env: Env)
    requires s.Has(i)
    ensures
      var (r, c') := CloseNext(s, i, c, now, env);
      s.trace <= r.trace && r.timerActive == s.timerActive && (c' ==> c) &&
      Retries(Added(s, r), if c && !c' then 1 else 0)
  {
    var s1 := CloseAt(s, i, false, now, env).0;
    var c' := CloseNext(s, i, c, now, env).1;
    CloseNextAdds(s, i, c, now, env);
    CloseIff(s, i, false, now, env);
    ClosingRetriesNot(Added(s, s1), i);
    RetriesAdd(Added(s, s1), if c && !c' then [RetryScheduled] else [], 0, if c && !c' then 1 else 0);
  }

  lemma {:induction false} RetriesOnce(s: Service, i: nat, c: bool, now: int, env: Env)
    ensures
      var (r, done) := CloseFrom(s, i, c, now, env);
      s.trace <= r.trace && r.timerActive == s.timerActive && (done ==> c) &&
      Retries(Added(s, r), if c && !done then 1 else 0)
    decreases |s.modules| - i
  {
    if i >= |s.modules| {
    } else {
      var (s1, c1) := CloseNext(s, i, c, now, env);
      var (r, done) := CloseFrom(s1, i + 1, c1, now, env);
      NextRetries(s, i, c, now, env);
      RetriesOnce(s1, i + 1, c1, now, env);
      AddedSplits(s, s1, r);
      RetriesAdd(Added(s, s1), Added(s1, r), if c && !c1 then 1 else 0, if c1 && !done then 1 else 0);
    }
  }

  lemma ClosePassAdds(s: Service, sender: string, now: int, env: Env)
    ensures
      var (r, done) := ClosePass(s, sender, now, env);
      var (s1, _) := CloseFrom(s.(timerActive := false), 0, true, now, env);
      s.trace <= s1.trace <= r.trace && r.modules == s1.modules && s1.action == s.action &&
      Added(s, r) == Added(s, s1) + [if sender == "updater" then CloseBroadcast else UpdaterCloseSent] +
                     (if done then [Closed(s.action)] else [])
  {
    CloseFromExtends(s.(timerActive := false), 0, true, now, env);
    CloseFromCloses(s.(timerActive := false), 0, true, now, env);
  }

  /** Which effects a close pass has on module `k`, for every state. A running module is blocked if
      one of smaller priority runs when the pass comes to it. If not, it is killed if and only if
      its closing time is over, and asked to close if and only if that has not ended it: whatever
      the pass leaves running was blocked or asked. A module that runs is not needed any more. */
  lemma ClosePassDecides(s: Service, sender: string, now: int, env: Env, k: nat)
    requires s.Has(k)
    ensures
      var r := ClosePass(s, sender, now, env).0;
      var t, blocked := Added(s, r), BlockedBetween(s, r, k);
      ClosesAs(t, s.modules[k], r.modules[k], k, blocked, now, env.kill(k)) &&
      (RunningAt(r, k) ==> blocked || CloseSent(k) in t)
  {
    var s0 := s.(timerActive := false);
    var r, s1 := ClosePass(s, sender, now, env).0, CloseFrom(s0, 0, true, now, env).0;
    ClosePassAdds(s, sender, now, env);
    CloseFromDecides(s0, 0, true, now, env, k);
    BlockedSame(s, s0, r, s1, k);
    ClosesAsCarries(Added(s, r), Added(s0, s1), s.modules[k], r.modules[k], k, BlockedBetween(s, r, k), now,
                    env.kill(k));
  }

  lemma BlockedSame(s: Service, s': Service, r: Service, r': Service, k: nat)
    requires s.Has(k) && s.modules == s'.modules && r.modules == r'.modules
    ensures BlockedBetween(s, r, k) <==> BlockedBetween(s', r', k)
  {
    forall j ensures Blocks(s, r, j, k) <==> Blocks(s', r', j, k) {}
  }

  lemma EndSignals(t: seq<Effect>, n: nat, toAll: bool, end: seq<Effect>)
    requires Retries(t, n) && (end == [] || (|end| == 1 && end[0].Closed?))
    ensures
      var u := t + [if toAll then CloseBroadcast else UpdaterCloseSent] + end;
      multiset(u)[RetryScheduled] == n && (CloseBroadcast in u <==> toAll) && (UpdaterCloseSent in u <==> !toAll)
  {
    var u := t + [if toAll then CloseBroadcast else UpdaterCloseSent] + end;
    assert u[|t|] == if toAll then CloseBroadcast else UpdaterCloseSent;
  }

  predicate Signals(t: seq<Effect>, done: bool, toAll: bool) {
    multiset(t)[RetryScheduled] == (if done then 0 else 1) &&
    (CloseBroadcast in t <==> toAll) && (UpdaterCloseSent in t <==> !toAll)
  }

  /** A close pass stops the check timer, schedules exactly one retry unless it takes the close
      action, and tells everybody or only the updater, depending on who asked. */
  lemma ClosePassSignals(s: Service, sender: string, now: int, env: Env)
    ensures
      var (r, done) := ClosePass(s, sender, now, env);
      !r.timerActive && Signals(Added(s, r), done, sender == "updater")
  {
    var s0 := s.(timerActive := false);
    var (r, done) := ClosePass(s, sender, now, env);
    var s1 := CloseFrom(s0, 0, true, now, env).0;
    var end := if done then [Closed(s.action)] else [];
    ClosePassAdds(s, sender, now, env);
    RetriesOnce(s0, 0, true, now, env);
    SignalsAre(Added(s, r), Added(s, s1), done, sender == "updater", end);
  }

  lemma SignalsAre(u: seq<Effect>, t: seq<Effect>, done: bool, toAll: bool, end: seq<Effect>)
    requires u == t + [if toAll then CloseBroadcast else UpdaterCloseSent] + end
    requires Retries(t, if done then 0 else 1) && (end == [] || (|end| == 1 && end[0].Closed?))
    ensures Signals(u, done, toAll)
  {
    EndSignals(t, if done then 0 else 1, toAll, end);
  }
}
