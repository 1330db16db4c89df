/** When the command queue moves on. */
module CommandProgress {
  import opened Common
  import opened CommandModel
  import opened CommandSafety

  function Ticks(n: nat): (r: seq<Event>)
    ensures |r| == n && forall i :: 0 <= i < n ==> r[i] == CheckTick(false)
  {
    seq(n, _ => CheckTick(false))
  }

  /** A command whose turn it is but whose slot was overwritten or lost is not forgotten: the
      remaining tries and one more tick put it back in the slot. */
  lemma {:induction false} LostSlotIsRefilled(q: Queue, i: nat)
    requires Distinct(q.rows) && q.checkTimer && q.tryCount < MAX_TRIES
    requires Active(q.rows) == Some(i) && q.rows[i].status == Executing && q.rows[i].trn != ""
    ensures
      var r := Run(q, Ticks(MAX_TRIES - q.tryCount + 1));
      r.cmdMeta == Some(Slot(q.rows[i].trn, q.rows[i].account, q.rows[i].comment)) &&
      r.cmdExec == q.rows[i].cmd && r.execTimer && r.log == q.log + [Armed(q.rows[i].trn)]
    decreases MAX_TRIES - q.tryCount
  {
    var n := MAX_TRIES - q.tryCount;
    var q1 := Step(q, CheckTick(false));
    assert Ticks(n + 1)[1..] == Ticks(n);
    if n > 1 {
      LostSlotIsRefilled(q1, i);
    } else {
      ActiveAfterStatus(q.rows, i, Arrived);
      assert q1.rows[i].status == Arrived;
      var q2 := Step(q1, CheckTick(false));
      assert Ticks(1)[1..] == [];
      assert Run(q1, Ticks(1)) == q2;
    }
  }

  lemma ActiveAfterStatus(rows: seq<Row>, i: nat, status: Status)
    requires Distinct(rows) && Active(rows) == Some(i) && status != Confirmed
    ensures Active(WithStatus(rows, rows[i].trn, status)) == Some(i)
  {
    var ms := WithStatus(rows, rows[i].trn, status);
    forall k | 0 <= k < |rows|
      ensures ms[k].trn == rows[k].trn && (ms[k].status == Confirmed <==> rows[k].status == Confirmed)
    {
      assert rows[k].trn == rows[i].trn ==> k == i;
    }
    ActiveDependsOn(rows, ms);
  }

  lemma {:induction false} ActiveDependsOn(a: seq<Row>, b: seq<Row>)
    requires |a| == |b|
    requires forall k :: 0 <= k < |a| ==>
      b[k].trn == a[k].trn && (b[k].status == Confirmed <==> a[k].status == Confirmed)
    ensures Active(b) == Active(a)
  {
    if a == [] {
    } else {
      ActiveDependsOn(a[..|a| - 1], b[..|b| - 1]);
    }
  }

  /** A command with an empty transaction number is waiting. */
  ghost predicate Stalled(q: Queue) {
    && Inv(q)
    && (exists i: nat :: EmptyArrived(q.rows, i))
    && (q.cmdMeta.Some? ==> q.cmdMeta.value.trn != "")
    && q.confirmTrn != Some("")
  }

  predicate ArmsNothing(before: seq<Entry>, after: seq<Entry>) {
    before <= after && forall p :: |before| <= p < |after| ==> !after[p].Armed?
  }

  lemma StalledCheck(q: Queue, busy: bool)
    requires Stalled(q)
    ensures Check(q, busy) == if busy then q else q.(checkTimer := false)
  {
    var i: nat :| EmptyArrived(q.rows, i);
    ActiveIsLeast(q.rows);
    var a := Active(q.rows).value;
    assert !Less(q.rows[i].trn, q.rows[a].trn);
    assert a == i;
  }

  lemma {:induction false} StoreAllArmsNothing(q: Queue, orders: seq<Order>)
    ensures var r := StoreAll(q, orders);
      ArmsNothing(q.log, r.log) && r.cmdMeta == q.cmdMeta && r.confirmTrn == q.confirmTrn
    decreases |orders|
  {
    if orders == [] {
    } else {
      StoreAllArmsNothing(StoreOne(q, orders[0]), orders[1..]);
    }
  }

  lemma {:induction false} UnconfirmedHolds(rows: seq<Row>, i: nat)
    requires i < |rows| && rows[i].status != Confirmed
    ensures exists k :: 0 <= k < |Unconfirmed(rows)| && Unconfirmed(rows)[k] == rows[i]
  {
    var n := |rows| - 1;
    if i < n {
      UnconfirmedHolds(rows[..n], i);
      var k :| 0 <= k < |Unconfirmed(rows[..n])| && Unconfirmed(rows[..n])[k] == rows[i];
      assert Unconfirmed(rows)[k] == rows[i];
    } else {
      assert Unconfirmed(rows)[|Unconfirmed(rows)| - 1] == rows[i];
    }
  }

  predicate EmptyArrived(rows: seq<Row>, i: nat) {
    i < |rows| && rows[i].trn == "" && rows[i].status == Arrived
  }

  lemma StalledArrivals(q: Queue, orders: seq<Order>, busy: bool)
    requires Stalled(q) && Inv(Receive(q, orders, busy))
    ensures Stalled(Receive(q, orders, busy)) && ArmsNothing(q.log, Receive(q, orders, busy).log)
  {
    var i: nat :| EmptyArrived(q.rows, i);
    StoreAllKeepsRows(q, orders);
    StoreAllArmsNothing(q, orders);
    assert EmptyArrived(Receive(q, orders, busy).rows, i);
  }

  lemma StalledRestart(q: Queue)
    requires Stalled(q) && Inv(Restart(q))
    ensures Stalled(Restart(q)) && ArmsNothing(q.log, Restart(q).log)
  {
    var i: nat :| EmptyArrived(q.rows, i);
    UnconfirmedHolds(q.rows, i);
    var k :| 0 <= k < |Restart(q).rows| && Restart(q).rows[k] == q.rows[i];
    assert EmptyArrived(Restart(q).rows, k);
  }

  lemma StalledExecution(q: Queue, onMainPage: bool)
    requires Stalled(q) && Inv(Execute(q, onMainPage))
    ensures Stalled(Execute(q, onMainPage)) && ArmsNothing(q.log, Execute(q, onMainPage).log)
  {
    var i: nat :| EmptyArrived(q.rows, i);
    assert EmptyArrived(Execute(q, onMainPage).rows, i);
  }

  lemma StalledReply(q: Queue, positive: bool)
    requires Stalled(q) && Inv(ConfirmReply(q, positive))
    ensures Stalled(ConfirmReply(q, positive)) && ArmsNothing(q.log, ConfirmReply(q, positive).log)
  {
    var i: nat :| EmptyArrived(q.rows, i);
    assert EmptyArrived(ConfirmReply(q, positive).rows, i);
  }

  lemma StalledRepeat(q: Queue)
    requires Stalled(q) && Inv(RepeatConfirmation(q))
    ensures Stalled(RepeatConfirmation(q)) && ArmsNothing(q.log, RepeatConfirmation(q).log)
  {
    var i: nat :| EmptyArrived(q.rows, i);
    assert EmptyArrived(RepeatConfirmation(q).rows, i);
  }

  lemma StalledReboot(q: Queue)
    requires Stalled(q) && Inv(LocalReboot(q))
    ensures Stalled(LocalReboot(q)) && ArmsNothing(q.log, LocalReboot(q).log)
  {
    var i: nat :| EmptyArrived(q.rows, i);
    assert EmptyArrived(LocalReboot(q).rows, i);
  }

  lemma StalledStep(q: Queue, e: Event)
    requires Stalled(q)
    ensures Stalled(Step(q, e)) && ArmsNothing(q.log, Step(q, e).log)
  {
    KeepsRun(q, [e]);
    RunOne(q, e);
    match e
    case FromServer(orders, busy) => StalledArrivals(q, orders, busy);
    case CheckTick(busy) => StalledCheck(q, busy);
    case ExecTick(onMainPage) => if q.execTimer { StalledExecution(q, onMainPage); }
    case Replied(positive) => StalledReply(q, positive);
    case RepeatTimeout => StalledRepeat(q);
    case RebootWanted => StalledReboot(q);
    case ProgramRestart => StalledRestart(q);
  }

  lemma {:induction false} StalledRun(q: Queue, es: seq<Event>)
    requires Stalled(q)
    ensures ArmsNothing(q.log, Run(q, es).log)
    decreases |es|
  {
    if es == [] {
    } else {
      StalledStep(q, es[0]);
      StalledRun(Step(q, es[0]), es[1..]);
    }
  }

  // ---------------------------------------------------------------- an empty number is never handled

  predicate EmptyAt(rows: seq<Row>, i: nat) {
    i < |rows| && rows[i].trn == ""
  }

  ghost predicate HasEmpty(q: Queue) {
    exists i: nat :: EmptyAt(q.rows, i)
  }

  /** A command without a number stays as it arrived, and is neither in the slot nor asked for. */
  predicate Untouched(q: Queue) {
    && (forall i :: 0 <= i < |q.rows| ==> q.rows[i].trn == "" ==> q.rows[i].status == Arrived)
    && (q.cmdMeta.Some? ==> q.cmdMeta.value.trn != "")
    && q.confirmTrn != Some("")
  }

  lemma {:induction false} UntouchedArrivals(q: Queue, orders: seq<Order>)
    requires Untouched(q)
    ensures Untouched(StoreAll(q, orders))
    decreases |orders|
  {
    if orders == [] {
    } else {
      UntouchedArrivals(StoreOne(q, orders[0]), orders[1..]);
    }
  }

  lemma UntouchedStatus(q: Queue, trn: string, status: Status)
    requires Untouched(q) && trn != ""
    ensures Untouched(q.(rows := WithStatus(q.rows, trn, status)))
  {}

  lemma UntouchedCheck(q: Queue, busy: bool)
    requires Untouched(q)
    ensures Untouched(Check(q, busy))
  {
    var a := Active(q.rows);
    if !busy && a.Some? && q.rows[a.value].trn != "" {
      var trn := q.rows[a.value].trn;
      match q.rows[a.value].status
      case Arrived => UntouchedStatus(q, trn, Executing);
      case Executing => UntouchedStatus(q, trn, Arrived);
      case Executed => UntouchedStatus(q, trn, Confirming);
      case Confirming => UntouchedStatus(q, trn, Executed);
      case Confirmed =>
    }
  }

  lemma UntouchedStep(q: Queue, e: Event)
    requires Untouched(q)
    ensures Untouched(Step(q, e))
  {
    match e
    case FromServer(orders, busy) => UntouchedArrivals(q, orders);
    case CheckTick(busy) => UntouchedCheck(q, busy);
    case ProgramRestart =>
      UnconfirmedDrops(q.rows);
      forall i | 0 <= i < |Unconfirmed(q.rows)| && Unconfirmed(q.rows)[i].trn == ""
        ensures Unconfirmed(q.rows)[i].status == Arrived
      {
        assert Unconfirmed(q.rows)[i] in q.rows;
      }
    case _ =>
  }

  lemma {:induction false} UntouchedRun(q: Queue, es: seq<Event>)
    requires Untouched(q)
    ensures Untouched(Run(q, es))
    decreases |es|
  {
    if es == [] {
    } else {
      UntouchedStep(q, es[0]);
      UntouchedRun(Step(q, es[0]), es[1..]);
    }
  }

  /** In a reachable state the queue is stalled if and only if a command without a number is in
      the table. */
  lemma StalledIff(es: seq<Event>)
    ensures Stalled(Run(NEW_TERMINAL, es)) <==> HasEmpty(Run(NEW_TERMINAL, es))
  {
    var q := Run(NEW_TERMINAL, es);
    KeepsRun(NEW_TERMINAL, es);
    UntouchedRun(NEW_TERMINAL, es);
    if i: nat :| EmptyAt(q.rows, i) {
      assert EmptyArrived(q.rows, i);
    }
    if i: nat :| EmptyArrived(q.rows, i) {
      assert EmptyAt(q.rows, i);
    }
  }

  /** One order from the server is enough. */
  lemma OneOrderStalls(cmd: int, account: string, comment: string)
    ensures Stalled(Step(NEW_TERMINAL, FromServer([Order("", cmd, account, comment)], false)))
  {
    var o := Order("", cmd, account, comment);
    var e := FromServer([o], false);
    var q := Step(NEW_TERMINAL, e);
    assert StoreAll(NEW_TERMINAL, [o]) == StoreOne(NEW_TERMINAL, o);
    assert EmptyAt(q.rows, 0);
    RunFirst(NEW_TERMINAL, e, []);
    assert [e] + [] == [e];
    StalledIff([e]);
  }

  // ---------------------------------------------------------------- a waiting command is watched

  predicate WaitsAt(rows: seq<Row>, i: nat) {
    i < |rows| && rows[i].status != Confirmed
  }

  ghost predicate Waiting(q: Queue) {
    exists i: nat :: WaitsAt(q.rows, i)
  }

  /** While a command waits, the check timer runs, unless one without a number is in the table. */
  ghost predicate Awake(q: Queue) {
    q.tryCount < MAX_TRIES && (Waiting(q) && !HasEmpty(q) ==> q.checkTimer)
  }

  lemma {:induction false} StoreAllKeepsTimer(q: Queue, orders: seq<Order>)
    ensures StoreAll(q, orders).checkTimer == q.checkTimer && StoreAll(q, orders).tryCount == q.tryCount
    decreases |orders|
  {
    if orders == [] {
    } else {
      StoreAllKeepsTimer(StoreOne(q, orders[0]), orders[1..]);
    }
  }

  lemma AwakeArrivals(q: Queue, orders: seq<Order>, busy: bool)
    requires Awake(q)
    ensures Awake(Receive(q, orders, busy))
  {
    StoreAllKeepsRows(q, orders);
    StoreAllKeepsTimer(q, orders);
    var r := StoreAll(q, orders);
    if |r.rows| == |q.rows| {
      assert r.rows == q.rows;
      SameWaiting(q, r);
    }
  }

  /** No command waits that did not wait before. */
  lemma SameWaiting(q: Queue, r: Queue)
    requires |r.rows| == |q.rows|
    requires forall k :: 0 <= k < |q.rows| ==>
      r.rows[k].trn == q.rows[k].trn && (r.rows[k].status != Confirmed ==> q.rows[k].status != Confirmed)
    ensures Waiting(r) ==> Waiting(q)
    ensures HasEmpty(r) <==> HasEmpty(q)
  {
    SameNumbers(q, r);
    if i: nat :| WaitsAt(r.rows, i) {
      assert WaitsAt(q.rows, i);
    }
  }

  lemma SameNumbers(q: Queue, r: Queue)
    requires |r.rows| == |q.rows| && forall k :: 0 <= k < |q.rows| ==> r.rows[k].trn == q.rows[k].trn
    ensures HasEmpty(r) <==> HasEmpty(q)
    ensures Distinct(r.rows) <==> Distinct(q.rows)
  {
    if k: nat :| EmptyAt(q.rows, k) {
      assert EmptyAt(r.rows, k);
    }
    if k: nat :| EmptyAt(r.rows, k) {
      assert EmptyAt(q.rows, k);
    }
  }

  lemma AwakeCheck(q: Queue, busy: bool)
    requires Awake(q) && q.checkTimer
    ensures Awake(Check(q, busy))
  {
    var a := Active(q.rows);
    ActiveIsLeast(q.rows);
    if !busy && a.Some? && q.rows[a.value].trn == "" {
      assert EmptyAt(q.rows, a.value);
      SameNumbers(q, Check(q, busy));
    } else if !busy && a.None? {
      forall i: nat ensures !WaitsAt(q.rows, i) {}
      SameWaiting(q, Check(q, busy));
    }
  }

  lemma AwakeExecution(q: Queue, onMainPage: bool)
    requires Awake(q) && Inv(q)
    ensures Awake(Execute(q, onMainPage))
  {
    if onMainPage && q.cmdMeta.Some? {
      var i :| 0 <= i < |q.rows| && q.rows[i].trn == q.cmdMeta.value.trn && Open(q.rows[i]);
      assert WaitsAt(q.rows, i);
      SameNumbers(q, Execute(q, onMainPage));
    } else {
      SameWaiting(q, Execute(q, onMainPage));
    }
  }

  lemma AwakeStep(q: Queue, e: Event)
    requires Awake(q) && Inv(q)
    ensures Awake(Step(q, e))
  {
    match e
    case FromServer(orders, busy) => AwakeArrivals(q, orders, busy);
    case CheckTick(busy) => if q.checkTimer { AwakeCheck(q, busy); }
    case ExecTick(onMainPage) => if q.execTimer { AwakeExecution(q, onMainPage); }
    case Replied(positive) => SameWaiting(q, Step(q, e));
    case RepeatTimeout => SameWaiting(q, Step(q, e));
    case RebootWanted => SameWaiting(q, Step(q, e));
    case ProgramRestart =>
  }

  lemma {:induction false} AwakeRun(q: Queue, es: seq<Event>)
    requires Awake(q) && Inv(q)
    ensures Awake(Run(q, es))
    decreases |es|
  {
    if es == [] {
    } else {
      AwakeStep(q, es[0]);
      KeepsRun(q, [es[0]]);
      RunOne(q, es[0]);
      AwakeRun(Step(q, es[0]), es[1..]);
    }
  }

  /** Over every run, while a command waits that can be handled, the check timer runs: a queue that
      had gone to sleep is woken by every new command. */
  lemma WaitingIsWatched(es: seq<Event>)
    requires var q := Run(NEW_TERMINAL, es); Waiting(q) && !HasEmpty(q)
    ensures Run(NEW_TERMINAL, es).checkTimer
  {
    AwakeRun(NEW_TERMINAL, es);
  }

  // ---------------------------------------------------------------- one check

  /** In a reachable state with a command waiting, an idle check does nothing for it and stops
      the timer if and only if a command without a number is in the table. */
  lemma CheckStallsIff(es: seq<Event>)
    requires Waiting(Run(NEW_TERMINAL, es))
    ensures
      var q := Run(NEW_TERMINAL, es);
      Step(q, CheckTick(false)) == q.(checkTimer := false) <==> HasEmpty(q)
  {
    var q := Run(NEW_TERMINAL, es);
    StalledIff(es);
    if HasEmpty(q) {
      StalledCheck(q, false);
    } else {
      WaitingIsWatched(es);
      ActiveIsLeast(q.rows);
      var a := Active(q.rows).value;
      assert !EmptyAt(q.rows, a);
      CheckDoesSomething(q, a);
    }
  }

  lemma CheckDoesSomething(q: Queue, a: nat)
    requires Active(q.rows) == Some(a) && q.rows[a].trn != "" && q.checkTimer
    ensures Check(q, false) != q.(checkTimer := false) && Check(q, false).checkTimer
  {}

  // ---------------------------------------------------------------- whole runs

  ghost predicate ArmsAt(q: Queue, more: seq<Event>, p: nat) {
    |q.log| <= p < |Run(q, more).log| && Run(q, more).log[p].Armed?
  }

  /** Some continuation puts a command in the slot. */
  ghost predicate CanArm(q: Queue) {
    exists more: seq<Event>, p: nat :: ArmsAt(q, more, p)
  }

  /** Some continuation in which the program keeps running does. */
  ghost predicate CanArmRunning(q: Queue) {
    exists more: seq<Event>, p: nat :: ArmsAt(q, more, p) && ProgramRestart !in more
  }

  lemma {:induction false} RunAppends(q: Queue, a: seq<Event>, b: seq<Event>)
    ensures Run(q, a + b) == Run(Run(q, a), b)
    decreases |a|
  {
    if a == [] {
      assert a + b == b;
    } else {
      assert (a + b)[0] == a[0] && (a + b)[1..] == a[1..] + b;
      RunAppends(Step(q, a[0]), a[1..], b);
    }
  }

  lemma CanArmBefore(q: Queue, es: seq<Event>)
    requires CanArmRunning(Run(q, es)) && |q.log| <= |Run(q, es).log| && ProgramRestart !in es
    ensures CanArmRunning(q)
  {
    var more: seq<Event>, p: nat :| ArmsAt(Run(q, es), more, p) && ProgramRestart !in more;
    RunAppends(q, es, more);
    assert ArmsAt(q, es + more, p);
  }

  /** A queue whose next check finds a command, if there is one, that it can handle. */
  ghost predicate Healthy(q: Queue) {
    Distinct(q.rows) && !HasEmpty(q) && q.checkTimer && q.tryCount < MAX_TRIES
  }

  /** A command that waits for its confirmation is asked about again after the tries. */
  lemma {:induction false} ConfirmingFallsBack(q: Queue, i: nat)
    requires Healthy(q) && Active(q.rows) == Some(i) && q.rows[i].status == Confirming
    ensures
      var r := Run(q, Ticks(MAX_TRIES - q.tryCount));
      Healthy(r) && r.log == q.log && r.rows == WithStatus(q.rows, q.rows[i].trn, Executed) && Active(r.rows) == Some(i)
    decreases MAX_TRIES - q.tryCount
  {
    var n := MAX_TRIES - q.tryCount;
    var q1 := Step(q, CheckTick(false));
    assert !EmptyAt(q.rows, i);
    assert Ticks(n)[1..] == Ticks(n - 1);
    if n > 1 {
      ConfirmingFallsBack(q1, i);
    } else {
      ActiveAfterStatus(q.rows, i, Executed);
      SameNumbers(q, q1);
      assert Ticks(0) == [];
    }
  }

  /** One command less waits once one is confirmed. */
  lemma {:induction false} ConfirmingShrinks(rows: seq<Row>, i: nat)
    requires Distinct(rows) && WaitsAt(rows, i)
    ensures |Unconfirmed(WithStatus(rows, rows[i].trn, Confirmed))| == |Unconfirmed(rows)| - 1
  {
    var n, trn := |rows| - 1, rows[i].trn;
    var r := WithStatus(rows, trn, Confirmed);
    assert r[..n] == WithStatus(rows[..n], trn, Confirmed);
    if i == n {
      assert r[..n] == rows[..n];
    } else {
      ConfirmingShrinks(rows[..n], i);
      assert r[n] == rows[n];
    }
  }

  const CONFIRMS := [CheckTick(false), Replied(true)]

  lemma RunConfirms(q: Queue, i: nat)
    requires q.checkTimer && Active(q.rows) == Some(i) && q.rows[i].status == Executed && q.rows[i].trn != ""
    ensures Run(q, CONFIRMS) == ConfirmReply(AskConfirmation(q, i), true)
  {
    assert Step(q, CheckTick(false)) == AskConfirmation(q, i);
    assert CONFIRMS[1..] == [Replied(true)];
    RunOne(AskConfirmation(q, i), Replied(true));
  }

  /** An executed command is confirmed by one check and one reply. */
  lemma ExecutedGoes(q: Queue, i: nat)
    requires Healthy(q) && Active(q.rows) == Some(i) && q.rows[i].status == Executed
    ensures
      var r := Run(q, CONFIRMS);
      Healthy(r) && |Unconfirmed(r.rows)| < |Unconfirmed(q.rows)| && |q.log| <= |r.log|
  {
    assert !EmptyAt(q.rows, i);
    var r := ConfirmReply(AskConfirmation(q, i), true);
    RunConfirms(q, i);
    assert r.rows == WithStatus(q.rows, q.rows[i].trn, Confirmed);
    ConfirmingShrinks(q.rows, i);
    SameNumbers(q, r);
  }

  lemma ArrivedIsArmed(q: Queue, i: nat)
    requires q.checkTimer && Active(q.rows) == Some(i) && q.rows[i].status == Arrived && q.rows[i].trn != ""
    ensures CanArmRunning(q)
  {
    RunOne(q, CheckTick(false));
    assert Run(q, [CheckTick(false)]) == Arm(q, i);
    assert ArmsAt(q, [CheckTick(false)], |q.log|);
  }

  lemma ExecutingIsArmed(q: Queue, i: nat)
    requires Healthy(q) && Active(q.rows) == Some(i) && q.rows[i].status == Executing
    ensures CanArmRunning(q)
  {
    assert !EmptyAt(q.rows, i);
    LostSlotIsRefilled(q, i);
    assert ArmsAt(q, Ticks(MAX_TRIES - q.tryCount + 1), |q.log|);
  }

  function Longest(rows: seq<Row>): (n: nat)
    ensures forall r :: r in rows ==> |r.trn| <= n
  {
    if rows == [] then 0
    else
      var n := Longest(rows[1..]);
      if |rows[0].trn| > n then |rows[0].trn| else n
  }

  /** An order whose number is not in the table. */
  function NextOrder(rows: seq<Row>): (o: Order)
    ensures o.trn != "" && !Exists(rows, o.trn)
  {
    Order(seq(Longest(rows) + 1, _ => '1'), 0, "", "")
  }

  lemma NextOrderIsStored(q: Queue)
    ensures
      var o := NextOrder(q.rows);
      var r := Step(q, FromServer([o], false));
      r.rows == q.rows + [Row(o.trn, o.cmd, o.account, o.comment, Arrived)] && r.checkTimer && |q.log| <= |r.log|
  {
    var o := NextOrder(q.rows);
    assert StoreAll(q, [o]) == StoreOne(q, o);
  }

  /** With nothing waiting, a new order does. */
  lemma IdleCanArm(q: Queue)
    requires Active(q.rows).None?
    ensures CanArmRunning(q)
  {
    var e := FromServer([NextOrder(q.rows)], false);
    var r := Step(q, e);
    NextOrderIsStored(q);
    assert r.rows[..|q.rows|] == q.rows;
    ArrivedIsArmed(r, |q.rows|);
    RunOne(q, e);
    CanArmBefore(q, [e]);
  }

  lemma {:induction false} HealthyCanArm(q: Queue)
    requires Healthy(q)
    ensures CanArmRunning(q)
    decreases |Unconfirmed(q.rows)|
  {
    var a := Active(q.rows);
    if a.None? {
      IdleCanArm(q);
    } else {
      var i := a.value;
      assert !EmptyAt(q.rows, i);
      match q.rows[i].status
      case Arrived => ArrivedIsArmed(q, i);
      case Executing => ExecutingIsArmed(q, i);
      case Executed =>
        ExecutedGoes(q, i);
        HealthyCanArm(Run(q, CONFIRMS));
        CanArmBefore(q, CONFIRMS);
      case Confirming =>
        ConfirmingFallsBack(q, i);
        var r := Run(q, Ticks(MAX_TRIES - q.tryCount));
        StatusKeepsWaiting(q.rows, i, Executed);
        ExecutedGoes(r, i);
        HealthyCanArm(Run(r, CONFIRMS));
        CanArmBefore(r, CONFIRMS);
        CanArmBefore(q, Ticks(MAX_TRIES - q.tryCount));
    }
  }

  lemma {:induction false} StatusKeepsWaiting(rows: seq<Row>, i: nat, status: Status)
    requires Distinct(rows) && WaitsAt(rows, i) && status != Confirmed
    ensures |Unconfirmed(WithStatus(rows, rows[i].trn, status))| == |Unconfirmed(rows)|
  {
    var n, trn := |rows| - 1, rows[i].trn;
    var r := WithStatus(rows, trn, status);
    assert r[..n] == WithStatus(rows[..n], trn, status);
    if i == n {
      assert r[..n] == rows[..n];
    } else {
      StatusKeepsWaiting(rows[..n], i, status);
      assert r[n] == rows[n];
    }
  }

  /** In a reachable state no continuation whatsoever puts another command in the slot if and
      only if a command without a number is in the table: it sorts before all others, reads as
      no command and is never removed. Without one, a continuation does in which the program
      keeps running. */
  lemma StallsForeverIff(es: seq<Event>)
    ensures !CanArm(Run(NEW_TERMINAL, es)) <==> HasEmpty(Run(NEW_TERMINAL, es))
    ensures CanArmRunning(Run(NEW_TERMINAL, es)) <==> !HasEmpty(Run(NEW_TERMINAL, es))
  {
    var q := Run(NEW_TERMINAL, es);
    StalledIff(es);
    if HasEmpty(q) {
      forall more: seq<Event>, p: nat ensures !ArmsAt(q, more, p) {
        StalledRun(q, more);
      }
    } else {
      KeepsRun(NEW_TERMINAL, es);
      AwakeRun(NEW_TERMINAL, es);
      ActiveIsLeast(q.rows);
      if Active(q.rows).None? {
        IdleCanArm(q);
      } else {
        assert WaitsAt(q.rows, Active(q.rows).value);
        HealthyCanArm(q);
      }
    }
  }
}
