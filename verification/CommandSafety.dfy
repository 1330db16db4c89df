/** Each stored command is dispatched at most once, whatever the timers, fallbacks, restarts
    and later arrivals do. */
module CommandSafety {
  import opened Common
  import opened CommandModel

  function CountAfter(before: nat, e: Entry, trn: string): nat {
    if e.Stored? && e.trn == trn then 0
    else if e.Dispatched? && e.trn == trn then before + 1
    else before
  }

  /** Dispatches for `trn` since it was last stored. */
  function Dispatches(log: seq<Entry>, trn: string): nat {
    if log == [] then 0
    else CountAfter(Dispatches(log[..|log| - 1], trn), log[|log| - 1], trn)
  }

  /** The action `trn` was last stored with. */
  function OwnAction(log: seq<Entry>, trn: string): Option<int> {
    if log == [] then None
    else
      var e := log[|log| - 1];
      if e.Stored? && e.trn == trn then Some(e.cmd) else OwnAction(log[..|log| - 1], trn)
  }

  /** A local request came after the slot was last filled. */
  predicate TakenOver(log: seq<Entry>) {
    log != [] &&
    (log[|log| - 1].LocalRequest? || (!log[|log| - 1].Armed? && TakenOver(log[..|log| - 1])))
  }

  predicate IsDispatch(e: Entry) {
    e.Dispatched? || e.DispatchedLocally?
  }

  /** A local request came after the latest dispatch, and the slot was not filled after it. */
  predicate Asked(log: seq<Entry>) {
    log != [] &&
    var e := log[|log| - 1];
    e.LocalRequest? || (!IsDispatch(e) && !e.Armed? && !e.Restarted? && Asked(log[..|log| - 1]))
  }

  lemma Noted(log: seq<Entry>, e: Entry)
    ensures forall t :: Dispatches(log + [e], t) == CountAfter(Dispatches(log, t), e, t)
    ensures forall t :: OwnAction(log + [e], t) == if e.Stored? && e.trn == t then Some(e.cmd) else OwnAction(log, t)
    ensures TakenOver(log + [e]) <==> e.LocalRequest? || (!e.Armed? && TakenOver(log))
    ensures Asked(log + [e]) <==> e.LocalRequest? || (!IsDispatch(e) && !e.Armed? && !e.Restarted? && Asked(log))
  {
    assert (log + [e])[..|log|] == log;
  }

  predicate Open(r: Row) {
    r.status == Arrived || r.status == Executing
  }

  predicate RowAgrees(r: Row, log: seq<Entry>) {
    && Dispatches(log, r.trn) == (if Open(r) then 0 else 1)
    && OwnAction(log, r.trn) == Some(r.cmd)
  }

  /** What a dispatch recorded after `log` promises. One that belongs to no command is a reboot
      that was asked for locally. */
  predicate Justified(log: seq<Entry>, e: Entry) {
    (e.Dispatched? ==>
      Dispatches(log, e.trn) == 0 && OwnAction(log, e.trn).Some? &&
      e.action == if TakenOver(log) then REBOOT_TERMINAL else OwnAction(log, e.trn).value) &&
    (e.DispatchedLocally? ==> Asked(log) && e.action == REBOOT_TERMINAL)
  }

  predicate AllJustified(log: seq<Entry>) {
    forall p :: 0 <= p < |log| ==> Justified(log[..p], log[p])
  }

  predicate Distinct(rows: seq<Row>) {
    forall i, j :: 0 <= i < j < |rows| ==> rows[i].trn != rows[j].trn
  }

  /** The slot holds a stored command that has not been dispatched, and its action unless a
      local request took it over. */
  ghost predicate SlotAgrees(q: Queue) {
    q.cmdMeta.Some? ==>
      exists i :: 0 <= i < |q.rows| && q.rows[i].trn == q.cmdMeta.value.trn && Open(q.rows[i]) &&
        q.cmdExec == if TakenOver(q.log) then REBOOT_TERMINAL else q.rows[i].cmd
  }

  /** When the timer runs for an empty slot, a local request started it. */
  predicate EmptySlotAgrees(q: Queue) {
    q.execTimer && q.cmdMeta.None? ==> Asked(q.log) && q.cmdExec == REBOOT_TERMINAL
  }

  ghost predicate ConfirmAgrees(q: Queue) {
    q.confirmTrn.Some? ==>
      exists i :: 0 <= i < |q.rows| && q.rows[i].trn == q.confirmTrn.value && !Open(q.rows[i])
  }

  ghost predicate Inv(q: Queue) {
    && Distinct(q.rows)
    && (forall i :: 0 <= i < |q.rows| ==> RowAgrees(q.rows[i], q.log))
    && SlotAgrees(q) && EmptySlotAgrees(q) && ConfirmAgrees(q)
    && AllJustified(q.log)
  }

  lemma JustifiedNoted(log: seq<Entry>, e: Entry)
    requires AllJustified(log) && Justified(log, e)
    ensures AllJustified(log + [e])
  {
    forall p | 0 <= p < |log + [e]| ensures Justified((log + [e])[..p], (log + [e])[p]) {
      assert (log + [e])[..p] == log[..p];
      assert log[..|log|] == log;
    }
  }

  // ---------------------------------------------------------------- kept by every step

  lemma KeepsStoreOne(q: Queue, o: Order)
    requires Inv(q)
    ensures Inv(StoreOne(q, o))
  {
    if !Exists(q.rows, o.trn) {
      Noted(q.log, Stored(o.trn, o.cmd));
      JustifiedNoted(q.log, Stored(o.trn, o.cmd));
      var r := StoreOne(q, o);
      if q.cmdMeta.Some? {
        var i :| 0 <= i < |q.rows| && q.rows[i].trn == q.cmdMeta.value.trn && Open(q.rows[i]) &&
          q.cmdExec == if TakenOver(q.log) then REBOOT_TERMINAL else q.rows[i].cmd;
        assert r.rows[i] == q.rows[i];
      }
      if q.confirmTrn.Some? {
        var i :| 0 <= i < |q.rows| && q.rows[i].trn == q.confirmTrn.value && !Open(q.rows[i]);
        assert r.rows[i] == q.rows[i];
      }
      assert Distinct(r.rows);
    }
  }

  lemma {:induction false} KeepsStoreAll(q: Queue, orders: seq<Order>)
    requires Inv(q)
    ensures Inv(StoreAll(q, orders))
    decreases |orders|
  {
    if orders == [] {
    } else {
      KeepsStoreOne(q, orders[0]);
      KeepsStoreAll(StoreOne(q, orders[0]), orders[1..]);
    }
  }

  /** A status change that stays on its side of the dispatch. */
  lemma KeepsStatus(q: Queue, i: nat, status: Status)
    requires Inv(q) && i < |q.rows|
    requires Open(q.rows[i]) == Open(q.rows[i].(status := status))
    ensures Inv(q.(rows := WithStatus(q.rows, q.rows[i].trn, status)))
  {
    var rows := WithStatus(q.rows, q.rows[i].trn, status);
    forall k | 0 <= k < |rows| ensures RowAgrees(rows[k], q.log) && Open(rows[k]) == Open(q.rows[k]) {
      assert RowAgrees(q.rows[k], q.log);
      assert q.rows[k].trn == q.rows[i].trn ==> k == i;
    }
    if q.cmdMeta.Some? {
      var k :| 0 <= k < |q.rows| && q.rows[k].trn == q.cmdMeta.value.trn && Open(q.rows[k]) &&
        q.cmdExec == if TakenOver(q.log) then REBOOT_TERMINAL else q.rows[k].cmd;
      assert Open(rows[k]) && rows[k].trn == q.rows[k].trn && rows[k].cmd == q.rows[k].cmd;
    }
    if q.confirmTrn.Some? {
      var k :| 0 <= k < |q.rows| && q.rows[k].trn == q.confirmTrn.value && !Open(q.rows[k]);
      assert !Open(rows[k]) && rows[k].trn == q.rows[k].trn;
    }
  }

  lemma KeepsArm(q: Queue, i: nat)
    requires Inv(q) && i < |q.rows| && q.rows[i].status == Arrived
    ensures Inv(Arm(q, i))
  {
    KeepsStatus(q, i, Executing);
    var e := Armed(q.rows[i].trn);
    Noted(q.log, e);
    JustifiedNoted(q.log, e);
    var r := Arm(q, i);
    assert r.rows[i].trn == r.cmdMeta.value.trn && Open(r.rows[i]) && r.cmdExec == r.rows[i].cmd;
    forall k | 0 <= k < |r.rows| ensures RowAgrees(r.rows[k], r.log) {
      assert RowAgrees(q.(rows := r.rows).rows[k], q.log);
    }
    assert ConfirmAgrees(q.(rows := r.rows));
  }

  lemma KeepsAskConfirmation(q: Queue, i: nat)
    requires Inv(q) && i < |q.rows| && q.rows[i].status == Executed
    ensures Inv(AskConfirmation(q, i))
  {
    KeepsStatus(q, i, Confirming);
    var e := ConfirmationAsked(q.rows[i].trn, q.inFlight.None?);
    Noted(q.log, e);
    JustifiedNoted(q.log, e);
    var r := AskConfirmation(q, i);
    assert r.rows[i].trn == r.confirmTrn.value && !Open(r.rows[i]);
    forall k | 0 <= k < |r.rows| ensures RowAgrees(r.rows[k], r.log) {
      assert RowAgrees(q.(rows := r.rows).rows[k], q.log);
    }
    assert SlotAgrees(q.(rows := r.rows));
  }

  lemma KeepsCountTry(q: Queue, i: nat)
    requires Inv(q) && i < |q.rows| && (q.rows[i].status == Executing || q.rows[i].status == Confirming)
    ensures Inv(CountTry(q, i))
  {
    if q.tryCount + 1 >= MAX_TRIES {
      var status := if q.rows[i].status == Executing then Arrived else Executed;
      KeepsStatus(q, i, status);
      var r := q.(rows := WithStatus(q.rows, q.rows[i].trn, status));
      assert Inv(r) && CountTry(q, i) == r.(tryCount := 0);
    }
  }

  lemma KeepsCheck(q: Queue, busy: bool)
    requires Inv(q)
    ensures Inv(Check(q, busy))
  {
    var a := Active(q.rows);
    if !busy && a.Some? && q.rows[a.value].trn != "" {
      var status := q.rows[a.value].status;
      if status == Arrived {
        KeepsArm(q, a.value);
      } else if status == Executed {
        KeepsAskConfirmation(q, a.value);
      } else {
        KeepsCountTry(q, a.value);
      }
    }
  }

  /** A dispatch closes exactly the row of its command. */
  lemma RowsAfterDispatch(q: Queue, i: nat)
    requires Inv(q) && q.cmdMeta.Some? && i < |q.rows| && q.rows[i].trn == q.cmdMeta.value.trn && Open(q.rows[i])
    ensures
      var r := Execute(q, true);
      Distinct(r.rows) && (forall k :: 0 <= k < |r.rows| ==> RowAgrees(r.rows[k], r.log)) && ConfirmAgrees(r)
  {
    var trn := q.cmdMeta.value.trn;
    Noted(q.log, Dispatched(trn, q.cmdExec));
    var r := Execute(q, true);
    forall k | 0 <= k < |r.rows|
      ensures RowAgrees(r.rows[k], r.log) && r.rows[k].trn == q.rows[k].trn && (k != i ==> r.rows[k] == q.rows[k])
    {
      assert RowAgrees(q.rows[k], q.log);
      assert q.rows[k].trn == trn ==> k == i;
    }
    if q.confirmTrn.Some? {
      var k :| 0 <= k < |q.rows| && q.rows[k].trn == q.confirmTrn.value && !Open(q.rows[k]);
      assert r.rows[k] == q.rows[k];
    }
  }

  lemma KeepsExecute(q: Queue, onMainPage: bool)
    requires Inv(q) && q.execTimer
    ensures Inv(Execute(q, onMainPage))
  {
    if onMainPage {
      if q.cmdMeta.None? {
        Noted(q.log, DispatchedLocally(q.cmdExec));
        JustifiedNoted(q.log, DispatchedLocally(q.cmdExec));
      } else {
        var i :| 0 <= i < |q.rows| && q.rows[i].trn == q.cmdMeta.value.trn && Open(q.rows[i]) &&
          q.cmdExec == if TakenOver(q.log) then REBOOT_TERMINAL else q.rows[i].cmd;
        assert RowAgrees(q.rows[i], q.log);
        RowsAfterDispatch(q, i);
        JustifiedNoted(q.log, Dispatched(q.cmdMeta.value.trn, q.cmdExec));
      }
    }
  }

  lemma {:induction false} UnconfirmedKeeps(rows: seq<Row>, log: seq<Entry>)
    requires Distinct(rows) && forall i :: 0 <= i < |rows| ==> RowAgrees(rows[i], log)
    ensures Distinct(Unconfirmed(rows))
    ensures forall i :: 0 <= i < |Unconfirmed(rows)| ==> RowAgrees(Unconfirmed(rows)[i], log)
    ensures forall r :: r in Unconfirmed(rows) ==> r in rows
  {
    if rows == [] {
    } else {
      var n := |rows| - 1;
      UnconfirmedKeeps(rows[..n], log);
      forall i | 0 <= i < |Unconfirmed(rows[..n])| ensures Unconfirmed(rows[..n])[i].trn != rows[n].trn {
        var r := Unconfirmed(rows[..n])[i];
        assert r in rows[..n];
        var k :| 0 <= k < n && rows[k] == r;
      }
    }
  }

  /** An entry that no claim about dispatches looks at. */
  lemma KeepsNote(q: Queue, e: Entry)
    requires Inv(q) && (e.ConfirmationAsked? || e.Acknowledged?)
    ensures Inv(q.Note(e))
  {
    JustifiedNoted(q.log, e);
    NoteKeepsRows(q, e);
    NoteKeepsSlot(q, e);
    assert ConfirmAgrees(q.Note(e)) == ConfirmAgrees(q);
  }

  lemma NoteKeepsRows(q: Queue, e: Entry)
    requires Inv(q) && (e.ConfirmationAsked? || e.Acknowledged?)
    ensures forall k :: 0 <= k < |q.rows| ==> RowAgrees(q.rows[k], q.log + [e])
  {
    Noted(q.log, e);
    forall k | 0 <= k < |q.rows| ensures RowAgrees(q.rows[k], q.log + [e]) {
      assert RowAgrees(q.rows[k], q.log);
    }
  }

  lemma NoteKeepsSlot(q: Queue, e: Entry)
    requires SlotAgrees(q) && EmptySlotAgrees(q) && (e.ConfirmationAsked? || e.Acknowledged?)
    ensures SlotAgrees(q.Note(e)) && EmptySlotAgrees(q.Note(e))
  {
    Noted(q.log, e);
    assert TakenOver(q.log + [e]) == TakenOver(q.log) && Asked(q.log + [e]) == Asked(q.log);
  }

  lemma KeepsFlight(q: Queue, inFlight: Option<string>)
    requires Inv(q)
    ensures Inv(q.(inFlight := inFlight))
  {}

  lemma KeepsReply(q: Queue, positive: bool)
    requires Inv(q)
    ensures Inv(ConfirmReply(q, positive))
  {
    if q.inFlight.Some? && q.confirmTrn.Some? {
      KeepsFlight(q, None);
      if positive {
        var ended := q.(inFlight := None);
        var k :| 0 <= k < |q.rows| && q.rows[k].trn == q.confirmTrn.value && !Open(q.rows[k]);
        KeepsStatus(ended, k, Confirmed);
        KeepsNote(ended.(rows := WithStatus(q.rows, q.confirmTrn.value, Confirmed)),
                  Acknowledged(q.inFlight.value, q.confirmTrn.value));
      }
    }
  }

  lemma KeepsRepeat(q: Queue)
    requires Inv(q)
    ensures Inv(RepeatConfirmation(q))
  {
    if q.confirmTrn.Some? {
      var inFlight := if q.inFlight.Some? then q.inFlight else q.confirmTrn;
      KeepsFlight(q, inFlight);
      KeepsNote(q.(inFlight := inFlight), ConfirmationAsked(q.confirmTrn.value, q.inFlight.None?));
    }
  }

  lemma KeepsLocalReboot(q: Queue)
    requires Inv(q)
    ensures Inv(LocalReboot(q))
  {
    Noted(q.log, LocalRequest);
    JustifiedNoted(q.log, LocalRequest);
    var r := LocalReboot(q);
    forall k | 0 <= k < |r.rows| ensures RowAgrees(r.rows[k], r.log) {
      assert RowAgrees(q.rows[k], q.log);
    }
  }

  lemma KeepsRestart(q: Queue)
    requires Inv(q)
    ensures Inv(Restart(q))
  {
    Noted(q.log, Restarted);
    JustifiedNoted(q.log, Restarted);
    UnconfirmedKeeps(q.rows, q.log);
    var r := Restart(q);
    forall k | 0 <= k < |r.rows| ensures RowAgrees(r.rows[k], r.log) {
      assert RowAgrees(Unconfirmed(q.rows)[k], q.log);
    }
  }

  /** The invariant is kept by every event of every run. */
  lemma {:induction false} KeepsRun(q: Queue, es: seq<Event>)
    requires Inv(q)
    ensures Inv(Run(q, es))
    decreases |es|
  {
    if es == [] {
    } else {
      match es[0] {
        case FromServer(orders, busy) => KeepsStoreAll(q, orders);
        case CheckTick(busy) => KeepsCheck(q, busy);
        case ExecTick(onMainPage) => if q.execTimer { KeepsExecute(q, onMainPage); }
        case Replied(positive) => KeepsReply(q, positive);
        case RepeatTimeout => KeepsRepeat(q);
        case RebootWanted => KeepsLocalReboot(q);
        case ProgramRestart => KeepsRestart(q);
      }
      KeepsRun(Step(q, es[0]), es[1..]);
    }
  }

  lemma RunOne(q: Queue, e: Event)
    ensures Run(q, [e]) == Step(q, e)
  {
    assert [e][1..] == [];
  }

  // ---------------------------------------------------------------- the claims

  lemma {:induction false} NoStoreKeepsDispatches(log: seq<Entry>, p: nat, trn: string)
    requires p < |log| && log[p].Dispatched? && log[p].trn == trn
    requires forall r :: p < r < |log| ==> !(log[r].Stored? && log[r].trn == trn)
    ensures Dispatches(log, trn) >= 1
  {
    if p == |log| - 1 {
    } else {
      NoStoreKeepsDispatches(log[..|log| - 1], p, trn);
    }
  }

  lemma {:induction false} AskedMeans(log: seq<Entry>, p: nat)
    requires Asked(log) && p < |log| && IsDispatch(log[p])
    ensures exists k :: p < k < |log| && log[k].LocalRequest?
  {
    var n := |log| - 1;
    if log[n].LocalRequest? {
      assert p < n;
    } else {
      AskedMeans(log[..n], p);
      var k :| p < k < n && log[..n][k].LocalRequest?;
      assert log[k].LocalRequest?;
    }
  }

  /** What allows the dispatch at `r` after the one at `p`: the command was stored anew, or it
      is a reboot for no command that was asked for locally. */
  predicate CausedAnew(log: seq<Entry>, p: nat, r: nat)
    requires p < r < |log| && IsDispatch(log[r])
  {
    match log[r]
    case Dispatched(trn, _) => exists k :: p < k < r && log[k].Stored? && log[k].trn == trn
    case DispatchedLocally(action) =>
      action == REBOOT_TERMINAL && exists k :: p < k < r && log[k].LocalRequest?
  }

  /** Over every run no stored command's action is dispatched twice: after the dispatch for a
      transaction number, another one for that number has a cause of its own, and so has every
      dispatch from an empty slot, which can only be a reboot. */
  lemma AtMostOnce(es: seq<Event>, p: nat, r: nat)
    requires var log := Run(NEW_TERMINAL, es).log;
      p < r < |log| && IsDispatch(log[p]) && IsDispatch(log[r]) &&
      (log[r].Dispatched? ==> log[p].Dispatched? && log[p].trn == log[r].trn)
    ensures CausedAnew(Run(NEW_TERMINAL, es).log, p, r)
  {
    KeepsRun(NEW_TERMINAL, es);
    var log := Run(NEW_TERMINAL, es).log;
    assert Justified(log[..r], log[r]);
    if log[r].DispatchedLocally? {
      AskedMeans(log[..r], p);
    } else if forall k :: p < k < r ==> !(log[k].Stored? && log[k].trn == log[p].trn) {
      NoStoreKeepsDispatches(log[..r], p, log[p].trn);
    }
  }

  /** In every reachable state a stored command has left {new, executing} exactly if it was
      dispatched since it was stored, and then exactly once. */
  lemma LeftOnlyByDispatch(es: seq<Event>, i: nat)
    requires i < |Run(NEW_TERMINAL, es).rows|
    ensures
      var q := Run(NEW_TERMINAL, es);
      Dispatches(q.log, q.rows[i].trn) == (if Open(q.rows[i]) then 0 else 1)
  {
    KeepsRun(NEW_TERMINAL, es);
    assert RowAgrees(Run(NEW_TERMINAL, es).rows[i], Run(NEW_TERMINAL, es).log);
  }

  /** What is dispatched for a command is its own action, if and only if no local reboot
      request came between filling the slot and the dispatch, or its own action is a reboot. */
  lemma OwnActionIffNotTakenOver(es: seq<Event>, p: nat)
    requires var log := Run(NEW_TERMINAL, es).log; p < |log| && log[p].Dispatched?
    ensures
      var log := Run(NEW_TERMINAL, es).log;
      var own := OwnAction(log[..p], log[p].trn);
      own.Some? && (log[p].action == own.value <==> !TakenOver(log[..p]) || own.value == REBOOT_TERMINAL)
  {
    KeepsRun(NEW_TERMINAL, es);
    var log := Run(NEW_TERMINAL, es).log;
    assert Justified(log[..p], log[p]);
  }

  /** A run in which a reboot request replaces a command's action: the command is marked
      executed and its own action never happens. */
  lemma LocalRebootLosesCommand()
    ensures
      var es := [FromServer([Order("7", 6, "", "")], false), CheckTick(false), RebootWanted, ExecTick(true)];
      var q := Run(NEW_TERMINAL, es);
      |q.rows| == 1 && q.rows[0].status == Executed && |q.log| == 4 && q.log[3] == Dispatched("7", REBOOT_TERMINAL)
  {
    var o := Order("7", 6, "", "");
    var e1, e2, e3, e4 := FromServer([o], false), CheckTick(false), RebootWanted, ExecTick(true);
    var q1 := NEW_TERMINAL.(rows := [Row("7", 6, "", "", Arrived)], log := [Stored("7", 6)]);
    assert Step(NEW_TERMINAL, e1) == q1 by {
      assert StoreAll(NEW_TERMINAL, [o]) == StoreOne(NEW_TERMINAL, o);
    }
    var q2 := q1.(rows := [Row("7", 6, "", "", Executing)], cmdExec := 6, cmdMeta := Some(Slot("7", "", "")),
                  execTimer := true, log := [Stored("7", 6), Armed("7")]);
    assert Step(q1, e2) == q2 by {
      assert Active(q1.rows) == Some(0);
      assert WithStatus(q1.rows, "7", Executing) == q2.rows;
    }
    var q4 := Step(Step(q2, e3), e4);
    assert WithStatus(q2.rows, "7", Executed) == [Row("7", 6, "", "", Executed)];
    FourSteps(NEW_TERMINAL, e1, e2, e3, e4);
  }

  lemma FourSteps(q: Queue, e1: Event, e2: Event, e3: Event, e4: Event)
    ensures Run(q, [e1, e2, e3, e4]) == Step(Step(Step(Step(q, e1), e2), e3), e4)
  {
    assert [e1, e2, e3, e4] == [e1] + ([e2] + ([e3] + ([e4] + [])));
    RunFirst(q, e1, [e2] + ([e3] + ([e4] + [])));
    RunFirst(Step(q, e1), e2, [e3] + ([e4] + []));
    RunFirst(Step(Step(q, e1), e2), e3, [e4] + []);
    RunFirst(Step(Step(Step(q, e1), e2), e3), e4, []);
  }

  lemma RunFirst(q: Queue, e: Event, es: seq<Event>)
    ensures Run(q, [e] + es) == Run(Step(q, e), es)
  {
    assert ([e] + es)[1..] == es;
  }

  ghost predicate IsConfirmed(q: Queue, trn: string) {
    exists i :: 0 <= i < |q.rows| && q.rows[i].trn == trn && q.rows[i].status == Confirmed
  }

  ghost predicate HasRow(q: Queue, trn: string) {
    exists i :: 0 <= i < |q.rows| && q.rows[i].trn == trn
  }

  lemma {:induction false} StoreAllKeepsRows(q: Queue, orders: seq<Order>)
    ensures q.rows <= StoreAll(q, orders).rows
    decreases |orders|
  {
    if orders == [] {
    } else {
      StoreAllKeepsRows(StoreOne(q, orders[0]), orders[1..]);
    }
  }

  lemma {:induction false} UnconfirmedDrops(rows: seq<Row>)
    ensures forall r :: r in Unconfirmed(rows) ==> r in rows && r.status != Confirmed
  {
    if rows == [] {
    } else {
      UnconfirmedDrops(rows[..|rows| - 1]);
    }
  }

  /** One step leaves a confirmed command confirmed, or its row is deleted. */
  lemma ConfirmedStep(q: Queue, e: Event, trn: string)
    requires Inv(q) && IsConfirmed(q, trn)
    ensures IsConfirmed(Step(q, e), trn) || (e.ProgramRestart? && !HasRow(Step(q, e), trn))
  {
    var i :| 0 <= i < |q.rows| && q.rows[i].trn == trn && q.rows[i].status == Confirmed;
    var r := Step(q, e);
    match e
    case FromServer(orders, busy) =>
      StoreAllKeepsRows(q, orders);
      assert r.rows[i] == q.rows[i];
    case CheckTick(busy) => CheckLeavesConfirmed(q, busy, i);
    case ExecTick(onMainPage) =>
      if q.cmdMeta.Some? {
        var k :| 0 <= k < |q.rows| && q.rows[k].trn == q.cmdMeta.value.trn && Open(q.rows[k]);
        assert k != i;
      }
      assert r.rows[i] == q.rows[i];
    case Replied(_) => assert r.rows[i] == q.rows[i];
    case RepeatTimeout => assert r.rows[i] == q.rows[i];
    case RebootWanted => assert r.rows[i] == q.rows[i];
    case ProgramRestart =>
      UnconfirmedDrops(q.rows);
      forall k | 0 <= k < |r.rows| ensures r.rows[k].trn != trn {
        assert r.rows[k] in q.rows && r.rows[k].status != Confirmed;
      }
  }

  lemma CheckLeavesConfirmed(q: Queue, busy: bool, i: nat)
    requires Inv(q) && i < |q.rows| && q.rows[i].status == Confirmed
    ensures i < |Check(q, busy).rows| && Check(q, busy).rows[i] == q.rows[i]
  {
    var a := Active(q.rows);
    if a.Some? {
      assert a.value != i;
      assert q.rows[a.value].trn != q.rows[i].trn;
    }
  }

  /** `confirmed` is never left while the row exists: over any run, the command is confirmed
      at the end or its row was deleted at some point. */
  lemma {:induction false} ConfirmedStays(q: Queue, es: seq<Event>, trn: string)
    requires Inv(q) && IsConfirmed(q, trn)
    ensures IsConfirmed(Run(q, es), trn) || exists k :: 0 < k <= |es| && !HasRow(Run(q, es[..k]), trn)
    decreases |es|
  {
    if es == [] {
    } else {
      KeepsRun(q, [es[0]]);
      RunOne(q, es[0]);
      ConfirmedStep(q, es[0], trn);
      var q1 := Step(q, es[0]);
      if IsConfirmed(q1, trn) {
        ConfirmedStays(q1, es[1..], trn);
        if k :| 0 < k <= |es[1..]| && !HasRow(Run(q1, es[1..][..k]), trn) {
          assert es[..k + 1][1..] == es[1..][..k];
          assert Run(q, es[..k + 1]) == Run(q1, es[1..][..k]);
        }
      } else {
        assert es[..1][1..] == [];
        assert Run(q, es[..1]) == q1;
      }
    }
  }

  // ---------------------------------------------------------------- progress

  lemma {:induction false} LessTransitive(a: string, b: string, c: string)
    requires Less(a, b) && Less(b, c)
    ensures Less(a, c)
  {
    if a != [] && a[0] == b[0] && b[0] == c[0] {
      LessTransitive(a[1..], b[1..], c[1..]);
    }
  }

  /** The command looked at is the unconfirmed one with the smallest number. */
  lemma {:induction false} ActiveIsLeast(rows: seq<Row>)
    ensures Active(rows).None? <==> forall i :: 0 <= i < |rows| ==> rows[i].status == Confirmed
    ensures Active(rows).Some? ==>
      forall i :: 0 <= i < |rows| && rows[i].status != Confirmed ==> !Less(rows[i].trn, rows[Active(rows).value].trn)
  {
    if rows == [] {
    } else {
      var n := |rows| - 1;
      ActiveIsLeast(rows[..n]);
      var before := Active(rows[..n]);
      if before.Some? && rows[n].status != Confirmed && Less(rows[n].trn, rows[before.value].trn) {
        forall i | 0 <= i < |rows| && rows[i].status != Confirmed ensures !Less(rows[i].trn, rows[n].trn) {
          if i < n && Less(rows[i].trn, rows[n].trn) {
            assert rows[..n][i] == rows[i];
            LessTransitive(rows[i].trn, rows[n].trn, rows[before.value].trn);
          } else if i == n {
            LessIrreflexive(rows[n].trn);
          }
        }
      } else {
        forall i | 0 <= i < |rows| && rows[i].status != Confirmed && Active(rows).Some?
          ensures !Less(rows[i].trn, rows[Active(rows).value].trn)
        {
          if i < n {
            assert rows[..n][i] == rows[i];
          } else if before.None? {
            LessIrreflexive(rows[n].trn);
          }
        }
      }
      if Active(rows).None? {
        assert forall i :: 0 <= i < n ==> rows[..n][i] == rows[i];
      }
    }
  }

  lemma {:induction false} LessIrreflexive(a: string)
    ensures !Less(a, a)
  {
    if a == [] {
    } else {
      LessIrreflexive(a[1..]);
    }
  }
}
