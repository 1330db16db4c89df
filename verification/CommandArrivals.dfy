/** What the queue does with an order: how it is stored, put in the slot and dispatched. */
module CommandArrivals {
  import opened Common
  import opened CommandModel
  import opened CommandSafety

  // ---------------------------------------------------------------- storing

  function Stores(o: Order): Row {
    Row(o.trn, o.cmd, o.account, o.comment, Arrived)
  }

  predicate HasOrder(orders: seq<Order>, trn: string) {
    exists o :: o in orders && o.trn == trn
  }

  /** Order `j` is the first one with its number, and no row has it. */
  predicate IsNew(rows: seq<Row>, orders: seq<Order>, j: nat) {
    j < |orders| && !Exists(rows, orders[j].trn) && !HasOrder(orders[..j], orders[j].trn)
  }

  ghost predicate Arrives(rows: seq<Row>, orders: seq<Order>, row: Row) {
    exists j: nat :: IsNew(rows, orders, j) && row == Stores(orders[j])
  }

  lemma StoreOneIff(q: Queue, o: Order)
    ensures
      var r := StoreOne(q, o);
      q.rows <= r.rows &&
      forall row :: row in r.rows[|q.rows|..] <==> !Exists(q.rows, o.trn) && row == Stores(o)
  {
    if !Exists(q.rows, o.trn) {
      assert StoreOne(q, o).rows[|q.rows|..] == [Stores(o)];
    } else {
      assert StoreOne(q, o).rows[|q.rows|..] == [];
    }
  }

  lemma ExistsAfter(q: Queue, o: Order, trn: string)
    ensures Exists(StoreOne(q, o).rows, trn) <==> Exists(q.rows, trn) || o.trn == trn
  {
    var r := StoreOne(q, o);
    if Exists(q.rows, trn) {
      var i :| 0 <= i < |q.rows| && q.rows[i].trn == trn;
      assert r.rows[i].trn == trn;
    }
    if !Exists(q.rows, o.trn) {
      assert r.rows[|q.rows|].trn == o.trn;
    }
  }

  lemma NewAfterFirst(q: Queue, orders: seq<Order>, j: nat)
    requires orders != [] && 0 < j < |orders|
    ensures IsNew(q.rows, orders, j) <==> IsNew(StoreOne(q, orders[0]).rows, orders[1..], j - 1)
  {
    var trn := orders[j].trn;
    ExistsAfter(q, orders[0], trn);
    assert orders[..j] == [orders[0]] + orders[1..][..j - 1];
    assert HasOrder(orders[..j], trn) <==> orders[0].trn == trn || HasOrder(orders[1..][..j - 1], trn);
  }

  lemma ArrivesFirst(q: Queue, orders: seq<Order>, row: Row)
    requires orders != []
    ensures Arrives(q.rows, orders, row) <==>
      (!Exists(q.rows, orders[0].trn) && row == Stores(orders[0])) ||
      Arrives(StoreOne(q, orders[0]).rows, orders[1..], row)
  {
    var r := StoreOne(q, orders[0]);
    assert IsNew(q.rows, orders, 0) <==> !Exists(q.rows, orders[0].trn);
    if j: nat :| IsNew(q.rows, orders, j) && row == Stores(orders[j]) && j > 0 {
      NewAfterFirst(q, orders, j);
      assert IsNew(r.rows, orders[1..], j - 1);
    }
    if j: nat :| IsNew(r.rows, orders[1..], j) && row == Stores(orders[1..][j]) {
      NewAfterFirst(q, orders, j + 1);
      assert IsNew(q.rows, orders, j + 1);
    }
  }

  lemma {:induction false} StoreAllIff(q: Queue, orders: seq<Order>)
    ensures
      var r := StoreAll(q, orders);
      q.rows <= r.rows && forall row :: row in r.rows[|q.rows|..] <==> Arrives(q.rows, orders, row)
    decreases |orders|
  {
    if orders == [] {
    } else {
      var q1 := StoreOne(q, orders[0]);
      var r := StoreAll(q1, orders[1..]);
      StoreOneIff(q, orders[0]);
      StoreAllIff(q1, orders[1..]);
      assert r.rows[|q.rows|..] == q1.rows[|q.rows|..] + r.rows[|q1.rows|..];
      forall row ensures row in r.rows[|q.rows|..] <==> Arrives(q.rows, orders, row) {
        ArrivesFirst(q, orders, row);
      }
    }
  }

  /** A response that is not dropped leaves the rows there were and adds, as arrived and with its
      account and comment, each order whose number is new, the first one of several, and nothing
      else; a dropped one changes nothing. */
  lemma ArrivesIff(q: Queue, orders: seq<Order>, busy: bool, row: Row)
    ensures
      var r := Step(q, FromServer(orders, busy));
      q.rows <= r.rows && (row in r.rows[|q.rows|..] <==> !busy && Arrives(q.rows, orders, row))
  {
    StoreAllIff(q, orders);
  }

  ghost predicate CameAs(es: seq<Event>, r: Row, k: nat) {
    k < |es| && es[k].FromServer? && !es[k].busy && Order(r.trn, r.cmd, r.account, r.comment) in es[k].orders
  }

  ghost predicate Came(es: seq<Event>, r: Row) {
    exists k: nat :: CameAs(es, r, k)
  }

  /** Every row in the table is one of the orders that were received, apart from its status. */
  ghost predicate AllCame(rows: seq<Row>, es: seq<Event>) {
    forall i :: 0 <= i < |rows| ==> Came(es, rows[i])
  }

  lemma CameStays(es: seq<Event>, e: Event, r: Row, r': Row, k: nat)
    requires CameAs(es, r, k) && r' == r.(status := r'.status)
    ensures CameAs(es + [e], r', k)
  {}

  lemma AllCameStep(q: Queue, es: seq<Event>, e: Event)
    requires AllCame(q.rows, es)
    ensures AllCame(Step(q, e).rows, es + [e])
  {
    var r := Step(q, e);
    forall i | 0 <= i < |r.rows| ensures Came(es + [e], r.rows[i]) {
      if e.FromServer? && i >= |q.rows| {
        ArrivesIff(q, e.orders, e.busy, r.rows[i]);
        assert r.rows[|q.rows|..][i - |q.rows|] == r.rows[i];
        assert CameAs(es + [e], r.rows[i], |es|);
      } else {
        var j := RowBefore(q, e, i);
        assert Came(es, q.rows[j]);
        var k: nat :| CameAs(es, q.rows[j], k);
        CameStays(es, e, q.rows[j], r.rows[i], k);
      }
    }
  }

  predicate OnlyStatus(rows: seq<Row>, after: seq<Row>) {
    |after| == |rows| && forall i :: 0 <= i < |rows| ==> after[i] == rows[i].(status := after[i].status)
  }

  lemma StatusOnly(rows: seq<Row>, trn: string, status: Status)
    ensures OnlyStatus(rows, WithStatus(rows, trn, status)) && OnlyStatus(rows, rows)
  {}

  lemma CheckChangesStatus(q: Queue, busy: bool)
    ensures OnlyStatus(q.rows, Check(q, busy).rows)
  {
    var a := Active(q.rows);
    if !busy && a.Some? {
      var trn := q.rows[a.value].trn;
      match q.rows[a.value].status
      case Arrived => StatusOnly(q.rows, trn, Executing);
      case Executing => StatusOnly(q.rows, trn, Arrived);
      case Executed => StatusOnly(q.rows, trn, Confirming);
      case _ => StatusOnly(q.rows, trn, Executed);
    }
  }

  lemma StepChangesStatus(q: Queue, e: Event)
    requires !e.FromServer? && !e.ProgramRestart?
    ensures OnlyStatus(q.rows, Step(q, e).rows)
  {
    match e
    case CheckTick(busy) => CheckChangesStatus(q, busy);
    case _ =>
  }

  /** The row that a row was before. */
  lemma RowBefore(q: Queue, e: Event, i: nat) returns (j: nat)
    requires i < |Step(q, e).rows| && (e.FromServer? ==> i < |q.rows|)
    ensures j < |q.rows| && Step(q, e).rows[i] == q.rows[j].(status := Step(q, e).rows[i].status)
  {
    if e.ProgramRestart? {
      UnconfirmedDrops(q.rows);
      var row := Unconfirmed(q.rows)[i];
      assert row in Unconfirmed(q.rows);
      j :| 0 <= j < |q.rows| && q.rows[j] == row;
    } else {
      j := i;
      if e.FromServer? {
        StoreAllKeepsRows(q, e.orders);
      } else {
        StepChangesStatus(q, e);
      }
    }
  }

  lemma {:induction false} AllCameRun(q: Queue, before: seq<Event>, es: seq<Event>)
    requires AllCame(q.rows, before)
    ensures AllCame(Run(q, es).rows, before + es)
    decreases |es|
  {
    if es == [] {
      assert before + es == before;
    } else {
      AllCameStep(q, before, es[0]);
      AllCameRun(Step(q, es[0]), before + [es[0]], es[1..]);
      assert before + [es[0]] + es[1..] == before + es;
    }
  }

  /** Over every run, each row in the table has the number, the command, the account and the comment
      of one order that the server sent. */
  lemma RowsComeFromOrders(es: seq<Event>, i: nat)
    requires i < |Run(NEW_TERMINAL, es).rows|
    ensures Came(es, Run(NEW_TERMINAL, es).rows[i])
  {
    AllCameRun(NEW_TERMINAL, [], es);
    assert [] + es == es;
  }

  // ---------------------------------------------------------------- the slot

  lemma {:induction false} LessTotal(a: string, b: string)
    requires a != b
    ensures Less(a, b) || Less(b, a)
  {
    if a != [] && b != [] && a[0] == b[0] {
      assert a == [a[0]] + a[1..] && b == [b[0]] + b[1..];
      LessTotal(a[1..], b[1..]);
    }
  }

  /** Row `i` waits, and no other waiting row has a smaller number. */
  predicate IsNext(rows: seq<Row>, i: nat) {
    i < |rows| && rows[i].status != Confirmed &&
    forall j :: 0 <= j < |rows| && rows[j].status != Confirmed ==> !Less(rows[j].trn, rows[i].trn)
  }

  lemma NextIsActive(rows: seq<Row>, i: nat)
    requires Distinct(rows)
    ensures IsNext(rows, i) <==> Active(rows) == Some(i)
  {
    ActiveIsLeast(rows);
    if IsNext(rows, i) {
      var a := Active(rows).value;
      if a != i {
        LessTotal(rows[a].trn, rows[i].trn);
      }
    }
  }

  function Logged(q: Queue, e: Event): seq<Entry> {
    var r := Step(q, e);
    if |q.log| <= |r.log| then r.log[|q.log|..] else []
  }

  lemma {:induction false} StoringArmsNothing(q: Queue, orders: seq<Order>)
    ensures
      var r := StoreAll(q, orders);
      q.log <= r.log && forall x :: x in r.log[|q.log|..] ==> x.Stored?
    decreases |orders|
  {
    if orders == [] {
    } else {
      var q1 := StoreOne(q, orders[0]);
      var r := StoreAll(q1, orders[1..]);
      StoringArmsNothing(q1, orders[1..]);
      assert r.log[|q.log|..] == q1.log[|q.log|..] + r.log[|q1.log|..];
    }
  }

  /** An event dispatches an action if and only if it is a tick of a running execution timer on the
      main page; it is the action that was put in the slot or asked for, for the command in the
      slot or for none, and the timer stops and the slot is empty after it. */
  lemma DispatchesIff(q: Queue, e: Event)
    ensures (exists x :: x in Logged(q, e) && IsDispatch(x)) <==> e == ExecTick(true) && q.execTimer
    ensures e == ExecTick(true) && q.execTimer ==>
      Logged(q, e) ==
        [if q.cmdMeta.Some? then Dispatched(q.cmdMeta.value.trn, q.cmdExec) else DispatchedLocally(q.cmdExec)] &&
      !Step(q, e).execTimer && Step(q, e).cmdMeta.None?
  {
    if e.FromServer? {
      StoringArmsNothing(q, e.orders);
    }
    if e == ExecTick(true) && q.execTimer {
      assert IsDispatch(Logged(q, e)[0]);
    }
  }

  predicate Armable(q: Queue, i: nat) {
    q.checkTimer && IsNext(q.rows, i) && q.rows[i].status == Arrived && q.rows[i].trn != ""
  }

  predicate HoldsIn(q: Queue, i: nat) {
    i < |q.rows| && q.cmdMeta == Some(Slot(q.rows[i].trn, q.rows[i].account, q.rows[i].comment)) &&
    q.cmdExec == q.rows[i].cmd && q.execTimer && q.rows[i].status == Executing
  }

  lemma ArmingIsLogged(q: Queue, i: nat)
    requires Distinct(q.rows) && i < |q.rows| && q.checkTimer
    ensures Armed(q.rows[i].trn) in Logged(q, CheckTick(false)) <==> Armable(q, i)
    ensures Armable(q, i) ==> HoldsIn(Step(q, CheckTick(false)), i)
  {
    var a := Active(q.rows);
    NextIsActive(q.rows, i);
    if a.Some? && q.rows[a.value].status == Arrived && q.rows[a.value].trn != "" {
      assert Logged(q, CheckTick(false)) == [Armed(q.rows[a.value].trn)];
      assert Logged(q, CheckTick(false))[0] == Armed(q.rows[a.value].trn);
    }
  }

  lemma OthersArmNothing(q: Queue, e: Event, trn: string)
    requires e != CheckTick(false) || !q.checkTimer
    ensures Armed(trn) !in Logged(q, e)
  {
    if e.FromServer? {
      StoringArmsNothing(q, e.orders);
    }
  }

  /** In a reachable state an event puts a command in the slot if and only if it is an idle tick of
      the check timer and the waiting command with the smallest number has one and has just
      arrived; the slot then holds the command's number, account and comment, and its action. */
  lemma ArmsIff(es: seq<Event>, e: Event, i: nat)
    requires i < |Run(NEW_TERMINAL, es).rows|
    ensures
      var q := Run(NEW_TERMINAL, es);
      (Armed(q.rows[i].trn) in Logged(q, e) <==> e == CheckTick(false) && Armable(q, i)) &&
      (Armed(q.rows[i].trn) in Logged(q, e) ==> HoldsIn(Step(q, e), i))
  {
    var q := Run(NEW_TERMINAL, es);
    KeepsRun(NEW_TERMINAL, es);
    if e == CheckTick(false) && q.checkTimer {
      ArmingIsLogged(q, i);
    } else {
      OthersArmNothing(q, e, q.rows[i].trn);
    }
  }

  // ---------------------------------------------------------------- reboots and confirmations

  /** A reboot that is asked for on the terminal is dispatched on the next visit of the main page,
      in place of the action of the command in the slot if there is one. */
  lemma RebootHappens(q: Queue)
    ensures
      var r := Step(Step(q, RebootWanted), ExecTick(true));
      r.log == q.log + [LocalRequest, if q.cmdMeta.Some? then Dispatched(q.cmdMeta.value.trn, REBOOT_TERMINAL)
                                      else DispatchedLocally(REBOOT_TERMINAL)]
  {}

  /** A reply ends the request in flight, and confirms the command that was asked about last exactly
      if it is positive. */
  lemma RepliesIff(q: Queue, e: Event, answered: string, confirmed: string)
    ensures Acknowledged(answered, confirmed) in Logged(q, e) <==>
      e == Replied(true) && q.inFlight == Some(answered) && q.confirmTrn == Some(confirmed)
    ensures e.Replied? && q.confirmTrn.Some? ==> Step(q, e).inFlight.None?
    ensures e == Replied(true) && q.inFlight.Some? && q.confirmTrn.Some? ==>
      Step(q, e).rows == WithStatus(q.rows, q.confirmTrn.value, Confirmed)
    ensures e == Replied(false) ==> Step(q, e).rows == q.rows
  {
    if e.FromServer? {
      StoringArmsNothing(q, e.orders);
    }
    if e == Replied(true) && q.inFlight.Some? && q.confirmTrn.Some? {
      assert Logged(q, e)[0] == Acknowledged(q.inFlight.value, q.confirmTrn.value);
    }
  }

  predicate Askable(q: Queue, i: nat) {
    q.checkTimer && IsNext(q.rows, i) && q.rows[i].status == Executed && q.rows[i].trn != ""
  }

  lemma AskingIsLogged(q: Queue, i: nat, sent: bool)
    requires Distinct(q.rows) && i < |q.rows| && q.checkTimer
    ensures ConfirmationAsked(q.rows[i].trn, sent) in Logged(q, CheckTick(false)) <==>
      Askable(q, i) && sent == q.inFlight.None?
    ensures Askable(q, i) ==> Step(q, CheckTick(false)).rows == WithStatus(q.rows, q.rows[i].trn, Confirming)
  {
    var a := Active(q.rows);
    NextIsActive(q.rows, i);
    if a.Some? && q.rows[a.value].status == Executed && q.rows[a.value].trn != "" {
      assert Logged(q, CheckTick(false)) == [ConfirmationAsked(q.rows[a.value].trn, q.inFlight.None?)];
      assert Logged(q, CheckTick(false))[0] == ConfirmationAsked(q.rows[a.value].trn, q.inFlight.None?);
    }
  }

  lemma OthersAskNothing(q: Queue, e: Event, trn: string, sent: bool)
    requires e != CheckTick(false) || !q.checkTimer
    ensures ConfirmationAsked(trn, sent) in Logged(q, e) <==>
      e == RepeatTimeout && q.confirmTrn == Some(trn) && sent == q.inFlight.None?
  {
    match e
    case FromServer(orders, busy) => StoringArmsNothing(q, orders);
    case RepeatTimeout =>
      if q.confirmTrn.Some? {
        assert Logged(q, e) == [ConfirmationAsked(q.confirmTrn.value, q.inFlight.None?)];
        assert Logged(q, e)[0] == ConfirmationAsked(q.confirmTrn.value, q.inFlight.None?);
      }
    case _ =>
  }

  /** In a reachable state a command is asked about if and only if an idle tick of the check timer
      finds it executed and next, or the latest request is repeated and was about it; the request
      goes out exactly if none is in flight. */
  lemma AsksIff(es: seq<Event>, e: Event, i: nat, sent: bool)
    requires i < |Run(NEW_TERMINAL, es).rows|
    ensures
      var q := Run(NEW_TERMINAL, es);
      ConfirmationAsked(q.rows[i].trn, sent) in Logged(q, e) <==>
        sent == q.inFlight.None? &&
        ((e == CheckTick(false) && Askable(q, i)) || (e == RepeatTimeout && q.confirmTrn == Some(q.rows[i].trn)))
  {
    var q := Run(NEW_TERMINAL, es);
    KeepsRun(NEW_TERMINAL, es);
    if e == CheckTick(false) && q.checkTimer {
      AskingIsLogged(q, i, sent);
    } else {
      OthersAskNothing(q, e, q.rows[i].trn, sent);
    }
  }
}
