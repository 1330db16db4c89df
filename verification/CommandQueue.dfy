/** The queue of commands a terminal receives from its server: a table of commands with a
    persistent status, an in-memory slot for the one command about to run, a try counter
    and two timers. */
module CommandModel {
  import opened Common

  datatype Status = Arrived | Executing | Executed | Confirming | Confirmed

  datatype Row = Row(trn: string, cmd: int, account: string, comment: string, status: Status)

  datatype Order = Order(trn: string, cmd: int, account: string, comment: string)

  const REBOOT_TERMINAL := 0
  const MAX_TRIES := 15

  /** What happened: a command was stored, a command was put in the slot, a local request
      took the slot's action over, an action was dispatched for a command or for none, a
      confirmation was asked for and the request sent or dropped, a positive reply to the
      request for one command confirmed one. */
  datatype Entry =
    | Stored(trn: string, cmd: int)
    | Armed(trn: string)
    | LocalRequest
    | Dispatched(trn: string, action: int)
    | DispatchedLocally(action: int)
    | ConfirmationAsked(trn: string, sent: bool)
    | Acknowledged(answered: string, confirmed: string)
    | Restarted

  datatype Slot = Slot(trn: string, account: string, comment: string)

  datatype Queue = Queue(
    rows: seq<Row>,
    cmdExec: int,
    cmdMeta: Option<Slot>,
    tryCount: nat,
    checkTimer: bool,
    execTimer: bool,
    confirmTrn: Option<string>,
    inFlight: Option<string>,
    log: seq<Entry>)
  {
    function Note(e: Entry): Queue {
      this.(log := log + [e])
    }
  }

  predicate Exists(rows: seq<Row>, trn: string) {
    exists i :: 0 <= i < |rows| && rows[i].trn == trn
  }

  /** `UPDATE ... SET status WHERE trn`. */
  function WithStatus(rows: seq<Row>, trn: string, status: Status): (r: seq<Row>)
    ensures |r| == |rows|
    ensures forall i :: 0 <= i < |rows| ==>
      r[i] == if rows[i].trn == trn then rows[i].(status := status) else rows[i]
  {
    seq(|rows|, i requires 0 <= i < |rows| =>
      if rows[i].trn == trn then rows[i].(status := status) else rows[i])
  }

  // The order of a text column.
  predicate Less(a: string, b: string) {
    b != [] && (a == [] || a[0] < b[0] || (a[0] == b[0] && Less(a[1..], b[1..])))
  }

  /** `SELECT ... WHERE status != 'confirmed' ORDER BY trn LIMIT 1`. */
  function Active(rows: seq<Row>): (r: Option<nat>)
    ensures r.Some? ==> r.value < |rows| && rows[r.value].status != Confirmed
  {
    if rows == [] then None
    else
      var n := |rows| - 1;
      var before := Active(rows[..n]);
      if rows[n].status == Confirmed then before
      else if before.Some? && !Less(rows[n].trn, rows[before.value].trn) then before
      else Some(n)
  }

  // ---------------------------------------------------------------- the handlers

  function StoreOne(q: Queue, o: Order): Queue {
    if Exists(q.rows, o.trn) then q
    else q.(rows := q.rows + [Row(o.trn, o.cmd, o.account, o.comment, Arrived)]).Note(Stored(o.trn, o.cmd))
  }

  function StoreAll(q: Queue, orders: seq<Order>): Queue
    decreases |orders|
  {
    if orders == [] then q else StoreAll(StoreOne(q, orders[0]), orders[1..])
  }

  /** `getCommandFrom_Server`. */
  function Receive(q: Queue, orders: seq<Order>, busy: bool): Queue {
    if busy then q
    else
      var r := StoreAll(q, orders);
      if |r.rows| == |q.rows| then r else r.(checkTimer := true)
  }

  function Arm(q: Queue, i: nat): Queue
    requires i < |q.rows|
  {
    var r := q.rows[i];
    q.(tryCount := 0,
       rows := WithStatus(q.rows, r.trn, Executing),
       cmdExec := r.cmd,
       cmdMeta := Some(Slot(r.trn, r.account, r.comment)),
       execTimer := true).Note(Armed(r.trn))
  }

  function CountTry(q: Queue, i: nat): Queue
    requires i < |q.rows|
  {
    var r := q.rows[i];
    if q.tryCount + 1 < MAX_TRIES then q.(tryCount := q.tryCount + 1)
    else q.(tryCount := 0,
            rows := WithStatus(q.rows, r.trn, if r.status == Executing then Arrived else Executed))
  }

  /** `sendCommandConfirm`: the transaction is kept in any case, but the request is dropped while
      another one is in flight. */
  function SendConfirmation(q: Queue, trn: string): Queue {
    q.(confirmTrn := Some(trn), inFlight := if q.inFlight.Some? then q.inFlight else Some(trn))
     .Note(ConfirmationAsked(trn, q.inFlight.None?))
  }

  function AskConfirmation(q: Queue, i: nat): Queue
    requires i < |q.rows|
  {
    var r := q.rows[i];
    SendConfirmation(q.(rows := WithStatus(q.rows, r.trn, Confirming)), r.trn)
  }

  /** `commandCheck`: a command without a transaction number reads like no command. */
  function Check(q: Queue, busy: bool): Queue {
    if busy then q
    else
      var a := Active(q.rows);
      if a.None? || q.rows[a.value].trn == "" then q.(checkTimer := false)
      else match q.rows[a.value].status
        case Arrived => Arm(q, a.value)
        case Executing => CountTry(q, a.value)
        case Confirming => CountTry(q, a.value)
        case Executed => AskConfirmation(q, a.value)
        case Confirmed => q
  }

  /** `commandExecute` and the dispatch in `commandExecution`. */
  function Execute(q: Queue, onMainPage: bool): Queue {
    if !onMainPage then q
    else if q.cmdMeta.Some? then
      var trn := q.cmdMeta.value.trn;
      q.(execTimer := false, cmdMeta := None, rows := WithStatus(q.rows, trn, Executed))
       .Note(Dispatched(trn, q.cmdExec))
    else
      q.(execTimer := false).Note(DispatchedLocally(q.cmdExec))
  }

  /** The request in flight ends. A positive reply names no command, so the one asked for last
      is confirmed. */
  function ConfirmReply(q: Queue, positive: bool): Queue {
    if q.inFlight.None? || q.confirmTrn.None? then q
    else if !positive then q.(inFlight := None)
    else q.(inFlight := None, rows := WithStatus(q.rows, q.confirmTrn.value, Confirmed))
          .Note(Acknowledged(q.inFlight.value, q.confirmTrn.value))
  }

  /** `sendRequestRepeat`: after an error the latest request is sent again. */
  function RepeatConfirmation(q: Queue): Queue {
    if q.confirmTrn.None? then q else SendConfirmation(q, q.confirmTrn.value)
  }

  /** A reboot decided on the terminal: the action is replaced, the slot is not. */
  function LocalReboot(q: Queue): Queue {
    q.(cmdExec := REBOOT_TERMINAL, execTimer := true).Note(LocalRequest)
  }

  function Unconfirmed(rows: seq<Row>): seq<Row> {
    if rows == [] then []
    else Unconfirmed(rows[..|rows| - 1]) + if rows[|rows| - 1].status == Confirmed then [] else [rows[|rows| - 1]]
  }

  /** The program starts again: what was in memory is gone and confirmed rows are deleted. */
  function Restart(q: Queue): Queue {
    Queue(Unconfirmed(q.rows), REBOOT_TERMINAL, None, 0, true, false, None, None, q.log + [Restarted])
  }

  datatype Event =
    | FromServer(orders: seq<Order>, busy: bool)
    | CheckTick(busy: bool)
    | ExecTick(onMainPage: bool)
    | Replied(positive: bool)
    | RepeatTimeout
    | RebootWanted
    | ProgramRestart

  function Step(q: Queue, e: Event): Queue {
    match e
    case FromServer(orders, busy) => Receive(q, orders, busy)
    case CheckTick(busy) => if q.checkTimer then Check(q, busy) else q
    case ExecTick(onMainPage) => if q.execTimer then Execute(q, onMainPage) else q
    case Replied(positive) => ConfirmReply(q, positive)
    case RepeatTimeout => RepeatConfirmation(q)
    case RebootWanted => LocalReboot(q)
    case ProgramRestart => Restart(q)
  }

  function Run(q: Queue, es: seq<Event>): Queue
    decreases |es|
  {
    if es == [] then q else Run(Step(q, es[0]), es[1..])
  }

  /** A terminal with an empty command table. */
  const NEW_TERMINAL := Queue([], REBOOT_TERMINAL, None, 0, true, false, None, None, [])
}

/** The handlers as they update the queue in place. */
module CommandHandlers {
  import opened Common
  import opened CommandModel

  class CommandQueue {
    var rows: seq<Row>
    var cmdExec: int
    var cmdMeta: Option<Slot>
    var cmdTryCount: nat
    var checkTimer: bool
    var execTimer: bool
    var confirmTrn: Option<string>
    var inFlight: Option<string>
    var log: seq<Entry>

    function State(): Queue
      reads this
    {
      Queue(rows, cmdExec, cmdMeta, cmdTryCount, checkTimer, execTimer, confirmTrn, inFlight, log)
    }

    constructor ()
      ensures State() == NEW_TERMINAL
    {
      rows, cmdExec, cmdMeta, cmdTryCount := [], REBOOT_TERMINAL, None, 0;
      checkTimer, execTimer, confirmTrn, inFlight, log := true, false, None, None, [];
    }

    method SaveCommand(o: Order) returns (saved: bool)
      modifies this`rows, this`log
      ensures State() == StoreOne(old(State()), o)
      ensures saved <==> |rows| == |old(rows)| + 1
      ensures !saved <==> |rows| == |old(rows)|
    {
      saved := !Exists(rows, o.trn);
      if saved {
        rows := rows + [Row(o.trn, o.cmd, o.account, o.comment, Arrived)];
        log := log + [Stored(o.trn, o.cmd)];
      }
    }

    method GetCommandFromServer(cmdList: seq<Order>, busy: bool)
      modifies this`rows, this`log, this`checkTimer
      ensures State() == Receive(old(State()), cmdList, busy)
    {
      if busy {
        return;
      }
      var cmdCount := 0;
      for i := 0 to |cmdList|
        invariant cmdCount == |rows| - |old(rows)|
        invariant checkTimer == old(checkTimer)
        invariant StoreAll(State(), cmdList[i..]) == StoreAll(old(State()), cmdList)
      {
        assert cmdList[i..][1..] == cmdList[i + 1..];
        var saved := SaveCommand(cmdList[i]);
        if saved {
          cmdCount := cmdCount + 1;
        }
      }
      assert cmdList[|cmdList|..] == [];
      if cmdCount == 0 {
        return;
      }
      if !checkTimer {
        checkTimer := true;
      }
    }

    method CommandStatusUpdate(trn: string, status: Status)
      modifies this`rows
      ensures rows == WithStatus(old(rows), trn, status)
    {
      rows := WithStatus(rows, trn, status);
    }

    method SendCommandConfirm(trn: string)
      modifies this`confirmTrn, this`inFlight, this`log
      ensures State() == SendConfirmation(old(State()), trn)
    {
      confirmTrn := Some(trn);
      log := log + [ConfirmationAsked(trn, inFlight.None?)];
      if inFlight.None? {
        inFlight := Some(trn);
      }
    }

    method CommandCheck(busy: bool)
      modifies this
      ensures State() == Check(old(State()), busy)
    {
      if busy {
        return;
      }
      var active := Active(rows);
      if active.None? || rows[active.value].trn == "" {
        checkTimer := false;
        return;
      }
      var row := rows[active.value];
      if row.status == Arrived {
        cmdTryCount := 0;
        CommandStatusUpdate(row.trn, Executing);
        cmdExec := row.cmd;
        cmdMeta := Some(Slot(row.trn, row.account, row.comment));
        execTimer := true;
        log := log + [Armed(row.trn)];
      } else if row.status == Executing || row.status == Confirming {
        cmdTryCount := cmdTryCount + 1;
        if cmdTryCount >= MAX_TRIES {
          cmdTryCount := 0;
          if row.status == Executing {
            CommandStatusUpdate(row.trn, Arrived);
          } else if row.status == Confirming {
            CommandStatusUpdate(row.trn, Executed);
          }
        }
        return;
      } else if row.status == Executed {
        CommandStatusUpdate(row.trn, Confirming);
        SendCommandConfirm(row.trn);
      }
    }

    /** The switch of `commandExecution`, without what the actions themselves do. */
    method CommandExecution(cmd: int, meta: Option<Slot>)
      modifies this`execTimer, this`rows, this`log
      ensures !execTimer
      ensures meta.Some? ==> rows == WithStatus(old(rows), meta.value.trn, Executed)
      ensures meta.None? ==> rows == old(rows)
      ensures log == old(log) + [if meta.Some? then Dispatched(meta.value.trn, cmd) else DispatchedLocally(cmd)]
    {
      execTimer := false;
      log := log + [if meta.Some? then Dispatched(meta.value.trn, cmd) else DispatchedLocally(cmd)];
      if meta.Some? {
        CommandStatusUpdate(meta.value.trn, Executed);
      }
    }

    method CommandExecute(onMainPage: bool)
      modifies this`execTimer, this`rows, this`log, this`cmdMeta
      ensures State() == Execute(old(State()), onMainPage)
    {
      if onMainPage {
        CommandExecution(cmdExec, cmdMeta);
        cmdMeta := None;
      }
    }

    method CommandConfirmed(positive: bool)
      modifies this`rows, this`inFlight, this`log
      ensures State() == ConfirmReply(old(State()), positive)
    {
      if inFlight.Some? && confirmTrn.Some? {
        if positive {
          log := log + [Acknowledged(inFlight.value, confirmTrn.value)];
          CommandStatusUpdate(confirmTrn.value, Confirmed);
        }
        inFlight := None;
      }
    }

    method SendRequestRepeat()
      modifies this`confirmTrn, this`inFlight, this`log
      ensures State() == RepeatConfirmation(old(State()))
    {
      if confirmTrn.Some? {
        SendCommandConfirm(confirmTrn.value);
      }
    }

    method RestartTerminalInit()
      modifies this`cmdExec, this`execTimer, this`log
      ensures State() == LocalReboot(old(State()))
    {
      cmdExec := REBOOT_TERMINAL;
      execTimer := true;
      log := log + [LocalRequest];
    }

    /** The event loop. */
    method OnEvent(e: Event)
      modifies this
      ensures State() == Step(old(State()), e)
    {
      match e {
        case FromServer(orders, busy) => GetCommandFromServer(orders, busy);
        case CheckTick(busy) => if checkTimer { CommandCheck(busy); }
        case ExecTick(onMainPage) => if execTimer { CommandExecute(onMainPage); }
        case Replied(positive) => CommandConfirmed(positive);
        case RepeatTimeout => SendRequestRepeat();
        case RebootWanted => RestartTerminalInit();
        case ProgramRestart =>
          rows, cmdExec, cmdMeta, cmdTryCount := Unconfirmed(rows), REBOOT_TERMINAL, None, 0;
          checkTimer, execTimer, confirmTrn, inFlight, log := true, false, None, None, log + [Restarted];
      }
    }
  }
}
