/** The cash ledger: payments and collections as two tables, and the statements that the
    payment, collection and cleaning code runs on them. */
module LedgerModel {
  import opened Common

  datatype Operation = Operation(
    trn: int, collect: string, date: int, cash: int, status: int, sent: bool, printed: bool)

  datatype CollectStatus = New | Sent | Confirmed

  datatype Collection = Collection(id: string, date: int, status: CollectStatus, next: Option<string>)

  const CREATED := 54
  const PAID := 55
  const UNKNOWN := 3

  /** What happened: a collection was opened, a payment was booked, amended, selected for
      sending, answered by the server or removed, a collection was confirmed. */
  datatype Entry =
    | Opened(id: string)
    | Booked(trn: int, id: string, cash: int)
    | Amended(trn: int, cash: int)
    | Selected(trn: int)
    | Answered(trn: int, timeGet: string)
    | Closed(id: string)
    | Removed(trn: int, id: string)

  datatype State = State(ops: seq<Operation>, collects: seq<Collection>, firstSend: bool, log: seq<Entry>)

  const EMPTY := State([], [], true, [])

  // ---------------------------------------------------------------- statements on a table

  // An UPDATE is `Mapped` with a change that leaves the rows it does not concern alone.

  /** DELETE of the rows not to keep. */
  function Kept<T>(rows: seq<T>, keep: T -> bool): seq<T> {
    if rows == [] then []
    else
      var n := |rows| - 1;
      Kept(rows[..n], keep) + if keep(rows[n]) then [rows[n]] else []
  }

  /** The first row that is wanted. */
  function First<T>(rows: seq<T>, wanted: T -> bool): (r: Option<T>)
    ensures r.Some? ==> wanted(r.value) && r.value in rows
    ensures r.None? ==> forall x :: x in rows ==> !wanted(x)
  {
    if rows == [] then None else if wanted(rows[0]) then Some(rows[0]) else First(rows[1..], wanted)
  }

  // ---------------------------------------------------------------- payments

  predicate HasTrn(ops: seq<Operation>, trn: int) {
    exists o :: o in ops && o.trn == trn
  }

  /** The collection that counts as current: the first new one, or an empty id. */
  function CurrentId(collects: seq<Collection>): string {
    var c := First(collects, (c: Collection) => c.status == New);
    if c.Some? then c.value.id else ""
  }

  /** `createNewCollection`. */
  function Open(s: State, date: int, uuid: string): State {
    s.(collects := s.collects + [Collection(uuid, date, New, None)], log := s.log + [Opened(uuid)])
  }

  /** `getCollectionId` of payments: opens a collection when none is new. */
  function WithCurrent(s: State, date: int, uuid: string): State {
    if CurrentId(s.collects) == "" then Open(s, date, uuid) else s
  }

  /** `get_new_pay`. */
  function NewPay(s: State, trn: int, cash: int, date: int, uuid: string): State {
    if HasTrn(s.ops, trn) then s
    else
      var t := WithCurrent(s, date, uuid);
      var id := if CurrentId(s.collects) == "" then uuid else CurrentId(s.collects);
      t.(ops := t.ops + [Operation(trn, id, date, cash, CREATED, false, false)],
         log := t.log + [Booked(trn, id, cash)])
  }

  function Amend(trn: int, cash: int, date: int): Operation -> Operation {
    (o: Operation) => if o.trn == trn then o.(cash := cash, date := date) else o
  }

  /** `get_update_pay`. */
  function UpdatePay(s: State, trn: int, cash: int, date: int): State {
    s.(ops := Mapped(s.ops, Amend(trn, cash, date)), log := s.log + [Amended(trn, cash)])
  }

  function MarkPrinted(trn: int): Operation -> Operation {
    (o: Operation) => if o.trn == trn then o.(printed := true) else o
  }

  function MarkPaid(trn: int): Operation -> Operation {
    (o: Operation) => if o.trn == trn && o.status == CREATED then o.(status := PAID) else o
  }

  function MarkAllPaid(): Operation -> Operation {
    (o: Operation) => if o.status == CREATED || o.status == UNKNOWN then o.(status := PAID) else o
  }

  /** `sendPaymentToServer`: on the first request unfinished payments become due; the first
      payment that is due is selected. */
  function Send(s: State): State {
    var ops := if s.firstSend then Mapped(s.ops, MarkAllPaid()) else s.ops;
    var due := First(ops, (o: Operation) => o.status == PAID);
    s.(ops := ops, firstSend := false, log := if due.Some? then s.log + [Selected(due.value.trn)] else s.log)
  }

  /** `get_confirm_pay`. */
  function ConfirmPay(s: State, trn: int, printing: bool): State {
    if printing then s.(ops := Mapped(s.ops, MarkPrinted(trn)))
    else Send(s.(ops := Mapped(s.ops, MarkPaid(trn))))
  }

  /** `checkPayStatus54`. */
  function CheckUnconfirmed(s: State): State {
    s.(ops := Mapped(s.ops, MarkAllPaid()))
  }

  const NOT_RECEIVED := "0"

  function MarkAnswered(trn: int, status: int, timeGet: string): Operation -> Operation {
    (o: Operation) => if o.trn == trn then o.(status := status, sent := o.sent || timeGet != NOT_RECEIVED) else o
  }

  /** `updateOperationStatus`. */
  function Answer(s: State, trn: int, status: int, timeGet: string): State {
    s.(ops := Mapped(s.ops, MarkAnswered(trn, status, timeGet)), log := s.log + [Answered(trn, timeGet)])
  }

  // ---------------------------------------------------------------- collections

  /** A registration opens the first collection. */
  function Register(s: State, date: int, uuid: string): State {
    if forall c :: c in s.collects ==> c.status != New then Open(s, date, uuid) else s
  }

  predicate HasOperations(ops: seq<Operation>, id: string) {
    exists o :: o in ops && o.collect == id
  }

  /** The collection an encashment is about: the one named, or the current one. */
  function Target(s: State, cid: string): string {
    if cid == "" then CurrentId(s.collects) else cid
  }

  function MarkSent(id: string, date: int, uuid: string): Collection -> Collection {
    (c: Collection) => if c.id == id then c.(date := date, status := Sent, next := Some(uuid)) else c
  }

  /** `getCheckText` as an encashment, and `sendCollection`. */
  function Encash(s: State, cid: string, date: int, uuid: string): State {
    var id := Target(s, cid);
    if !HasOperations(s.ops, id) then s
    else Open(s.(collects := Mapped(s.collects, MarkSent(id, date, uuid))), date, uuid)
  }

  function MarkConfirmed(id: string): Collection -> Collection {
    (c: Collection) => if c.id == id then c.(status := Confirmed) else c
  }

  /** `confirm_Collection`. */
  function ConfirmCollection(s: State, id: string): State {
    s.(collects := Mapped(s.collects, MarkConfirmed(id)), log := s.log + [Closed(id)])
  }

  /** `getDatePrevCollection`. */
  function PreviousDate(collects: seq<Collection>, id: string): Option<int> {
    var c := First(collects, (c: Collection) => c.next == Some(id));
    if c.Some? then Some(c.value.date) else None
  }

  // ---------------------------------------------------------------- cleaning

  predicate IsConfirmed(collects: seq<Collection>, id: string) {
    exists c :: c in collects && c.id == id && c.status == Confirmed
  }

  predicate Settled(collects: seq<Collection>, from: int, to: int, o: Operation) {
    o.sent && from <= o.date <= to && IsConfirmed(collects, o.collect)
  }

  function Removals(ops: seq<Operation>, gone: Operation -> bool): seq<Entry> {
    if ops == [] then []
    else
      var n := |ops| - 1;
      Removals(ops[..n], gone) + if gone(ops[n]) then [Removed(ops[n].trn, ops[n].collect)] else []
  }

  /** `clearDataBase`. */
  function Clear(s: State, from: int, to: int): State {
    s.(ops := Kept(s.ops, (o: Operation) => !Settled(s.collects, from, to, o)),
       collects := Kept(s.collects, (c: Collection) => !(c.status == Confirmed && from <= c.date <= to)),
       log := s.log + Removals(s.ops, (o: Operation) => Settled(s.collects, from, to, o)))
  }

  // ---------------------------------------------------------------- runs

  datatype Event =
    | Registration(date: int, uuid: string)
    | Payment(trn: int, cash: int, date: int, uuid: string)
    | Amendment(trn: int, cash: int, date: int)
    | Confirmation(trn: int, printing: bool)
    | UnconfirmedCheck
    | SendTimeout
    | BalanceKnown
    | ServerAnswer(trn: int, status: int, timeGet: string)
    | Encashment(cid: string, date: int, uuid: string)
    | CollectionAnswer(id: string)
    | Cleaning(from: int, to: int)
    | Restart

  function Step(s: State, e: Event): State {
    match e
    case Registration(date, uuid) => Register(s, date, uuid)
    case Payment(trn, cash, date, uuid) => NewPay(s, trn, cash, date, uuid)
    case Amendment(trn, cash, date) => UpdatePay(s, trn, cash, date)
    case Confirmation(trn, printing) => ConfirmPay(s, trn, printing)
    case UnconfirmedCheck => CheckUnconfirmed(s)
    case SendTimeout => Send(s)
    case BalanceKnown => s.(firstSend := false)
    case ServerAnswer(trn, status, timeGet) => Answer(s, trn, status, timeGet)
    case Encashment(cid, date, uuid) => Encash(s, cid, date, uuid)
    case CollectionAnswer(id) => ConfirmCollection(s, id)
    case Cleaning(from, to) => Clear(s, from, to)
    case Restart => s.(firstSend := true)
  }

  function Run(s: State, es: seq<Event>): State
    decreases |es|
  {
    if es == [] then s else Step(Run(s, es[..|es| - 1]), es[|es| - 1])
  }
}

/** The statements as the payment and collection objects run them on the shared tables. */
module LedgerHandlers {
  import opened Common
  import opened LedgerModel

  class Ledger {
    var operations: seq<Operation>
    var collections: seq<Collection>
    var firstSend: bool
    ghost var log: seq<Entry>

    ghost function Now(): State
      reads this
    {
      State(operations, collections, firstSend, log)
    }

    constructor ()
      ensures Now() == EMPTY
    {
      operations, collections, firstSend, log := [], [], true, [];
    }

    method CreateNewCollection(id: string, date: int)
      modifies this`collections, this`log
      ensures Now() == Open(old(Now()), date, id)
    {
      collections := collections + [Collection(id, date, New, None)];
      log := log + [Opened(id)];
    }

    method GetCollectionId(date: int, uuid: string) returns (collectId: string)
      modifies this`collections, this`log
      ensures Now() == WithCurrent(old(Now()), date, uuid)
      ensures collectId == if CurrentId(old(collections)) == "" then uuid else CurrentId(old(collections))
    {
      collectId := CurrentId(collections);
      if collectId == "" {
        CreateNewCollection(uuid, date);
        collectId := uuid;
      }
    }

    method GetNewPay(trn: int, cash: int, date: int, uuid: string)
      modifies this
      ensures Now() == NewPay(old(Now()), trn, cash, date, uuid)
    {
      if HasTrn(operations, trn) {
        return;
      }
      var collectionId := GetCollectionId(date, uuid);
      operations := operations + [Operation(trn, collectionId, date, cash, CREATED, false, false)];
      log := log + [Booked(trn, collectionId, cash)];
    }

    method GetUpdatePay(trn: int, cash: int, date: int)
      modifies this`operations, this`log
      ensures Now() == UpdatePay(old(Now()), trn, cash, date)
    {
      log := log + [Amended(trn, cash)];
      operations := Mapped(operations, Amend(trn, cash, date));
    }

    method ConfirmPayments()
      modifies this`operations
      ensures operations == Mapped(old(operations), MarkAllPaid())
    {
      operations := Mapped(operations, MarkAllPaid());
    }

    method SendPaymentToServer() returns (payment: Option<Operation>)
      modifies this
      ensures Now() == Send(old(Now()))
      ensures payment == First(operations, (o: Operation) => o.status == PAID)
    {
      if firstSend {
        ConfirmPayments();
        firstSend := false;
      }
      payment := First(operations, (o: Operation) => o.status == PAID);
      if payment.Some? {
        log := log + [Selected(payment.value.trn)];
      }
    }

    method GetConfirmPay(trn: int, printing: bool)
      modifies this
      ensures Now() == ConfirmPay(old(Now()), trn, printing)
    {
      if printing {
        operations := Mapped(operations, MarkPrinted(trn));
      } else {
        operations := Mapped(operations, MarkPaid(trn));
        var _ := SendPaymentToServer();
      }
    }

    method CheckPayStatus54()
      modifies this`operations
      ensures Now() == CheckUnconfirmed(old(Now()))
    {
      if exists o :: o in operations && (o.status == CREATED || o.status == UNKNOWN) {
        ConfirmPayments();
      } else {
        assert Mapped(operations, MarkAllPaid()) == operations;
      }
    }

    method UpdateOperationStatus(trn: int, status: int, timeGet: string)
      modifies this`operations, this`log
      ensures Now() == Answer(old(Now()), trn, status, timeGet)
    {
      operations := Mapped(operations, MarkAnswered(trn, status, timeGet));
      log := log + [Answered(trn, timeGet)];
    }

    method Registered(date: int, uuid: string)
      modifies this
      ensures Now() == Register(old(Now()), date, uuid)
    {
      if forall c :: c in collections ==> c.status != New {
        CreateNewCollection(uuid, date);
      }
    }

    /** The row of the collection takes the date and names its successor, no other row changes,
        and the successor is added as the new collection. */
    method SendCollection(id: string, date: int, uuid: string)
      modifies this`collections, this`log
      ensures |collections| == |old(collections)| + 1
      ensures collections[|old(collections)|] == Collection(uuid, date, New, None)
      ensures forall i :: 0 <= i < |old(collections)| && old(collections)[i].id == id ==>
        collections[i] == Collection(id, date, Sent, Some(uuid))
      ensures forall i :: 0 <= i < |old(collections)| && old(collections)[i].id != id ==>
        collections[i] == old(collections)[i]
      ensures log == old(log) + [Opened(uuid)]
    {
      collections := Mapped(collections, MarkSent(id, date, uuid));
      CreateNewCollection(uuid, date);
    }

    /** `getCheckText` without its receipt text, for an encashment. */
    method EncashNow(cid: string, date: int, uuid: string) returns (done: bool)
      modifies this
      ensures Now() == Encash(old(Now()), cid, date, uuid)
      ensures done == HasOperations(old(operations), Target(old(Now()), cid))
    {
      var id := cid;
      if cid == "" {
        id := CurrentId(collections);
      }
      if !HasOperations(operations, id) {
        return false;
      }
      SendCollection(id, date, uuid);
      assert collections == Encash(old(Now()), cid, date, uuid).collects;
      return true;
    }

    method ConfirmSentCollection(id: string)
      modifies this`collections, this`log
      ensures Now() == ConfirmCollection(old(Now()), id)
    {
      collections := Mapped(collections, MarkConfirmed(id));
      log := log + [Closed(id)];
    }

    /** First the payments, while their collections are still there, and then the collections. */
    method ClearDataBase(from: int, to: int)
      modifies this
      ensures Now() == Clear(old(Now()), from, to)
    {
      ghost var before := collections;
      log := log + Removals(operations, (o: Operation) => Settled(before, from, to, o));
      var current := collections;
      operations := Kept(operations, (o: Operation) => !Settled(current, from, to, o));
      collections := Kept(collections, (c: Collection) => !(c.status == Confirmed && from <= c.date <= to));
    }

    method OnEvent(e: Event)
      modifies this
      ensures Now() == Step(old(Now()), e)
    {
      match e
      case Registration(date, uuid) => Registered(date, uuid);
      case Payment(trn, cash, date, uuid) => GetNewPay(trn, cash, date, uuid);
      case Amendment(trn, cash, date) => GetUpdatePay(trn, cash, date);
      case Confirmation(trn, printing) => GetConfirmPay(trn, printing);
      case UnconfirmedCheck => CheckPayStatus54();
      case SendTimeout => var _ := SendPaymentToServer();
      case BalanceKnown => firstSend := false;
      case ServerAnswer(trn, status, timeGet) => UpdateOperationStatus(trn, status, timeGet);
      case Encashment(cid, date, uuid) => var _ := EncashNow(cid, date, uuid);
      case CollectionAnswer(id) => ConfirmSentCollection(id);
      case Cleaning(from, to) => ClearDataBase(from, to);
      case Restart => firstSend := true;
    }
  }
}
