/** What the ledger keeps over every run. */
module LedgerSafety {
  import opened Common
  import opened LedgerModel

  // ---------------------------------------------------------------- tables in general

  ghost predicate Pairwise<T>(rows: seq<T>, apart: (T, T) -> bool) {
    forall i, j :: 0 <= i < j < |rows| ==> apart(rows[i], rows[j])
  }

  lemma PairwiseUpdated<T>(rows: seq<T>, change: T -> T, apart: (T, T) -> bool)
    requires Pairwise(rows, apart)
    requires forall x, y :: x in rows && y in rows && apart(x, y) ==> apart(change(x), change(y))
    ensures Pairwise(Mapped(rows, change), apart)
  {}

  lemma PairwiseAppended<T>(rows: seq<T>, row: T, apart: (T, T) -> bool)
    requires Pairwise(rows, apart) && forall x :: x in rows ==> apart(x, row)
    ensures Pairwise(rows + [row], apart)
  {}

  lemma {:induction false} KeptIs<T>(rows: seq<T>, keep: T -> bool)
    ensures forall x :: x in Kept(rows, keep) ==> x in rows && keep(x)
    ensures forall x :: x in rows && keep(x) ==> x in Kept(rows, keep)
  {
    if rows == [] {
    } else {
      KeptIs(rows[..|rows| - 1], keep);
      assert rows == rows[..|rows| - 1] + [rows[|rows| - 1]];
    }
  }

  lemma {:induction false} PairwiseKept<T>(rows: seq<T>, keep: T -> bool, apart: (T, T) -> bool)
    requires Pairwise(rows, apart)
    ensures Pairwise(Kept(rows, keep), apart)
  {
    if rows == [] {
    } else {
      var n := |rows| - 1;
      PairwiseKept(rows[..n], keep, apart);
      KeptIs(rows[..n], keep);
      if keep(rows[n]) {
        PairwiseAppended(Kept(rows[..n], keep), rows[n], apart);
      } else {
        assert Kept(rows, keep) == Kept(rows[..n], keep);
      }
    }
  }

  lemma UpdatedHas<A, B>(rows: seq<A>, change: A -> B)
    ensures forall x :: x in rows ==> change(x) in Mapped(rows, change)
    ensures forall y :: y in Mapped(rows, change) ==> exists x :: x in rows && y == change(x)
  {
    forall x | x in rows ensures change(x) in Mapped(rows, change) {
      var i :| 0 <= i < |rows| && rows[i] == x;
      assert Mapped(rows, change)[i] == change(x);
    }
  }

  // ---------------------------------------------------------------- transactions

  predicate OtherTrn(a: Operation, b: Operation) {
    a.trn != b.trn
  }

  ghost predicate UniqueTrns(s: State) {
    Pairwise(s.ops, OtherTrn)
  }

  /** No two payments share a transaction, whatever happens. */
  lemma TrnsStayUnique(s: State, e: Event)
    requires UniqueTrns(s)
    ensures UniqueTrns(Step(s, e))
  {
    match e
    case Payment(trn, cash, date, uuid) =>
      if !HasTrn(s.ops, trn) {
        PairwiseAppended(s.ops, NewPay(s, trn, cash, date, uuid).ops[|s.ops|], OtherTrn);
      }
    case Amendment(trn, cash, date) => PairwiseUpdated(s.ops, Amend(trn, cash, date), OtherTrn);
    case Confirmation(trn, printing) =>
      if printing {
        PairwiseUpdated(s.ops, MarkPrinted(trn), OtherTrn);
      } else {
        PairwiseUpdated(s.ops, MarkPaid(trn), OtherTrn);
        PairwiseUpdated(Mapped(s.ops, MarkPaid(trn)), MarkAllPaid(), OtherTrn);
      }
    case UnconfirmedCheck => PairwiseUpdated(s.ops, MarkAllPaid(), OtherTrn);
    case SendTimeout => PairwiseUpdated(s.ops, MarkAllPaid(), OtherTrn);
    case ServerAnswer(trn, status, timeGet) => PairwiseUpdated(s.ops, MarkAnswered(trn, status, timeGet), OtherTrn);
    case Cleaning(from, to) => PairwiseKept(s.ops, (o: Operation) => !Settled(s.collects, from, to, o), OtherTrn);
    case _ =>
  }

  lemma {:induction false} TrnsAreUnique(es: seq<Event>)
    ensures UniqueTrns(Run(EMPTY, es))
    decreases |es|
  {
    if es == [] {
    } else {
      TrnsAreUnique(es[..|es| - 1]);
      TrnsStayUnique(Run(EMPTY, es[..|es| - 1]), es[|es| - 1]);
    }
  }

  // ---------------------------------------------------------------- an answered payment is quiet

  predicate AllHave(ops: seq<Operation>, trn: int, status: int) {
    forall o :: o in ops && o.trn == trn ==> o.status == status
  }

  predicate Final(status: int) {
    status != UNKNOWN && status != CREATED && status != PAID
  }

  function Selections(log: seq<Entry>, trn: int): nat {
    if log == [] then 0 else Selections(log[..|log| - 1], trn) + if log[|log| - 1] == Selected(trn) then 1 else 0
  }

  lemma {:induction false} SelectionsAppend(a: seq<Entry>, b: seq<Entry>, trn: int)
    ensures Selections(a + b, trn) == Selections(a, trn) + Selections(b, trn)
  {
    if b == [] {
      assert a + b == a;
    } else {
      SelectionsAppend(a, b[..|b| - 1], trn);
      assert (a + b)[..|a + b| - 1] == a + b[..|b| - 1];
    }
  }

  lemma {:induction false} NoneSelected(log: seq<Entry>, trn: int)
    requires Selected(trn) !in log
    ensures Selections(log, trn) == 0
  {
    if log == [] {
    } else {
      NoneSelected(log[..|log| - 1], trn);
    }
  }

  lemma StatusKept(ops: seq<Operation>, change: Operation -> Operation, trn: int, status: int)
    requires AllHave(ops, trn, status)
    requires forall o: Operation :: change(o).trn == o.trn
    requires forall o: Operation :: o.trn == trn && o.status == status ==> change(o).status == status
    ensures AllHave(Mapped(ops, change), trn, status)
  {
    UpdatedHas(ops, change);
  }

  lemma {:induction false} RemovalsAre(ops: seq<Operation>, gone: Operation -> bool)
    ensures forall x :: x in Removals(ops, gone) <==>
      exists o :: o in ops && gone(o) && x == Removed(o.trn, o.collect)
  {
    if ops == [] {
    } else {
      RemovalsAre(ops[..|ops| - 1], gone);
      assert ops == ops[..|ops| - 1] + [ops[|ops| - 1]];
    }
  }

  lemma QuietSend(s: State, trn: int, status: int)
    requires AllHave(s.ops, trn, status) && Final(status)
    ensures AllHave(Send(s).ops, trn, status) && Selections(Send(s).log, trn) == Selections(s.log, trn)
  {
    StatusKept(s.ops, MarkAllPaid(), trn, status);
    var r := Send(s);
    var due := First(r.ops, (o: Operation) => o.status == PAID);
    if due.Some? {
      SelectionsAppend(s.log, [Selected(due.value.trn)], trn);
      NoneSelected([Selected(due.value.trn)], trn);
    }
  }

  lemma QuietLog(s: State, e: Event, more: seq<Entry>, trn: int)
    requires Step(s, e).log == s.log + more && Selected(trn) !in more
    ensures Selections(Step(s, e).log, trn) == Selections(s.log, trn)
  {
    SelectionsAppend(s.log, more, trn);
    NoneSelected(more, trn);
  }

  lemma QuietStep(s: State, e: Event, trn: int, status: int)
    requires HasTrn(s.ops, trn) && AllHave(s.ops, trn, status) && Final(status)
    requires !(e.ServerAnswer? && e.trn == trn)
    ensures AllHave(Step(s, e).ops, trn, status)
    ensures Selections(Step(s, e).log, trn) == Selections(s.log, trn)
  {
    match e
    case Registration(date, uuid) =>
      var more := if Step(s, e).log == s.log then [] else [Opened(uuid)];
      QuietLog(s, e, more, trn);
    case Payment(t, cash, date, uuid) =>
      QuietPayment(s, t, cash, date, uuid, trn);
    case Amendment(t, cash, date) =>
      StatusKept(s.ops, Amend(t, cash, date), trn, status);
      QuietLog(s, e, [Amended(t, cash)], trn);
    case Confirmation(t, printing) =>
      if printing {
        StatusKept(s.ops, MarkPrinted(t), trn, status);
      } else {
        StatusKept(s.ops, MarkPaid(t), trn, status);
        QuietSend(s.(ops := Mapped(s.ops, MarkPaid(t))), trn, status);
      }
    case UnconfirmedCheck => StatusKept(s.ops, MarkAllPaid(), trn, status);
    case SendTimeout => QuietSend(s, trn, status);
    case BalanceKnown =>
    case ServerAnswer(t, st, timeGet) =>
      StatusKept(s.ops, MarkAnswered(t, st, timeGet), trn, status);
      QuietLog(s, e, [Answered(t, timeGet)], trn);
    case Encashment(cid, date, uuid) =>
      var more := if HasOperations(s.ops, Target(s, cid)) then [Opened(uuid)] else [];
      QuietLog(s, e, more, trn);
    case CollectionAnswer(id) => QuietLog(s, e, [Closed(id)], trn);
    case Cleaning(from, to) =>
      KeptIs(s.ops, (o: Operation) => !Settled(s.collects, from, to, o));
      RemovalsAre(s.ops, (o: Operation) => Settled(s.collects, from, to, o));
      QuietLog(s, e, Removals(s.ops, (o: Operation) => Settled(s.collects, from, to, o)), trn);
    case Restart =>
  }

  lemma QuietPayment(s: State, t: int, cash: int, date: int, uuid: string, trn: int)
    requires HasTrn(s.ops, trn)
    ensures forall o :: o in NewPay(s, t, cash, date, uuid).ops && o.trn == trn ==> o in s.ops
    ensures Selections(NewPay(s, t, cash, date, uuid).log, trn) == Selections(s.log, trn)
  {
    PaymentSelectsNothing(s, t, cash, date, uuid, trn);
  }

  lemma PaymentSelectsNothing(s: State, t: int, cash: int, date: int, uuid: string, trn: int)
    ensures Selections(NewPay(s, t, cash, date, uuid).log, trn) == Selections(s.log, trn)
  {
    if !HasTrn(s.ops, t) {
      var booked := NewPay(s, t, cash, date, uuid).log[|NewPay(s, t, cash, date, uuid).log| - 1];
      SelectionsAppend(s.log, [Opened(uuid)], trn);
      NoneSelected([Opened(uuid)], trn);
      SelectionsAppend(WithCurrent(s, date, uuid).log, [booked], trn);
      NoneSelected([booked], trn);
    }
  }

  ghost predicate PresentThroughout(s: State, es: seq<Event>, trn: int) {
    forall k :: 0 <= k <= |es| ==> HasTrn(Run(s, es[..k]).ops, trn)
  }

  /** A payment whose status is none of the three that may be sent keeps it and is not
      selected again, for as long as its row is there and the server does not answer for it. */
  lemma {:induction false} AnsweredIsQuiet(s: State, es: seq<Event>, trn: int, status: int)
    requires AllHave(s.ops, trn, status) && Final(status)
    requires PresentThroughout(s, es, trn)
    requires forall e :: e in es ==> !(e.ServerAnswer? && e.trn == trn)
    ensures AllHave(Run(s, es).ops, trn, status)
    ensures Selections(Run(s, es).log, trn) == Selections(s.log, trn)
    decreases |es|
  {
    if es == [] {
    } else {
      var n := |es| - 1;
      forall k | 0 <= k <= n ensures HasTrn(Run(s, es[..n][..k]).ops, trn) {
        assert es[..n][..k] == es[..k];
      }
      AnsweredIsQuiet(s, es[..n], trn, status);
      assert HasTrn(Run(s, es[..n]).ops, trn);
      QuietStep(Run(s, es[..n]), es[n], trn, status);
    }
  }

  // ---------------------------------------------------------------- what a removal needs

  lemma UpdateKeepsTrn(ops: seq<Operation>, change: Operation -> Operation, trn: int)
    requires HasTrn(ops, trn) && forall o: Operation :: change(o).trn == o.trn
    ensures HasTrn(Mapped(ops, change), trn)
  {
    UpdatedHas(ops, change);
    var o :| o in ops && o.trn == trn;
    assert change(o) in Mapped(ops, change);
  }

  lemma OnlyCleaningRemoves(s: State, e: Event, trn: int)
    requires HasTrn(s.ops, trn) && !e.Cleaning?
    ensures HasTrn(Step(s, e).ops, trn)
  {
    match e
    case Amendment(t, cash, date) => UpdateKeepsTrn(s.ops, Amend(t, cash, date), trn);
    case Confirmation(t, printing) =>
      UpdateKeepsTrn(s.ops, MarkPrinted(t), trn);
      UpdateKeepsTrn(s.ops, MarkPaid(t), trn);
      UpdateKeepsTrn(Mapped(s.ops, MarkPaid(t)), MarkAllPaid(), trn);
    case UnconfirmedCheck => UpdateKeepsTrn(s.ops, MarkAllPaid(), trn);
    case SendTimeout => UpdateKeepsTrn(s.ops, MarkAllPaid(), trn);
    case ServerAnswer(t, status, timeGet) => UpdateKeepsTrn(s.ops, MarkAnswered(t, status, timeGet), trn);
    case _ =>
  }

  /** A payment is removed only by a cleaning, only when the server has received it, its
      collection is confirmed and its date is in the range. */
  lemma RemovedWhenSettled(s: State, e: Event, o: Operation)
    requires o in s.ops && !HasTrn(Step(s, e).ops, o.trn)
    ensures e.Cleaning? && o.sent && e.from <= o.date <= e.to && IsConfirmed(s.collects, o.collect)
  {
    if e.Cleaning? {
      KeptIs(s.ops, (x: Operation) => !Settled(s.collects, e.from, e.to, x));
    } else {
      OnlyCleaningRemoves(s, e, o.trn);
    }
  }

  /** A cleaning deletes exactly the settled payments and exactly the confirmed collections of
      the range. */
  lemma CleaningIsExact(s: State, from: int, to: int)
    ensures forall o :: o in Clear(s, from, to).ops <==>
      o in s.ops && !(o.sent && from <= o.date <= to && IsConfirmed(s.collects, o.collect))
    ensures forall c :: c in Clear(s, from, to).collects <==>
      c in s.collects && !(c.status == Confirmed && from <= c.date <= to)
  {
    KeptIs(s.ops, (o: Operation) => !Settled(s.collects, from, to, o));
    KeptIs(s.collects, (c: Collection) => !(c.status == Confirmed && from <= c.date <= to));
  }

  // ---------------------------------------------------------------- the course of a status

  /** The events that ask for the next payment to be sent. */
  predicate IsRequest(e: Event) {
    e.SendTimeout? || (e.Confirmation? && !e.printing)
  }

  /** The events that make a payment due: its own confirmation, and for every unfinished one the
      check of unconfirmed payments and the first request. */
  predicate BecomesDue(s: State, e: Event, o: Operation) {
    (e == Confirmation(o.trn, false) && o.status == CREATED) ||
    ((e.UnconfirmedCheck? || (s.firstSend && IsRequest(e))) && (o.status == CREATED || o.status == UNKNOWN))
  }

  function StatusAfter(s: State, e: Event, o: Operation): int {
    if e.ServerAnswer? && e.trn == o.trn then e.status
    else if BecomesDue(s, e, o) then PAID
    else o.status
  }

  lemma OnlyOneRow(s: State, o: Operation)
    requires UniqueTrns(s) && o in s.ops
    ensures forall p :: p in s.ops && p.trn == o.trn ==> p == o
  {
    forall p | p in s.ops && p.trn == o.trn ensures p == o {
      var i, j :| 0 <= i < |s.ops| && 0 <= j < |s.ops| && s.ops[i] == o && s.ops[j] == p;
    }
  }

  lemma MovesUnder(ops: seq<Operation>, change: Operation -> Operation, o: Operation)
    requires forall p :: p in ops && p.trn == o.trn ==> p == o
    requires forall p: Operation :: change(p).trn == p.trn
    ensures forall p :: p in Mapped(ops, change) && p.trn == o.trn ==> p == change(o)
  {
    UpdatedHas(ops, change);
  }

  lemma MovesThroughSend(s: State, o: Operation)
    requires forall p :: p in s.ops && p.trn == o.trn ==> p == o
    ensures forall p :: p in Send(s).ops && p.trn == o.trn ==>
      p == if s.firstSend && (o.status == CREATED || o.status == UNKNOWN) then o.(status := PAID) else o
  {
    MovesUnder(s.ops, MarkAllPaid(), o);
  }

  lemma MovesThroughConfirmation(s: State, trn: int, o: Operation)
    requires forall p :: p in s.ops && p.trn == o.trn ==> p == o
    ensures forall p :: p in ConfirmPay(s, trn, false).ops && p.trn == o.trn ==>
      p == o.(status := StatusAfter(s, Confirmation(trn, false), o))
  {
    MovesUnder(s.ops, MarkPaid(trn), o);
    MovesThroughSend(s.(ops := Mapped(s.ops, MarkPaid(trn))), MarkPaid(trn)(o));
  }

  /** What becomes of a payment that is in the table, column by column, whatever happens. Its status
      becomes 55 exactly if it was 54 and the payment itself is confirmed, or if it was 54 or 3 and
      unconfirmed payments are checked or the first request is made; else it is what the server
      answers for the payment, or what it was. It keeps its collection; only an amendment changes
      its amount and date; the server's answer marks it as received unless the time is 0, and
      nothing takes the mark away; its receipt is printed once that is confirmed. */
  lemma PaymentMoves(s: State, e: Event, o: Operation, o': Operation)
    requires UniqueTrns(s) && o in s.ops && o' in Step(s, e).ops && o.trn == o'.trn
    ensures o' == Operation(
      o.trn, o.collect,
      if e.Amendment? && e.trn == o.trn then e.date else o.date,
      if e.Amendment? && e.trn == o.trn then e.cash else o.cash,
      StatusAfter(s, e, o),
      o.sent || (e.ServerAnswer? && e.trn == o.trn && e.timeGet != NOT_RECEIVED),
      o.printed || e == Confirmation(o.trn, true))
  {
    OnlyOneRow(s, o);
    match e
    case Payment(t, cash, date, uuid) => QuietPayment(s, t, cash, date, uuid, o.trn);
    case Amendment(t, cash, date) => MovesUnder(s.ops, Amend(t, cash, date), o);
    case Confirmation(t, printing) =>
      if printing {
        MovesUnder(s.ops, MarkPrinted(t), o);
      } else {
        MovesThroughConfirmation(s, t, o);
      }
    case UnconfirmedCheck => MovesUnder(s.ops, MarkAllPaid(), o);
    case SendTimeout => MovesThroughSend(s, o);
    case ServerAnswer(t, status, timeGet) => MovesUnder(s.ops, MarkAnswered(t, status, timeGet), o);
    case Cleaning(from, to) => CleaningIsExact(s, from, to);
    case _ =>
  }

  /** A confirmation that is not the first request makes exactly the confirmed payment due, if it
      has status 54, and no other one that was not due before; no payment is lost by it. */
  lemma ConfirmedIsDue(s: State, trn: int, o: Operation)
    requires UniqueTrns(s) && o in s.ops && !s.firstSend
    ensures
      var r := Step(s, Confirmation(trn, false));
      HasTrn(r.ops, o.trn) &&
      forall o' :: o' in r.ops && o'.trn == o.trn ==>
        (o'.status == PAID <==> o.status == PAID || (o.trn == trn && o.status == CREATED))
  {
    var e := Confirmation(trn, false);
    assert HasTrn(s.ops, o.trn);
    OnlyCleaningRemoves(s, e, o.trn);
    forall o' | o' in Step(s, e).ops && o'.trn == o.trn
      ensures o'.status == PAID <==> o.status == PAID || (o.trn == trn && o.status == CREATED)
    {
      PaymentMoves(s, e, o, o');
    }
  }

  /** Event `k` of a run was one of the causes for which payment `trn` may leave status 54. */
  predicate LeavesAt(s: State, es: seq<Event>, trn: int, k: nat) {
    k < |es| &&
    (es[k] == Confirmation(trn, false) || es[k].UnconfirmedCheck? || (es[k].ServerAnswer? && es[k].trn == trn) ||
     (IsRequest(es[k]) && Run(s, es[..k]).firstSend))
  }

  lemma {:induction false} UniqueAlong(s: State, es: seq<Event>)
    requires UniqueTrns(s)
    ensures UniqueTrns(Run(s, es))
    decreases |es|
  {
    if es == [] {
    } else {
      UniqueAlong(s, es[..|es| - 1]);
      TrnsStayUnique(Run(s, es[..|es| - 1]), es[|es| - 1]);
    }
  }

  lemma CreatedStep(s: State, e: Event, trn: int)
    requires UniqueTrns(s) && HasTrn(s.ops, trn) && AllHave(s.ops, trn, CREATED)
    requires !LeavesAt(s, [e], trn, 0)
    ensures AllHave(Step(s, e).ops, trn, CREATED)
  {
    var o :| o in s.ops && o.trn == trn;
    assert [e][..0] == [];
    forall o' | o' in Step(s, e).ops && o'.trn == trn ensures o'.status == CREATED {
      PaymentMoves(s, e, o, o');
    }
  }

  lemma PresentBefore(s: State, es: seq<Event>, trn: int)
    requires es != [] && PresentThroughout(s, es, trn)
    ensures PresentThroughout(s, es[..|es| - 1], trn) && HasTrn(Run(s, es[..|es| - 1]).ops, trn)
  {
    var before := es[..|es| - 1];
    forall k | 0 <= k <= |before| ensures HasTrn(Run(s, before[..k]).ops, trn) {
      assert before[..k] == es[..k];
    }
    assert before[..|before|] == before;
  }

  lemma LeavesNotBefore(s: State, es: seq<Event>, before: seq<Event>, trn: int)
    requires es != [] && before == es[..|es| - 1] && forall k: nat :: !LeavesAt(s, es, trn, k)
    ensures forall k: nat :: !LeavesAt(s, before, trn, k)
    ensures !LeavesAt(Run(s, before), [es[|es| - 1]], trn, 0)
  {
    forall k: nat ensures !LeavesAt(s, before, trn, k) {
      assert !LeavesAt(s, es, trn, k);
      assert k < |before| ==> before[..k] == es[..k];
    }
    assert !LeavesAt(s, es, trn, |before|) && [es[|es| - 1]][..0] == [];
  }

  /** Over every run, while its row is there, a payment leaves status 54 only through its own
      confirmation, the first request, the check of unconfirmed payments, or an answer for it. */
  lemma {:induction false} LeavesCreatedOnlyThrough(s: State, es: seq<Event>, trn: int)
    requires UniqueTrns(s) && PresentThroughout(s, es, trn) && AllHave(s.ops, trn, CREATED)
    requires forall k: nat :: !LeavesAt(s, es, trn, k)
    ensures AllHave(Run(s, es).ops, trn, CREATED)
    decreases |es|
  {
    if es == [] {
    } else {
      var n := |es| - 1;
      PresentBefore(s, es, trn);
      LeavesNotBefore(s, es, es[..n], trn);
      LeavesCreatedOnlyThrough(s, es[..n], trn);
      UniqueAlong(s, es[..n]);
      CreatedStep(Run(s, es[..n]), es[n], trn);
    }
  }

  // ---------------------------------------------------------------- which payment is sent

  lemma {:induction false} FirstIsFirst<T>(rows: seq<T>, wanted: T -> bool)
    requires First(rows, wanted).Some?
    ensures exists i :: 0 <= i < |rows| && IsFirst(rows, wanted, i) && First(rows, wanted) == Some(rows[i])
  {
    if wanted(rows[0]) {
      assert IsFirst(rows, wanted, 0);
    } else {
      FirstIsFirst(rows[1..], wanted);
      var i :| 0 <= i < |rows| - 1 && IsFirst(rows[1..], wanted, i) && First(rows, wanted) == Some(rows[1..][i]);
      forall j | 0 <= j < i + 1 ensures !wanted(rows[j]) {
        assert j > 0 ==> rows[1..][j - 1] == rows[j];
      }
      assert IsFirst(rows, wanted, i + 1);
    }
  }

  predicate IsFirst<T>(rows: seq<T>, wanted: T -> bool, i: nat)
    requires i < |rows|
  {
    wanted(rows[i]) && forall j :: 0 <= j < i ==> !wanted(rows[j])
  }

  function IsDue(): Operation -> bool {
    (o: Operation) => o.status == PAID
  }

  /** The send timer and every confirmation of a payment make a request: it carries the oldest
      payment that is due then, if and only if one is. */
  lemma OldestDueIsSent(s: State, e: Event)
    requires IsRequest(e)
    ensures
      var r := Step(s, e);
      !r.firstSend &&
      if exists o :: o in r.ops && o.status == PAID
      then exists i :: 0 <= i < |r.ops| && IsFirst(r.ops, IsDue(), i) && r.log == s.log + [Selected(r.ops[i].trn)]
      else r.log == s.log
  {
    var r := Step(s, e);
    if First(r.ops, IsDue()).Some? {
      FirstIsFirst(r.ops, IsDue());
    }
  }

  /** A request is the first one if there was none since the program started, and the balance was not
      received since then. */
  lemma FirstRequestIff(s: State, e: Event)
    ensures Step(s, e).firstSend <==> e.Restart? || (s.firstSend && !IsRequest(e) && !e.BalanceKnown?)
  {}

  /** Nothing else selects a payment. */
  lemma OnlyRequestsSelect(s: State, e: Event, trn: int)
    requires !IsRequest(e)
    ensures Selections(Step(s, e).log, trn) == Selections(s.log, trn)
  {
    match e
    case Registration(date, uuid) =>
      QuietLog(s, e, if Step(s, e).log == s.log then [] else [Opened(uuid)], trn);
    case Payment(t, cash, date, uuid) => PaymentSelectsNothing(s, t, cash, date, uuid, trn);
    case Amendment(t, cash, date) => QuietLog(s, e, [Amended(t, cash)], trn);
    case ServerAnswer(t, st, timeGet) => QuietLog(s, e, [Answered(t, timeGet)], trn);
    case Encashment(cid, date, uuid) =>
      QuietLog(s, e, if HasOperations(s.ops, Target(s, cid)) then [Opened(uuid)] else [], trn);
    case CollectionAnswer(id) => QuietLog(s, e, [Closed(id)], trn);
    case Cleaning(from, to) =>
      RemovalsAre(s.ops, (o: Operation) => Settled(s.collects, from, to, o));
      QuietLog(s, e, Removals(s.ops, (o: Operation) => Settled(s.collects, from, to, o)), trn);
    case _ =>
  }

  // ---------------------------------------------------------------- the course of a collection

  /** An encashment is about this collection, and finds payments. */
  predicate Encashes(s: State, e: Event, c: Collection) {
    e.Encashment? && c.id == (if e.cid == "" then CurrentId(s.collects) else e.cid) &&
    exists o :: o in s.ops && o.collect == c.id
  }

  /** The collection that an event opens: for a registration if none is new, for a payment that is
      taken if there is no current one, for an encashment that finds payments. */
  ghost predicate Opens(s: State, e: Event, c: Collection) {
    match e
    case Registration(date, uuid) =>
      c == Collection(uuid, date, New, None) && forall x :: x in s.collects ==> x.status != New
    case Payment(trn, cash, date, uuid) =>
      c == Collection(uuid, date, New, None) && !HasTrn(s.ops, trn) && CurrentId(s.collects) == ""
    case Encashment(cid, date, uuid) =>
      c == Collection(uuid, date, New, None) &&
      exists o :: o in s.ops && o.collect == if cid == "" then CurrentId(s.collects) else cid
    case _ => false
  }

  /** What becomes of the collections, whatever happens but a cleaning: each row stays in its place,
      an encashment sends the row it is about and names its successor, the server's answer confirms
      the row it is for, no other row changes, and a row is added exactly if one is opened. */
  lemma CollectionMoves(s: State, e: Event, i: nat, n: Collection)
    requires !e.Cleaning? && i < |s.collects|
    ensures
      var r, c := Step(s, e).collects, s.collects[i];
      |s.collects| <= |r| <= |s.collects| + 1 &&
      r[i] == (if Encashes(s, e, c) then Collection(c.id, e.date, Sent, Some(e.uuid))
               else if e == CollectionAnswer(c.id) then c.(status := Confirmed)
               else c) &&
      (r[|s.collects|..] == [n] <==> Opens(s, e, n)) &&
      (r[|s.collects|..] != [] ==> exists c' :: Opens(s, e, c'))
  {
    var r := Step(s, e).collects;
    if r[|s.collects|..] != [] {
      assert Opens(s, e, r[|s.collects|]);
    }
  }

  function IsNew(): Collection -> bool {
    (c: Collection) => c.status == New
  }

  /** The current collection is the first new one. */
  lemma CurrentIsFirstNew(collects: seq<Collection>, i: nat)
    requires i < |collects| && collects[i].status == New && forall j :: 0 <= j < i ==> collects[j].status != New
    ensures CurrentId(collects) == collects[i].id
  {
    assert collects[i] in collects && IsNew()(collects[i]);
    FirstIsFirst(collects, IsNew());
    var k :| 0 <= k < |collects| && IsFirst(collects, IsNew(), k) && First(collects, IsNew()) == Some(collects[k]);
    assert k == i;
  }

  predicate NoneNamelessNew(collects: seq<Collection>) {
    forall c :: c in collects && c.status == New ==> c.id != ""
  }

  /** A payment whose transaction is not in the table is added, unsent and with status 54, to a new
      collection that is in the table then, and the first one unless one without an id is new; a
      known one changes nothing. */
  lemma PaymentArrives(s: State, trn: int, cash: int, date: int, uuid: string)
    ensures
      var r := Step(s, Payment(trn, cash, date, uuid));
      if HasTrn(s.ops, trn) then r == s
      else
        exists i :: 0 <= i < |r.collects| && r.collects[i].status == New &&
          (NoneNamelessNew(s.collects) ==> IsFirst(r.collects, IsNew(), i)) &&
          r.ops == s.ops + [Operation(trn, r.collects[i].id, date, cash, CREATED, false, false)]
  {
    var r := Step(s, Payment(trn, cash, date, uuid));
    if !HasTrn(s.ops, trn) {
      if CurrentId(s.collects) == "" {
        assert r.collects == s.collects + [Collection(uuid, date, New, None)];
        assert NoneNamelessNew(s.collects) ==> IsFirst(r.collects, IsNew(), |s.collects|);
        assert r.collects[|s.collects|] == Collection(uuid, date, New, None);
        assert r.ops == s.ops + [Operation(trn, r.collects[|s.collects|].id, date, cash, CREATED, false, false)];
      } else {
        FirstIsFirst(r.collects, IsNew());
      }
    }
  }
}
