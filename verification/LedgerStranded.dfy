/** Payments that no cleaning removes any more. */
module LedgerStranded {
  import opened Common
  import opened LedgerModel
  import opened LedgerSafety
  import opened LedgerBooks
  import opened LedgerRotation

  predicate HasRow(collects: seq<Collection>, id: string) {
    exists c :: c in collects && c.id == id
  }

  /** The payment is in the table and the row of its collection is not. */
  predicate Stranded(s: State, o: Operation) {
    o in s.ops && !HasRow(s.collects, o.collect)
  }

  // ---------------------------------------------------------------- one cleaning

  /** A cleaning strands a payment whose collection is in the table if and only if it deletes the
      collection and not the payment: the collection is confirmed and in the range, and the
      payment was not received by the server or is itself out of the range. */
  lemma CleaningStrandsIff(s: State, from: int, to: int, o: Operation, c: Collection)
    requires Rotation(s) && o in s.ops && c in s.collects && c.id == o.collect
    ensures Stranded(Clear(s, from, to), o) <==>
      c.status == Confirmed && from <= c.date <= to && !(o.sent && from <= o.date <= to)
  {
    CleaningIsExact(s, from, to);
    forall d | d in s.collects && d.id == o.collect ensures d == c {
      var i, j :| 0 <= i < |s.collects| && 0 <= j < |s.collects| && s.collects[i] == c && s.collects[j] == d;
    }
  }

  // ---------------------------------------------------------------- whole runs

  lemma StrandedStep(s: State, e: Event, trn: int, id: string)
    requires FreshId(s, e) && HasPayment(s.ops, trn, id)
    requires Opened(id) in s.log && !HasRow(s.collects, id)
    ensures HasPayment(Step(s, e).ops, trn, id)
    ensures Opened(id) in Step(s, e).log && !HasRow(Step(s, e).collects, id)
  {
    LogGrows(s, e);
    if e.Cleaning? {
      CleaningIsExact(s, e.from, e.to);
    } else {
      PaymentSurvives(s, e, trn, id);
      if e.Encashment? {
        UpdatedHas(s.collects, MarkSent(Target(s, e.cid), e.date, e.uuid));
      } else if e.CollectionAnswer? {
        UpdatedHas(s.collects, MarkConfirmed(e.id));
      }
    }
  }

  lemma {:induction false} StrandedForever(s: State, es: seq<Event>, trn: int, id: string)
    requires FreshIds(s, es) && HasPayment(s.ops, trn, id)
    requires Opened(id) in s.log && !HasRow(s.collects, id)
    ensures HasPayment(Run(s, es).ops, trn, id)
    ensures Opened(id) in Run(s, es).log && !HasRow(Run(s, es).collects, id)
    decreases |es|
  {
    if es == [] {
    } else {
      var n := |es| - 1;
      FreshPrefix(s, es);
      StrandedForever(s, es[..n], trn, id);
      StrandedStep(Run(s, es[..n]), es[n], trn, id);
    }
  }

  lemma TagsBefore(ops: seq<Operation>, change: Operation -> Operation, id: string)
    requires HasOperations(Mapped(ops, change), id) && forall o: Operation :: change(o).collect == o.collect
    ensures HasOperations(ops, id)
  {
    UpdatedHas(ops, change);
  }

  lemma TagComesFrom(s: State, e: Event, id: string)
    requires Rotation(s) && HasOperations(Step(s, e).ops, id)
    ensures HasOperations(s.ops, id) || Opened(id) in Step(s, e).log
  {
    match e
    case Payment(trn, cash, date, uuid) =>
    case Amendment(t, cash, date) => TagsBefore(s.ops, Amend(t, cash, date), id);
    case Confirmation(t, printing) =>
      if printing {
        TagsBefore(s.ops, MarkPrinted(t), id);
      } else {
        TagThroughSend(s.(ops := Mapped(s.ops, MarkPaid(t))), id);
        TagsBefore(s.ops, MarkPaid(t), id);
      }
    case UnconfirmedCheck => TagsBefore(s.ops, MarkAllPaid(), id);
    case SendTimeout => TagThroughSend(s, id);
    case ServerAnswer(t, status, timeGet) => TagsBefore(s.ops, MarkAnswered(t, status, timeGet), id);
    case Cleaning(from, to) => CleaningIsExact(s, from, to);
    case _ =>
  }

  lemma TagThroughSend(s: State, id: string)
    requires HasOperations(Send(s).ops, id)
    ensures HasOperations(s.ops, id)
  {
    if s.firstSend {
      TagsBefore(s.ops, MarkAllPaid(), id);
    }
  }

  lemma {:induction false} TagsAreOpened(es: seq<Event>, id: string)
    requires FreshIds(EMPTY, es) && HasOperations(Run(EMPTY, es).ops, id)
    ensures Opened(id) in Run(EMPTY, es).log
    decreases |es|
  {
    if es == [] {
    } else {
      var n := |es| - 1;
      FreshPrefix(EMPTY, es);
      RotationEverywhere(EMPTY, es[..n]);
      TagComesFrom(Run(EMPTY, es[..n]), es[n], id);
      LogGrows(Run(EMPTY, es[..n]), es[n]);
      if HasOperations(Run(EMPTY, es[..n]).ops, id) {
        TagsAreOpened(es[..n], id);
      }
    }
  }

  /** The server receives the payment and confirms its collection, and its day is cleaned. */
  function Settling(o: Operation): seq<Event> {
    [] + [ServerAnswer(o.trn, 0, "1")] + [CollectionAnswer(o.collect)] + [Cleaning(o.date, o.date)]
  }

  lemma SettlingRuns(s: State, o: Operation)
    ensures FreshIds(s, Settling(o))
    ensures Run(s, Settling(o)) == Clear(ConfirmCollection(Answer(s, o.trn, 0, "1"), o.collect), o.date, o.date)
  {
    var answer, confirm := ServerAnswer(o.trn, 0, "1"), CollectionAnswer(o.collect);
    RunOneMore(s, [], answer);
    RunOneMore(s, [] + [answer], confirm);
    RunOneMore(s, [] + [answer] + [confirm], Cleaning(o.date, o.date));
  }

  lemma AnswerMarks(s: State, o: Operation)
    requires UniqueTrns(s) && o in s.ops
    ensures forall p :: p in Answer(s, o.trn, 0, "1").ops && p.trn == o.trn ==> p.sent && p.date == o.date
  {
    UpdatedHas(s.ops, MarkAnswered(o.trn, 0, "1"));
    OnlyThisRow(s, o);
  }

  lemma SettlingRemoves(s: State, o: Operation)
    requires UniqueTrns(s) && o in s.ops && HasRow(s.collects, o.collect)
    ensures FreshIds(s, Settling(o)) && !HasPayment(Run(s, Settling(o)).ops, o.trn, o.collect)
  {
    SettlingRuns(s, o);
    AnswerMarks(s, o);
    ConfirmedHere(Answer(s, o.trn, 0, "1"), o.collect);
    CleaningIsExact(ConfirmCollection(Answer(s, o.trn, 0, "1"), o.collect), o.date, o.date);
  }

  lemma ConfirmedHere(s: State, id: string)
    requires HasRow(s.collects, id)
    ensures IsConfirmed(ConfirmCollection(s, id).collects, id)
  {
    var c :| c in s.collects && c.id == id;
    UpdatedHas(s.collects, MarkConfirmed(id));
    assert MarkConfirmed(id)(c) in ConfirmCollection(s, id).collects;
  }

  /** Some continuation with fresh ids removes the payment, whatever ranges its cleanings have. */
  ghost predicate Removable(s: State, o: Operation) {
    exists more: seq<Event> :: FreshIds(s, more) && !HasPayment(Run(s, more).ops, o.trn, o.collect)
  }

  lemma TaggedIsOpened(es: seq<Event>, o: Operation)
    requires FreshIds(EMPTY, es) && o in Run(EMPTY, es).ops
    ensures Opened(o.collect) in Run(EMPTY, es).log
  {
    TagsAreOpened(es, o.collect);
  }

  /** In every state of every run with fresh ids, a payment can still be removed by cleanings of
      some range if and only if the row of its collection is in the table. */
  lemma RemovableIff(es: seq<Event>, o: Operation)
    requires FreshIds(EMPTY, es) && o in Run(EMPTY, es).ops
    ensures Removable(Run(EMPTY, es), o) <==> HasRow(Run(EMPTY, es).collects, o.collect)
  {
    var s := Run(EMPTY, es);
    if HasRow(s.collects, o.collect) {
      TrnsAreUnique(es);
      SettlingRemoves(s, o);
    } else {
      TaggedIsOpened(es, o);
      forall more: seq<Event> | FreshIds(s, more) ensures HasPayment(Run(s, more).ops, o.trn, o.collect) {
        StrandedForever(s, more, o.trn, o.collect);
      }
    }
  }

  // ---------------------------------------------------------------- ranges that move forward

  /** Every cleaning begins at `bound` or later, and the payment is not amended. */
  predicate Forward(e: Event, bound: int, trn: int) {
    (e.Cleaning? ==> bound <= e.from) && !(e.Amendment? && e.trn == trn)
  }

  predicate AllForward(es: seq<Event>, bound: int, trn: int) {
    forall e :: e in es ==> Forward(e, bound, trn)
  }

  predicate HasDated(ops: seq<Operation>, trn: int, id: string, date: int) {
    exists o :: o in ops && o.trn == trn && o.collect == id && o.date == date
  }

  lemma UpdateKeepsDated(ops: seq<Operation>, change: Operation -> Operation, trn: int, id: string, date: int)
    requires HasDated(ops, trn, id, date)
    requires forall o: Operation :: o.trn == trn ==>
      change(o).trn == o.trn && change(o).collect == o.collect && change(o).date == o.date
    ensures HasDated(Mapped(ops, change), trn, id, date)
  {
    UpdatedHas(ops, change);
    var o :| o in ops && o.trn == trn && o.collect == id && o.date == date;
    assert change(o) in Mapped(ops, change);
  }

  lemma SendKeepsDated(s: State, trn: int, id: string, date: int)
    requires HasDated(s.ops, trn, id, date)
    ensures HasDated(Send(s).ops, trn, id, date)
  {
    UpdateKeepsDated(s.ops, MarkAllPaid(), trn, id, date);
  }

  lemma PaymentKeepsDated(s: State, e: Event, trn: int, id: string, date: int)
    requires HasDated(s.ops, trn, id, date) && e.Payment?
    ensures HasDated(Step(s, e).ops, trn, id, date)
  {
    var o :| o in s.ops && o.trn == trn && o.collect == id && o.date == date;
    assert o in Step(s, e).ops;
  }

  lemma SameOpsKeepDated(s: State, r: State, trn: int, id: string, date: int)
    requires HasDated(s.ops, trn, id, date) && r.ops == s.ops
    ensures HasDated(r.ops, trn, id, date)
  {}

  lemma CleaningKeepsOld(s: State, from: int, to: int, trn: int, id: string, date: int)
    requires HasDated(s.ops, trn, id, date) && date < from
    ensures HasDated(Clear(s, from, to).ops, trn, id, date)
  {
    CleaningIsExact(s, from, to);
    var o :| o in s.ops && o.trn == trn && o.collect == id && o.date == date;
    assert o in Clear(s, from, to).ops;
  }

  lemma ConfirmationKeepsDated(s: State, t: int, printing: bool, trn: int, id: string, date: int)
    requires HasDated(s.ops, trn, id, date)
    ensures HasDated(ConfirmPay(s, t, printing).ops, trn, id, date)
  {
    if printing {
      UpdateKeepsDated(s.ops, MarkPrinted(t), trn, id, date);
    } else {
      UpdateKeepsDated(s.ops, MarkPaid(t), trn, id, date);
      SendKeepsDated(s.(ops := Mapped(s.ops, MarkPaid(t))), trn, id, date);
    }
  }

  predicate Updates(e: Event) {
    e.Amendment? || e.Confirmation? || e.UnconfirmedCheck? || e.SendTimeout? || e.ServerAnswer?
  }

  lemma UpdatesKeepDated(s: State, e: Event, trn: int, id: string, date: int)
    requires HasDated(s.ops, trn, id, date) && Updates(e) && !(e.Amendment? && e.trn == trn)
    ensures HasDated(Step(s, e).ops, trn, id, date)
  {
    match e
    case Amendment(t, cash, d) => UpdateKeepsDated(s.ops, Amend(t, cash, d), trn, id, date);
    case Confirmation(t, printing) => ConfirmationKeepsDated(s, t, printing, trn, id, date);
    case UnconfirmedCheck => UpdateKeepsDated(s.ops, MarkAllPaid(), trn, id, date);
    case SendTimeout => SendKeepsDated(s, trn, id, date);
    case ServerAnswer(t, status, timeGet) => UpdateKeepsDated(s.ops, MarkAnswered(t, status, timeGet), trn, id, date);
  }

  /** One event leaves a payment that is older than the range. */
  lemma OldStep(s: State, e: Event, trn: int, id: string, date: int, bound: int)
    requires HasDated(s.ops, trn, id, date) && date < bound && Forward(e, bound, trn)
    ensures HasDated(Step(s, e).ops, trn, id, date)
  {
    if Updates(e) {
      UpdatesKeepDated(s, e, trn, id, date);
    } else if e.Cleaning? {
      CleaningKeepsOld(s, e.from, e.to, trn, id, date);
    } else if e.Payment? {
      PaymentKeepsDated(s, e, trn, id, date);
    } else {
      SameOpsKeepDated(s, Step(s, e), trn, id, date);
    }
  }

  lemma {:induction false} OldForever(s: State, es: seq<Event>, trn: int, id: string, date: int, bound: int)
    requires HasDated(s.ops, trn, id, date) && date < bound && AllForward(es, bound, trn)
    ensures HasDated(Run(s, es).ops, trn, id, date)
    decreases |es|
  {
    if es == [] {
    } else {
      var n := |es| - 1;
      OldForever(s, es[..n], trn, id, date, bound);
      assert es[n] in es;
      OldStep(Run(s, es[..n]), es[n], trn, id, date, bound);
    }
  }

  /** Some continuation with fresh ids, whose cleanings all begin at `bound` or later and which
      does not amend the payment, removes it. */
  ghost predicate RemovableFrom(s: State, o: Operation, bound: int) {
    exists more: seq<Event> ::
      FreshIds(s, more) && AllForward(more, bound, o.trn) && !HasPayment(Run(s, more).ops, o.trn, o.collect)
  }

  /** The range of a cleaning begins with last year, so with a clock that runs forward it only
      moves forward. In every state of every run with fresh ids, a payment can then still be
      removed if and only if the row of its collection is in the table and the payment is not
      older than the earliest range to come. */
  lemma RemovableFromIff(es: seq<Event>, o: Operation, bound: int)
    requires FreshIds(EMPTY, es) && o in Run(EMPTY, es).ops
    ensures RemovableFrom(Run(EMPTY, es), o, bound) <==>
      HasRow(Run(EMPTY, es).collects, o.collect) && bound <= o.date
  {
    var s := Run(EMPTY, es);
    if HasRow(s.collects, o.collect) && bound <= o.date {
      TrnsAreUnique(es);
      SettlingRemoves(s, o);
      assert AllForward(Settling(o), bound, o.trn);
    } else {
      TaggedIsOpened(es, o);
      forall more: seq<Event> | FreshIds(s, more) && AllForward(more, bound, o.trn)
        ensures HasPayment(Run(s, more).ops, o.trn, o.collect)
      {
        if o.date < bound {
          assert HasDated(s.ops, o.trn, o.collect, o.date);
          OldForever(s, more, o.trn, o.collect, o.date, bound);
        } else {
          StrandedForever(s, more, o.trn, o.collect);
        }
      }
    }
  }

  // ---------------------------------------------------------------- it happens

  const TAKES := Payment(1, 100, 5, "a")
  const RECEIVES := ServerAnswer(1, 0, "1")
  const SENDS := Encashment("", 10, "b")
  const CONFIRMS := CollectionAnswer("a")
  const CLEANS := Cleaning(8, 20)

  // The payment of day 5 and its collection, before and after the server received it.
  function PaidState(received: bool): State {
    State([Operation(1, "a", 5, 100, if received then 0 else CREATED, received, false)],
          [Collection("a", 5, New, None)], true,
          [Opened("a"), Booked(1, "a", 100)] + if received then [Answered(1, "1")] else [])
  }

  // The collection is encashed on day 10, and confirmed.
  function SentState(received: bool, status: CollectStatus, log: seq<Entry>): State {
    State(PaidState(received).ops, [Collection("a", 10, status, Some("b")), Collection("b", 10, New, None)], true,
          PaidState(received).log + [Opened("b")] + log)
  }

  lemma PaymentIsTaken()
    ensures Step(EMPTY, TAKES) == PaidState(false)
    ensures Step(PaidState(false), RECEIVES) == PaidState(true)
  {
    assert [Opened("a"), Booked(1, "a", 100)] + [] == [Opened("a"), Booked(1, "a", 100)];
  }

  lemma CollectionIsSent(received: bool)
    ensures Step(PaidState(received), SENDS) == SentState(received, Sent, [])
    ensures Step(SentState(received, Sent, []), CONFIRMS) == SentState(received, Confirmed, [Closed("a")])
  {
    var s := PaidState(received);
    assert s.ops[0] in s.ops && HasOperations(s.ops, "a");
    assert s.log + [Opened("b")] + [] == s.log + [Opened("b")];
  }

  function Before(received: bool): seq<Event> {
    ([] + [TAKES]) + (if received then [RECEIVES] else [])
  }

  lemma RunToPaid(received: bool)
    ensures FreshIds(EMPTY, Before(received)) && Run(EMPTY, Before(received)) == PaidState(received)
  {
    PaymentIsTaken();
    RunOneMore(EMPTY, [], TAKES);
    if received {
      RunOneMore(EMPTY, [] + [TAKES], RECEIVES);
    } else {
      assert Before(false) == [] + [TAKES];
    }
  }

  lemma CleaningStrands(received: bool)
    requires Rotation(SentState(received, Confirmed, [Closed("a")]))
    ensures var s := SentState(received, Confirmed, [Closed("a")]); Stranded(Step(s, CLEANS), s.ops[0])
  {
    var s := SentState(received, Confirmed, [Closed("a")]);
    assert s.ops[0] in s.ops && s.collects[0] in s.collects;
    CleaningStrandsIff(s, 8, 20, s.ops[0], s.collects[0]);
  }

  lemma RunToConfirmed(received: bool)
    ensures
      var es := Before(received) + [SENDS] + [CONFIRMS];
      FreshIds(EMPTY, es) && Run(EMPTY, es) == SentState(received, Confirmed, [Closed("a")])
  {
    var es := Before(received);
    RunToPaid(received);
    CollectionIsSent(received);
    assert FreshId(PaidState(received), SENDS);
    RunOneMore(EMPTY, es, SENDS);
    RunOneMore(EMPTY, es + [SENDS], CONFIRMS);
  }

  /** From the first start on, a run with fresh ids strands a payment that the server has not
      received, and another strands one that it has: taken before the range and encashed in it. */
  lemma StrandingRunExists(received: bool)
    ensures exists es, o :: FreshIds(EMPTY, es) && Stranded(Run(EMPTY, es), o) && o.sent == received
  {
    var es := Before(received) + [SENDS] + [CONFIRMS];
    RunToConfirmed(received);
    RotationEverywhere(EMPTY, es);
    CleaningStrands(received);
    RunOneMore(EMPTY, es, CLEANS);
    assert PaidState(received).ops[0].sent == received;
  }

  ghost predicate OutOfReach(s: State, o: Operation, bound: int) {
    o in s.ops && o.sent && HasRow(s.collects, o.collect) && !RemovableFrom(s, o, bound)
  }

  /** A payment that the server has received, whose collection is still in the table, and that no
      later cleaning removes: its collection was not confirmed before the range moved past it. */
  lemma OldPaymentExists()
    ensures exists es, o, bound :: FreshIds(EMPTY, es) && OutOfReach(Run(EMPTY, es), o, bound)
  {
    RunToPaid(true);
    var s := PaidState(true);
    assert s.ops[0] in s.ops && s.collects[0] in s.collects;
    RemovableFromIff(Before(true), s.ops[0], 6);
    assert OutOfReach(Run(EMPTY, Before(true)), s.ops[0], 6);
  }
}
