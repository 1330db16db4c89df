/** The books: every payment that was taken is accounted for, and the money of a collection
    stays in the table until the server has confirmed it. */
module LedgerBooks {
  import opened Common
  import opened LedgerModel
  import opened LedgerSafety

  /** What one event adds to the log. */
  function NewEntries(s: State, e: Event): seq<Entry> {
    match e
    case Registration(date, uuid) => if forall c :: c in s.collects ==> c.status != New then [Opened(uuid)] else []
    case Payment(trn, cash, date, uuid) =>
      if HasTrn(s.ops, trn) then []
      else if CurrentId(s.collects) == "" then [Opened(uuid), Booked(trn, uuid, cash)]
      else [Booked(trn, CurrentId(s.collects), cash)]
    case Amendment(trn, cash, _) => [Amended(trn, cash)]
    case Confirmation(trn, printing) =>
      if printing then [] else Selecting(s.(ops := Mapped(s.ops, MarkPaid(trn))))
    case SendTimeout => Selecting(s)
    case ServerAnswer(trn, _, timeGet) => [Answered(trn, timeGet)]
    case Encashment(cid, _, uuid) => if HasOperations(s.ops, Target(s, cid)) then [Opened(uuid)] else []
    case CollectionAnswer(id) => [Closed(id)]
    case Cleaning(from, to) => Removals(s.ops, (o: Operation) => Settled(s.collects, from, to, o))
    case _ => []
  }

  function Selecting(s: State): seq<Entry> {
    var due := First(if s.firstSend then Mapped(s.ops, MarkAllPaid()) else s.ops, (o: Operation) => o.status == PAID);
    if due.Some? then [Selected(due.value.trn)] else []
  }

  lemma LogGrows(s: State, e: Event)
    ensures Step(s, e).log == s.log + NewEntries(s, e)
  {}

  // ---------------------------------------------------------------- the books

  /** One accepted payment: its amount, and whether it is still owed to its collection. */
  datatype Record = Record(trn: int, id: string, cash: int, live: bool)

  function Correct(trn: int, cash: int): Record -> Record {
    (r: Record) => if r.live && r.trn == trn then r.(cash := cash) else r
  }

  function Strike(trn: int, id: string): Record -> Record {
    (r: Record) => if r.live && r.trn == trn && r.id == id then r.(live := false) else r
  }

  function Entered(rs: seq<Record>, x: Entry): seq<Record> {
    match x
    case Booked(trn, id, cash) => rs + [Record(trn, id, cash, true)]
    case Amended(trn, cash) => Mapped(rs, Correct(trn, cash))
    case Removed(trn, id) => Mapped(rs, Strike(trn, id))
    case _ => rs
  }

  /** The books that the log alone amounts to: every accepted payment, at the amount it came with
      or was last amended to. No table is looked at. */
  function Books(log: seq<Entry>): seq<Record> {
    if log == [] then [] else Entered(Books(log[..|log| - 1]), log[|log| - 1])
  }

  function EnteredAll(rs: seq<Record>, more: seq<Entry>): seq<Record> {
    if more == [] then rs else Entered(EnteredAll(rs, more[..|more| - 1]), more[|more| - 1])
  }

  lemma {:induction false} BooksAppend(log: seq<Entry>, more: seq<Entry>)
    ensures Books(log + more) == EnteredAll(Books(log), more)
  {
    if more == [] {
      assert log + more == log;
    } else {
      BooksAppend(log, more[..|more| - 1]);
      assert (log + more)[..|log + more| - 1] == log + more[..|more| - 1];
    }
  }

  predicate IsLive(r: Record) {
    r.live
  }

  predicate IsStruck(r: Record) {
    !r.live
  }

  function RowOf(o: Operation): Record {
    Record(o.trn, o.collect, o.cash, true)
  }

  /** What is live in the books is the payment table, row by row. */
  ghost predicate Balanced(s: State) {
    Kept(Books(s.log), IsLive) == Mapped(s.ops, RowOf)
  }

  lemma {:induction false} KeptSame<T>(xs: seq<T>, p: T -> bool, q: T -> bool)
    requires forall x :: x in xs ==> p(x) == q(x)
    ensures Kept(xs, p) == Kept(xs, q)
  {
    if xs == [] {
    } else {
      KeptSame(xs[..|xs| - 1], p, q);
    }
  }

  lemma {:induction false} KeptMapped<A, B>(xs: seq<A>, f: A -> B, p: B -> bool, q: A -> bool)
    requires forall x :: x in xs ==> q(x) == p(f(x))
    ensures Kept(Mapped(xs, f), p) == Mapped(Kept(xs, q), f)
  {
    if xs == [] {
    } else {
      var n := |xs| - 1;
      var kept := Kept(xs[..n], q);
      KeptMapped(xs[..n], f, p, q);
      assert Mapped(xs, f)[..n] == Mapped(xs[..n], f) && xs[n] in xs;
      if q(xs[n]) {
        assert Mapped(kept + [xs[n]], f) == Mapped(kept, f) + [f(xs[n])];
      } else {
        assert kept + [] == kept;
      }
    }
  }

  lemma {:induction false} KeptTwice<T>(xs: seq<T>, p: T -> bool, q: T -> bool, both: T -> bool)
    requires forall x :: x in xs ==> both(x) == (p(x) && q(x))
    ensures Kept(Kept(xs, p), q) == Kept(xs, both)
  {
    if xs == [] {
    } else {
      var n := |xs| - 1;
      KeptTwice(xs[..n], p, q, both);
      if p(xs[n]) {
        assert (Kept(xs[..n], p) + [xs[n]])[..|Kept(xs[..n], p)|] == Kept(xs[..n], p);
      } else {
        assert Kept(xs, p) == Kept(xs[..n], p);
      }
    }
  }

  lemma MappedTwice<A, B, C>(xs: seq<A>, f: A -> B, g: B -> C, h: A -> C)
    requires forall x :: x in xs ==> h(x) == g(f(x))
    ensures Mapped(Mapped(xs, f), g) == Mapped(xs, h)
  {}

  /** Entries that no book records. */
  predicate OffTheBooks(x: Entry) {
    !x.Booked? && !x.Amended? && !x.Removed?
  }

  lemma {:induction false} BooksIgnore(rs: seq<Record>, more: seq<Entry>)
    requires forall x :: x in more ==> OffTheBooks(x)
    ensures EnteredAll(rs, more) == rs
  {
    if more == [] {
    } else {
      BooksIgnore(rs, more[..|more| - 1]);
      assert more[|more| - 1] in more;
    }
  }

  /** A statement that changes no transaction, collection or amount. */
  lemma BalancedUpdate(s: State, r: State, more: seq<Entry>, change: Operation -> Operation)
    requires Balanced(s) && r.ops == Mapped(s.ops, change) && r.log == s.log + more
    requires forall o: Operation :: RowOf(change(o)) == RowOf(o)
    requires forall x :: x in more ==> OffTheBooks(x)
    ensures Balanced(r)
  {
    BooksAppend(s.log, more);
    BooksIgnore(Books(s.log), more);
    MappedTwice(s.ops, change, RowOf, RowOf);
  }

  lemma BalancedLog(s: State, r: State, more: seq<Entry>)
    requires Balanced(s) && r.ops == s.ops && r.log == s.log + more
    requires forall x :: x in more ==> OffTheBooks(x)
    ensures Balanced(r)
  {
    BooksAppend(s.log, more);
    BooksIgnore(Books(s.log), more);
  }

  lemma BalancedBooking(s: State, o: Operation)
    requires Balanced(s)
    ensures Balanced(s.(ops := s.ops + [o], log := s.log + [Booked(o.trn, o.collect, o.cash)]))
  {
    var x := Booked(o.trn, o.collect, o.cash);
    var rs := Books(s.log);
    assert (s.log + [x])[..|s.log|] == s.log;
    assert (rs + [RowOf(o)])[..|rs|] == rs;
    assert Mapped(s.ops + [o], RowOf) == Mapped(s.ops, RowOf) + [RowOf(o)];
  }

  lemma BalancedPayment(s: State, trn: int, cash: int, date: int, uuid: string)
    requires Balanced(s)
    ensures Balanced(NewPay(s, trn, cash, date, uuid))
  {
    if HasTrn(s.ops, trn) {
    } else {
      var t := WithCurrent(s, date, uuid);
      BalancedLog(s, t, if CurrentId(s.collects) == "" then [Opened(uuid)] else []);
      BalancedBooking(t, NewPay(s, trn, cash, date, uuid).ops[|s.ops|]);
    }
  }

  lemma BalancedAmendment(s: State, trn: int, cash: int, date: int)
    requires Balanced(s)
    ensures Balanced(UpdatePay(s, trn, cash, date))
  {
    var rs := Books(s.log);
    assert (s.log + [Amended(trn, cash)])[..|s.log|] == s.log;
    KeptMapped(rs, Correct(trn, cash), IsLive, IsLive);
    MappedTwice(s.ops, Amend(trn, cash, date), RowOf, (o: Operation) => RowOf(Amend(trn, cash, date)(o)));
    MappedTwice(s.ops, RowOf, Correct(trn, cash), (o: Operation) => RowOf(Amend(trn, cash, date)(o)));
  }

  predicate Matches(o: Operation, r: Record) {
    o.trn == r.trn && o.collect == r.id
  }

  /** A record that none of the removed rows matches. */
  predicate Stays(ops: seq<Operation>, gone: Operation -> bool, r: Record) {
    forall o :: o in ops && gone(o) ==> !Matches(o, r)
  }

  function Unmatched(o: Operation): Record -> bool {
    (r: Record) => !Matches(o, r)
  }

  function LiveUnmatched(o: Operation): Record -> bool {
    (r: Record) => r.live && !Matches(o, r)
  }

  lemma StrikeOne(rs: seq<Record>, o: Operation)
    ensures Kept(Mapped(rs, Strike(o.trn, o.collect)), IsLive) == Kept(Kept(rs, IsLive), Unmatched(o))
  {
    var f := Strike(o.trn, o.collect);
    KeptMapped(rs, f, IsLive, LiveUnmatched(o));
    KeptTwice(rs, IsLive, Unmatched(o), LiveUnmatched(o));
    KeptIs(rs, LiveUnmatched(o));
    var kept := Kept(rs, LiveUnmatched(o));
    assert forall i :: 0 <= i < |kept| ==> kept[i] in kept;
    assert Mapped(kept, f) == kept;
  }

  function StaysAfter(ops: seq<Operation>, gone: Operation -> bool): Record -> bool {
    (r: Record) => Stays(ops, gone, r)
  }

  lemma StrikeOneMore(rs: seq<Record>, entries: seq<Entry>, o: Operation, live: seq<Record>, stays: Record -> bool,
                      both: Record -> bool)
    requires Kept(EnteredAll(rs, entries), IsLive) == Kept(live, stays)
    requires forall r :: both(r) == (stays(r) && !Matches(o, r))
    ensures Kept(EnteredAll(rs, entries + [Removed(o.trn, o.collect)]), IsLive) == Kept(live, both)
  {
    assert (entries + [Removed(o.trn, o.collect)])[..|entries|] == entries;
    StrikeOne(EnteredAll(rs, entries), o);
    KeptTwice(live, stays, Unmatched(o), both);
  }

  lemma {:induction false} StrikeAll(rs: seq<Record>, ops: seq<Operation>, gone: Operation -> bool)
    ensures Kept(EnteredAll(rs, Removals(ops, gone)), IsLive) == Kept(Kept(rs, IsLive), StaysAfter(ops, gone))
  {
    var live := Kept(rs, IsLive);
    if ops == [] {
      KeptTwice(rs, IsLive, StaysAfter(ops, gone), IsLive);
    } else {
      var n := |ops| - 1;
      StrikeAll(rs, ops[..n], gone);
      StaysFront(ops, gone);
      if gone(ops[n]) {
        StrikeOneMore(rs, Removals(ops[..n], gone), ops[n], live, StaysAfter(ops[..n], gone), StaysAfter(ops, gone));
      } else {
        assert Removals(ops[..n], gone) + [] == Removals(ops[..n], gone);
        KeptSame(live, StaysAfter(ops[..n], gone), StaysAfter(ops, gone));
      }
    }
  }

  lemma StaysFront(ops: seq<Operation>, gone: Operation -> bool)
    requires ops != []
    ensures var o := ops[|ops| - 1]; forall r ::
      Stays(ops, gone, r) <==> Stays(ops[..|ops| - 1], gone, r) && (gone(o) ==> !Matches(o, r))
  {
    var n := |ops| - 1;
    assert ops == ops[..n] + [ops[n]];
  }

  lemma BalancedCleaning(s: State, from: int, to: int)
    requires Balanced(s) && UniqueTrns(s)
    ensures Balanced(Clear(s, from, to))
  {
    var gone := (o: Operation) => Settled(s.collects, from, to, o);
    var keep := (o: Operation) => !Settled(s.collects, from, to, o);
    BooksAppend(s.log, Removals(s.ops, gone));
    StrikeAll(Books(s.log), s.ops, gone);
    forall o | o in s.ops ensures keep(o) == Stays(s.ops, gone, RowOf(o)) {
      OnlyThisRow(s, o);
      assert gone(o) ==> Matches(o, RowOf(o));
    }
    KeptMapped(s.ops, RowOf, StaysAfter(s.ops, gone), keep);
  }

  lemma OnlyThisRow(s: State, o: Operation)
    requires UniqueTrns(s) && o in s.ops
    ensures forall p :: p in s.ops && p.trn == o.trn ==> p == o
  {
    forall p | p in s.ops && p.trn == o.trn ensures p == o {
      var i, j :| 0 <= i < |s.ops| && 0 <= j < |s.ops| && s.ops[i] == o && s.ops[j] == p;
    }
  }

  lemma BalancedSend(s: State)
    requires Balanced(s)
    ensures Balanced(Send(s))
  {
    assert Send(s).log == s.log + Selecting(s);
    if s.firstSend {
      BalancedUpdate(s, Send(s), Selecting(s), MarkAllPaid());
    } else {
      BalancedLog(s, Send(s), Selecting(s));
    }
  }

  lemma BalancedStep(s: State, e: Event)
    requires Balanced(s) && UniqueTrns(s)
    ensures Balanced(Step(s, e))
  {
    var r := Step(s, e);
    match e
    case Payment(trn, cash, date, uuid) => BalancedPayment(s, trn, cash, date, uuid);
    case Amendment(trn, cash, date) => BalancedAmendment(s, trn, cash, date);
    case Confirmation(trn, printing) =>
      if printing {
        BalancedUpdate(s, r, [], MarkPrinted(trn));
      } else {
        var paid := s.(ops := Mapped(s.ops, MarkPaid(trn)));
        BalancedUpdate(s, paid, [], MarkPaid(trn));
        BalancedSend(paid);
      }
    case UnconfirmedCheck => BalancedUpdate(s, r, [], MarkAllPaid());
    case SendTimeout => BalancedSend(s);
    case ServerAnswer(trn, status, timeGet) =>
      BalancedUpdate(s, r, [Answered(trn, timeGet)], MarkAnswered(trn, status, timeGet));
    case Cleaning(from, to) => BalancedCleaning(s, from, to);
    case _ =>
      LogGrows(s, e);
      BalancedLog(s, r, NewEntries(s, e));
  }

  /** Over every run the payment table is what the books say: the accepted payments that no
      cleaning removed, in order, each at its last amount. */
  lemma {:induction false} BooksAreTheTable(es: seq<Event>)
    ensures Balanced(Run(EMPTY, es))
    decreases |es|
  {
    if es == [] {
    } else {
      BooksAreTheTable(es[..|es| - 1]);
      TrnsAreUnique(es[..|es| - 1]);
      BalancedStep(Run(EMPTY, es[..|es| - 1]), es[|es| - 1]);
    }
  }

  predicate OwedFor(rs: seq<Record>, trn: int) {
    exists r :: r in rs && r.live && r.trn == trn
  }

  /** A payment is taken if and only if the books owe none for its transaction, and then at the
      amount it comes with. */
  lemma PaymentTakenIff(es: seq<Event>, trn: int, cash: int, date: int, uuid: string)
    ensures
      var s := Run(EMPTY, es);
      var taken := Books(NewPay(s, trn, cash, date, uuid).log);
      if OwedFor(Books(s.log), trn) then taken == Books(s.log)
      else exists id :: taken == Books(s.log) + [Record(trn, id, cash, true)]
  {
    var s := Run(EMPTY, es);
    BooksAreTheTable(es);
    OwedIff(s, trn);
    if HasTrn(s.ops, trn) {
    } else {
      var t := WithCurrent(s, date, uuid);
      var id := NewPay(s, trn, cash, date, uuid).ops[|s.ops|].collect;
      assert (s.log + [Opened(uuid)])[..|s.log|] == s.log;
      assert (t.log + [Booked(trn, id, cash)])[..|t.log|] == t.log;
      assert Books(NewPay(s, trn, cash, date, uuid).log) == Books(s.log) + [Record(trn, id, cash, true)];
    }
  }

  lemma OwedIff(s: State, trn: int)
    requires Balanced(s)
    ensures OwedFor(Books(s.log), trn) <==> HasTrn(s.ops, trn)
  {
    var live, rows := Kept(Books(s.log), IsLive), Mapped(s.ops, RowOf);
    KeptIs(Books(s.log), IsLive);
    UpdatedHas(s.ops, RowOf);
    if r :| r in Books(s.log) && r.live && r.trn == trn {
      assert r in rows;
    }
    if o :| o in s.ops && o.trn == trn {
      assert RowOf(o) in live;
    }
  }

  // ---------------------------------------------------------------- money

  /** The cash of the payments tagged with a collection. */
  function Total(ops: seq<Operation>, id: string): int {
    if ops == [] then 0
    else
      var n := |ops| - 1;
      Total(ops[..n], id) + if ops[n].collect == id then ops[n].cash else 0
  }

  function CashOf(rs: seq<Record>, id: string): int {
    if rs == [] then 0
    else
      var n := |rs| - 1;
      CashOf(rs[..n], id) + if rs[n].id == id then rs[n].cash else 0
  }

  /** What was taken for a collection: its accepted payments at their last amounts. */
  function Taken(log: seq<Entry>, id: string): int {
    CashOf(Books(log), id)
  }

  /** What of it cleanings removed. */
  function Cleared(log: seq<Entry>, id: string): int {
    CashOf(Kept(Books(log), IsStruck), id)
  }

  lemma {:induction false} TotalOfRows(ops: seq<Operation>, id: string)
    ensures Total(ops, id) == CashOf(Mapped(ops, RowOf), id)
  {
    if ops == [] {
    } else {
      TotalOfRows(ops[..|ops| - 1], id);
      assert Mapped(ops, RowOf)[..|ops| - 1] == Mapped(ops[..|ops| - 1], RowOf);
    }
  }

  lemma CashWithOne(rs: seq<Record>, r: Record, id: string)
    ensures CashOf(rs + [r], id) == CashOf(rs, id) + if r.id == id then r.cash else 0
  {
    assert (rs + [r])[..|rs|] == rs;
  }

  lemma {:induction false} CashSplits(rs: seq<Record>, id: string)
    ensures CashOf(rs, id) == CashOf(Kept(rs, IsLive), id) + CashOf(Kept(rs, IsStruck), id)
  {
    if rs == [] {
    } else {
      var n := |rs| - 1;
      CashSplits(rs[..n], id);
      var live, struck := Kept(rs[..n], IsLive), Kept(rs[..n], IsStruck);
      if rs[n].live {
        CashWithOne(live, rs[n], id);
        assert struck + [] == struck;
      } else {
        CashWithOne(struck, rs[n], id);
        assert live + [] == live;
      }
    }
  }

  /** Cash is neither lost nor made: at any time the payments tagged with a collection amount
      to what was taken for it, less what cleanings removed. */
  lemma CashIsConserved(es: seq<Event>, id: string)
    ensures var s := Run(EMPTY, es); Total(s.ops, id) == Taken(s.log, id) - Cleared(s.log, id)
  {
    var s := Run(EMPTY, es);
    BooksAreTheTable(es);
    TotalOfRows(s.ops, id);
    CashSplits(Books(s.log), id);
  }

  lemma {:induction false} StruckWasRemoved(log: seq<Entry>)
    ensures forall r :: r in Books(log) && !r.live ==> Removed(r.trn, r.id) in log
  {
    if log == [] {
    } else {
      var n := |log| - 1;
      StruckWasRemoved(log[..n]);
      assert log == log[..n] + [log[n]];
      match log[n]
      case Amended(trn, cash) => UpdatedHas(Books(log[..n]), Correct(trn, cash));
      case Removed(trn, id) => UpdatedHas(Books(log[..n]), Strike(trn, id));
      case _ =>
    }
  }

  // ---------------------------------------------------------------- every removal is justified

  predicate Receives(x: Entry, trn: int) {
    x.Answered? && x.trn == trn && x.timeGet != NOT_RECEIVED
  }

  /** Since the payment was last booked, the server has received it. */
  predicate Received(log: seq<Entry>, trn: int) {
    log != [] &&
    var last := log[|log| - 1];
    Receives(last, trn) || (!(last.Booked? && last.trn == trn) && Received(log[..|log| - 1], trn))
  }

  lemma {:induction false} ReceivedStays(log: seq<Entry>, more: seq<Entry>, trn: int)
    requires Received(log, trn)
    requires forall x :: x in more ==> !(x.Booked? && x.trn == trn)
    ensures Received(log + more, trn)
  {
    if more == [] {
      assert log + more == log;
    } else {
      ReceivedStays(log, more[..|more| - 1], trn);
      assert (log + more)[..|log + more| - 1] == log + more[..|more| - 1];
    }
  }

  /** Entry `i` is an answer of receipt that no later booking follows. */
  predicate LastReceipt(log: seq<Entry>, trn: int, i: nat)
    requires i < |log|
  {
    Receives(log[i], trn) && forall k :: i < k < |log| ==> !(log[k].Booked? && log[k].trn == trn)
  }

  /** What `Received` means: an answer that no later booking follows. */
  lemma {:induction false} ReceivedMeans(log: seq<Entry>, trn: int)
    requires Received(log, trn)
    ensures exists i :: 0 <= i < |log| && LastReceipt(log, trn, i)
  {
    var n := |log| - 1;
    if Receives(log[n], trn) {
      assert LastReceipt(log, trn, n);
    } else {
      ReceivedMeans(log[..n], trn);
      var i :| 0 <= i < n && LastReceipt(log[..n], trn, i);
      forall k | i < k < |log| ensures !(log[k].Booked? && log[k].trn == trn) {
        if k < n {
          assert log[..n][k] == log[k];
        }
      }
      assert LastReceipt(log, trn, i);
    }
  }

  predicate JustifiedBy(log: seq<Entry>, x: Entry) {
    x.Removed? ==> Received(log, x.trn) && Closed(x.id) in log
  }

  ghost predicate Justified(log: seq<Entry>) {
    forall k :: 0 <= k < |log| ==> JustifiedBy(log[..k], log[k])
  }

  lemma JustifiedGrows(log: seq<Entry>, more: seq<Entry>)
    requires Justified(log) && forall x :: x in more ==> JustifiedBy(log, x)
    requires (forall x :: x in more ==> !x.Removed?) || (forall x :: x in more ==> !x.Booked?)
    ensures Justified(log + more)
  {
    forall k | 0 <= k < |log + more| ensures JustifiedBy((log + more)[..k], (log + more)[k]) {
      if k < |log| {
        assert (log + more)[..k] == log[..k];
      } else {
        var x := more[k - |log|];
        assert (log + more)[..k] == log + more[..k - |log|] && x in more;
        if x.Removed? {
          ReceivedStays(log, more[..k - |log|], x.trn);
        }
      }
    }
  }

  /** Sent payments have been received, confirmed collections confirmed by the server. */
  ghost predicate Explained(s: State) {
    (forall o :: o in s.ops && o.sent ==> Received(s.log, o.trn)) &&
    (forall c :: c in s.collects && c.status == Confirmed ==> Closed(c.id) in s.log) &&
    Justified(s.log)
  }

  lemma EntriesOfEvent(s: State, e: Event)
    ensures forall x :: x in NewEntries(s, e) && x.Booked? ==> e.Payment? && x.trn == e.trn && !HasTrn(s.ops, x.trn)
    ensures forall x :: x in NewEntries(s, e) && x.Removed? ==>
      e.Cleaning? && exists o :: o in s.ops && Settled(s.collects, e.from, e.to, o) && x == Removed(o.trn, o.collect)
  {
    if e.Cleaning? {
      RemovalsAre(s.ops, (o: Operation) => Settled(s.collects, e.from, e.to, o));
    }
  }

  predicate HasSent(ops: seq<Operation>, trn: int) {
    exists o :: o in ops && o.trn == trn && o.sent
  }

  lemma SentBefore(ops: seq<Operation>, change: Operation -> Operation, trn: int)
    requires HasSent(Mapped(ops, change), trn)
    requires forall o: Operation :: change(o).trn == o.trn && (o.trn == trn && change(o).sent ==> o.sent)
    ensures HasSent(ops, trn)
  {
    UpdatedHas(ops, change);
  }

  lemma SendMarksNone(s: State, trn: int)
    requires HasSent(Send(s).ops, trn)
    ensures HasSent(s.ops, trn)
  {
    if s.firstSend {
      SentBefore(s.ops, MarkAllPaid(), trn);
    }
  }

  /** Rows that become marked as sent do so by the answer that is logged. */
  lemma SentComesFrom(s: State, e: Event, trn: int)
    requires HasSent(Step(s, e).ops, trn)
    ensures HasSent(s.ops, trn) || (e.ServerAnswer? && Receives(Answered(e.trn, e.timeGet), trn))
  {
    match e
    case Amendment(t, cash, date) => SentBefore(s.ops, Amend(t, cash, date), trn);
    case Confirmation(t, printing) =>
      if printing {
        SentBefore(s.ops, MarkPrinted(t), trn);
      } else {
        SendMarksNone(s.(ops := Mapped(s.ops, MarkPaid(t))), trn);
        SentBefore(s.ops, MarkPaid(t), trn);
      }
    case UnconfirmedCheck => SentBefore(s.ops, MarkAllPaid(), trn);
    case SendTimeout => SendMarksNone(s, trn);
    case ServerAnswer(t, status, timeGet) =>
      if !Receives(Answered(t, timeGet), trn) {
        SentBefore(s.ops, MarkAnswered(t, status, timeGet), trn);
      }
    case Cleaning(from, to) => KeptIs(s.ops, (x: Operation) => !Settled(s.collects, from, to, x));
    case _ =>
  }

  lemma ConfirmedComesFrom(s: State, e: Event, c: Collection)
    requires c in Step(s, e).collects && c.status == Confirmed
    ensures c in s.collects || Closed(c.id) in NewEntries(s, e)
      || (exists d :: d in s.collects && d.status == Confirmed && d.id == c.id)
  {
    match e
    case Encashment(cid, date, uuid) => UpdatedHas(s.collects, MarkSent(Target(s, cid), date, uuid));
    case CollectionAnswer(id) => UpdatedHas(s.collects, MarkConfirmed(id));
    case Cleaning(from, to) => KeptIs(s.collects, (x: Collection) => !(x.status == Confirmed && from <= x.date <= to));
    case _ =>
  }

  lemma ExplainedStep(s: State, e: Event)
    requires Explained(s)
    ensures Explained(Step(s, e))
  {
    var r, more := Step(s, e), NewEntries(s, e);
    LogGrows(s, e);
    EntriesOfEvent(s, e);
    forall o | o in r.ops && o.sent ensures Received(r.log, o.trn) {
      SentComesFrom(s, e, o.trn);
      if HasSent(s.ops, o.trn) {
        assert HasTrn(s.ops, o.trn);
        ReceivedStays(s.log, more, o.trn);
      }
    }
    forall c | c in r.collects && c.status == Confirmed ensures Closed(c.id) in r.log {
      ConfirmedComesFrom(s, e, c);
    }
    JustifiedGrows(s.log, more);
  }

  lemma {:induction false} ExplainedEverywhere(es: seq<Event>)
    ensures Explained(Run(EMPTY, es))
    decreases |es|
  {
    if es == [] {
    } else {
      ExplainedEverywhere(es[..|es| - 1]);
      ExplainedStep(Run(EMPTY, es[..|es| - 1]), es[|es| - 1]);
    }
  }

  lemma {:induction false} NoCashOf(rs: seq<Record>, id: string)
    requires forall r :: r in rs ==> r.id != id
    ensures CashOf(rs, id) == 0
  {
    if rs == [] {
    } else {
      NoCashOf(rs[..|rs| - 1], id);
    }
  }

  /** Until the server confirms a collection, its total is all that was taken for it,
      whatever cleanings run. */
  lemma UnconfirmedTotalsSurvive(es: seq<Event>, id: string)
    requires Closed(id) !in Run(EMPTY, es).log
    ensures Total(Run(EMPTY, es).ops, id) == Taken(Run(EMPTY, es).log, id)
  {
    var log := Run(EMPTY, es).log;
    CashIsConserved(es, id);
    ExplainedEverywhere(es);
    StruckWasRemoved(log);
    KeptIs(Books(log), IsStruck);
    forall r | r in Kept(Books(log), IsStruck) ensures r.id != id {
      var k :| 0 <= k < |log| && log[k] == Removed(r.trn, r.id);
      assert JustifiedBy(log[..k], log[k]);
    }
    NoCashOf(Kept(Books(log), IsStruck), id);
  }

  // ---------------------------------------------------------------- every payment is accounted for

  predicate HasPayment(ops: seq<Operation>, trn: int, id: string) {
    exists o :: o in ops && o.trn == trn && o.collect == id
  }

  lemma UpdateKeepsPayment(ops: seq<Operation>, change: Operation -> Operation, trn: int, id: string)
    requires HasPayment(ops, trn, id) && forall o: Operation :: change(o).trn == o.trn && change(o).collect == o.collect
    ensures HasPayment(Mapped(ops, change), trn, id)
  {
    UpdatedHas(ops, change);
    var o :| o in ops && o.trn == trn && o.collect == id;
    assert change(o) in Mapped(ops, change);
  }

  predicate IsRemoval(x: Entry, trn: int, id: string) {
    x.Removed? && x.trn == trn && x.id == id
  }

  lemma PaymentSurvives(s: State, e: Event, trn: int, id: string)
    requires HasPayment(s.ops, trn, id) && !e.Cleaning?
    ensures HasPayment(Step(s, e).ops, trn, id)
  {
    match e
    case Amendment(t, cash, date) => UpdateKeepsPayment(s.ops, Amend(t, cash, date), trn, id);
    case Confirmation(t, printing) =>
      UpdateKeepsPayment(s.ops, MarkPrinted(t), trn, id);
      UpdateKeepsPayment(s.ops, MarkPaid(t), trn, id);
      UpdateKeepsPayment(Mapped(s.ops, MarkPaid(t)), MarkAllPaid(), trn, id);
    case UnconfirmedCheck => UpdateKeepsPayment(s.ops, MarkAllPaid(), trn, id);
    case SendTimeout => UpdateKeepsPayment(s.ops, MarkAllPaid(), trn, id);
    case ServerAnswer(t, status, timeGet) => UpdateKeepsPayment(s.ops, MarkAnswered(t, status, timeGet), trn, id);
    case _ =>
  }

  lemma CleaningLogs(s: State, from: int, to: int, trn: int, id: string)
    requires HasPayment(s.ops, trn, id)
    ensures HasPayment(Clear(s, from, to).ops, trn, id)
      || exists x :: x in NewEntries(s, Cleaning(from, to)) && IsRemoval(x, trn, id)
  {
    var o :| o in s.ops && o.trn == trn && o.collect == id;
    KeptIs(s.ops, (x: Operation) => !Settled(s.collects, from, to, x));
    RemovalsAre(s.ops, (x: Operation) => Settled(s.collects, from, to, x));
    if Settled(s.collects, from, to, o) {
      assert IsRemoval(Removed(o.trn, o.collect), trn, id);
    }
  }

  /** The booking at `k` is still a row of its collection, or was removed later. */
  ghost predicate Accounted(s: State, k: nat)
    requires k < |s.log| && s.log[k].Booked?
  {
    HasPayment(s.ops, s.log[k].trn, s.log[k].id) ||
    exists j :: k < j < |s.log| && IsRemoval(s.log[j], s.log[k].trn, s.log[k].id)
  }

  lemma AccountedStep(s: State, e: Event, k: nat)
    requires k < |Step(s, e).log| && Step(s, e).log[k].Booked?
    requires k < |s.log| && s.log[k].Booked? ==> Accounted(s, k)
    ensures Accounted(Step(s, e), k)
  {
    var r, more := Step(s, e), NewEntries(s, e);
    LogGrows(s, e);
    if k < |s.log| {
      var trn, id := s.log[k].trn, s.log[k].id;
      if HasPayment(s.ops, trn, id) {
        if e.Cleaning? {
          CleaningLogs(s, e.from, e.to, trn, id);
          if x :| x in more && IsRemoval(x, trn, id) {
            var j :| 0 <= j < |more| && more[j] == x;
            assert r.log[|s.log| + j] == x;
          }
        } else {
          PaymentSurvives(s, e, trn, id);
        }
      } else {
        var j :| k < j < |s.log| && IsRemoval(s.log[j], trn, id);
        assert r.log[j] == s.log[j];
      }
    } else {
      assert r.log[k] in more;
      EntriesOfEvent(s, e);
      assert e.Payment? && r.ops[|s.ops|] in r.ops;
    }
  }

  lemma {:induction false} AccountedEverywhere(es: seq<Event>, k: nat)
    requires k < |Run(EMPTY, es).log| && Run(EMPTY, es).log[k].Booked?
    ensures Accounted(Run(EMPTY, es), k)
    decreases |es|
  {
    if es == [] {
    } else {
      var before := Run(EMPTY, es[..|es| - 1]);
      LogGrows(before, es[|es| - 1]);
      if k < |before.log| {
        AccountedEverywhere(es[..|es| - 1], k);
      }
      AccountedStep(before, es[|es| - 1], k);
    }
  }

  /** The server received the payment at `i`, and confirmed its collection before the
      removal at `j`. */
  predicate SettledAt(log: seq<Entry>, i: nat, j: nat, trn: int, id: string)
    requires i < j < |log|
  {
    Receives(log[i], trn) && IsRemoval(log[j], trn, id) && Closed(id) in log[..j]
  }

  /** A payment that was taken is still in the table under its collection, or the server
      received it afterwards and confirmed its collection before it was removed. */
  lemma PaymentsAreAccountedFor(es: seq<Event>, k: nat)
    requires k < |Run(EMPTY, es).log| && Run(EMPTY, es).log[k].Booked?
    ensures
      var s := Run(EMPTY, es);
      var trn, id := s.log[k].trn, s.log[k].id;
      HasPayment(s.ops, trn, id) ||
      exists i, j :: k < i < j < |s.log| && SettledAt(s.log, i, j, trn, id)
  {
    var s := Run(EMPTY, es);
    var trn, id := s.log[k].trn, s.log[k].id;
    AccountedEverywhere(es, k);
    ExplainedEverywhere(es);
    if !HasPayment(s.ops, trn, id) {
      var j :| k < j < |s.log| && IsRemoval(s.log[j], trn, id);
      assert JustifiedBy(s.log[..j], s.log[j]);
      ReceivedMeans(s.log[..j], trn);
      var i :| 0 <= i < j && LastReceipt(s.log[..j], trn, i);
      assert s.log[..j][k] == s.log[k] && s.log[..j][i] == s.log[i];
      assert k != i;
      assert SettledAt(s.log, i, j, trn, id);
    }
  }
}
