/** Which command a positive reply to a confirmation request confirms. */
module CommandReplies {
  import opened Common
  import opened CommandModel
  import opened CommandProgress

  /** The command in the request that went out last. */
  function Requested(log: seq<Entry>): Option<string> {
    if log == [] then None
    else match log[|log| - 1]
      case ConfirmationAsked(trn, true) => Some(trn)
      case Restarted => None
      case _ => Requested(log[..|log| - 1])
  }

  /** The command that was asked about last since then, and whose request was dropped. */
  function Dropped(log: seq<Entry>): Option<string> {
    if log == [] then None
    else match log[|log| - 1]
      case ConfirmationAsked(trn, sent) => if sent then None else Some(trn)
      case Restarted => None
      case _ => Dropped(log[..|log| - 1])
  }

  function AskedLast(log: seq<Entry>): Option<string> {
    if Dropped(log).Some? then Dropped(log) else Requested(log)
  }

  predicate ReplyJustified(log: seq<Entry>, e: Entry) {
    e.Acknowledged? ==> Requested(log) == Some(e.answered) && AskedLast(log) == Some(e.confirmed)
  }

  predicate RepliesJustified(log: seq<Entry>) {
    forall p :: 0 <= p < |log| ==> ReplyJustified(log[..p], log[p])
  }

  predicate Tracked(q: Queue) {
    q.confirmTrn == AskedLast(q.log) && (q.inFlight.Some? ==> q.inFlight == Requested(q.log)) &&
    RepliesJustified(q.log)
  }

  lemma TrackedNote(log: seq<Entry>, e: Entry)
    requires RepliesJustified(log) && ReplyJustified(log, e)
    ensures RepliesJustified(log + [e])
    ensures !e.ConfirmationAsked? && !e.Restarted? ==>
      Requested(log + [e]) == Requested(log) && Dropped(log + [e]) == Dropped(log)
    ensures e.ConfirmationAsked? ==>
      Requested(log + [e]) == (if e.sent then Some(e.trn) else Requested(log)) &&
      Dropped(log + [e]) == if e.sent then None else Some(e.trn)
    ensures e.Restarted? ==> Requested(log + [e]) == None && Dropped(log + [e]) == None
  {
    assert (log + [e])[..|log|] == log;
    forall p | 0 <= p < |log + [e]| ensures ReplyJustified((log + [e])[..p], (log + [e])[p]) {
      assert (log + [e])[..p] == log[..p];
      assert log[..|log|] == log;
    }
  }

  lemma {:induction false} TrackedArrivals(q: Queue, orders: seq<Order>)
    requires Tracked(q)
    ensures Tracked(StoreAll(q, orders))
    decreases |orders|
  {
    if orders == [] {
    } else {
      TrackedNote(q.log, Stored(orders[0].trn, orders[0].cmd));
      TrackedArrivals(StoreOne(q, orders[0]), orders[1..]);
    }
  }

  lemma TrackedSend(q: Queue, trn: string)
    requires Tracked(q)
    ensures Tracked(SendConfirmation(q, trn))
  {
    TrackedNote(q.log, ConfirmationAsked(trn, q.inFlight.None?));
  }

  lemma TrackedArm(q: Queue, i: nat)
    requires Tracked(q) && i < |q.rows|
    ensures Tracked(Arm(q, i))
  {
    TrackedNote(q.log, Armed(q.rows[i].trn));
  }

  lemma TrackedAsk(q: Queue, i: nat)
    requires Tracked(q) && i < |q.rows|
    ensures Tracked(AskConfirmation(q, i))
  {
    TrackedSend(q.(rows := WithStatus(q.rows, q.rows[i].trn, Confirming)), q.rows[i].trn);
  }

  lemma TrackedCheck(q: Queue, busy: bool)
    requires Tracked(q)
    ensures Tracked(Check(q, busy))
  {
    var a := Active(q.rows);
    if !busy && a.Some? && q.rows[a.value].trn != "" {
      match q.rows[a.value].status
      case Arrived => TrackedArm(q, a.value);
      case Executed => TrackedAsk(q, a.value);
      case _ =>
    }
  }

  lemma TrackedStep(q: Queue, e: Event)
    requires Tracked(q)
    ensures Tracked(Step(q, e))
  {
    match e
    case FromServer(orders, busy) => TrackedArrivals(q, orders);
    case CheckTick(busy) => TrackedCheck(q, busy);
    case ExecTick(onMainPage) =>
      var done := if q.cmdMeta.Some? then Dispatched(q.cmdMeta.value.trn, q.cmdExec) else DispatchedLocally(q.cmdExec);
      TrackedNote(q.log, done);
    case Replied(positive) =>
      if q.inFlight.Some? && q.confirmTrn.Some? {
        TrackedNote(q.log, Acknowledged(q.inFlight.value, q.confirmTrn.value));
      }
    case RepeatTimeout =>
      if q.confirmTrn.Some? {
        TrackedSend(q, q.confirmTrn.value);
      }
    case RebootWanted => TrackedNote(q.log, LocalRequest);
    case ProgramRestart => TrackedNote(q.log, Restarted);
  }

  lemma {:induction false} TrackedRun(q: Queue, es: seq<Event>)
    requires Tracked(q)
    ensures Tracked(Run(q, es))
    decreases |es|
  {
    if es == [] {
    } else {
      TrackedStep(q, es[0]);
      TrackedRun(Step(q, es[0]), es[1..]);
    }
  }

  /** Over every run the command that a positive reply confirms is the one that the reply answers
      if and only if no other command was asked about last, and its request dropped, while the
      request was in flight. */
  lemma AnsweredIsConfirmedIff(es: seq<Event>, p: nat)
    requires p < |Run(NEW_TERMINAL, es).log| && Run(NEW_TERMINAL, es).log[p].Acknowledged?
    ensures
      var log := Run(NEW_TERMINAL, es).log;
      Requested(log[..p]) == Some(log[p].answered) &&
      (log[p].confirmed == log[p].answered <==> Dropped(log[..p]) in {None, Some(log[p].answered)})
  {
    TrackedRun(NEW_TERMINAL, es);
    var log := Run(NEW_TERMINAL, es).log;
    assert ReplyJustified(log[..p], log[p]);
  }

  // ---------------------------------------------------------------- a run

  // Two commands that are executed on the main page, the second one with the smaller number.
  const FIRST := Order("2", 6, "", "")
  const SECOND := Order("1", 6, "", "")

  function RowOf(o: Order, status: Status): Row {
    Row(o.trn, o.cmd, o.account, o.comment, status)
  }

  const HANDLED := [CheckTick(false), ExecTick(true), CheckTick(false)]

  predicate Idle(q: Queue) {
    q.checkTimer && q.cmdMeta.None? && q.tryCount == 0
  }

  /** The active command, if it has just arrived, is executed and asked about in three ticks. */
  lemma HandledInThree(q: Queue, i: nat)
    requires i < |q.rows| && q.rows[i].status == Arrived && q.rows[i].trn != "" && q.checkTimer
    requires forall status :: status != Confirmed ==> Active(WithStatus(q.rows, q.rows[i].trn, status)) == Some(i)
    requires Active(q.rows) == Some(i)
    ensures
      var r, trn := Run(q, HANDLED), q.rows[i].trn;
      r.rows == WithStatus(q.rows, trn, Confirming) && r.checkTimer && r.confirmTrn == Some(trn) &&
      r.inFlight == (if q.inFlight.Some? then q.inFlight else Some(trn)) && q.log <= r.log
  {
    var trn := q.rows[i].trn;
    var q1 := Step(q, CheckTick(false));
    var q2 := Step(q1, ExecTick(true));
    assert q2.rows == WithStatus(q.rows, trn, Executed);
    var q3 := Step(q2, CheckTick(false));
    assert q3.rows == WithStatus(q.rows, trn, Confirming);
    assert HANDLED[1..] == [ExecTick(true), CheckTick(false)];
    assert [ExecTick(true), CheckTick(false)][1..] == [CheckTick(false)] && [CheckTick(false)][1..] == [];
    assert Run(q1, [ExecTick(true), CheckTick(false)]) == Run(q2, [CheckTick(false)]) == q3;
  }

  lemma OneRowActive(status: Status)
    requires status != Confirmed
    ensures Active([RowOf(FIRST, status)]) == Some(0)
  {
    assert [RowOf(FIRST, status)][..0] == [];
  }

  lemma TwoRowsActive(status: Status)
    requires status != Confirmed
    ensures Active([RowOf(FIRST, Confirming), RowOf(SECOND, status)]) == Some(1)
  {
    var rows := [RowOf(FIRST, Confirming), RowOf(SECOND, status)];
    assert rows[..1] == [RowOf(FIRST, Confirming)];
    OneRowActive(Confirming);
  }

  lemma FirstIsAskedAbout()
    ensures
      var r := Run(NEW_TERMINAL, [FromServer([FIRST], false)] + HANDLED);
      r.rows == [RowOf(FIRST, Confirming)] && r.checkTimer && r.confirmTrn == Some("2") && r.inFlight == Some("2")
  {
    var q := Step(NEW_TERMINAL, FromServer([FIRST], false));
    assert StoreAll(NEW_TERMINAL, [FIRST]) == StoreOne(NEW_TERMINAL, FIRST);
    assert q.rows == [RowOf(FIRST, Arrived)];
    forall status | status != Confirmed ensures WithStatus(q.rows, "2", status) == [RowOf(FIRST, status)] {}
    forall status | status != Confirmed ensures Active(WithStatus(q.rows, "2", status)) == Some(0) {
      OneRowActive(status);
    }
    OneRowActive(Arrived);
    HandledInThree(q, 0);
    assert ([FromServer([FIRST], false)] + HANDLED)[1..] == HANDLED;
  }

  lemma SecondIsAskedAbout(q: Queue)
    requires q.rows == [RowOf(FIRST, Confirming)] && q.checkTimer && q.inFlight == Some("2")
    ensures
      var r := Run(q, [FromServer([SECOND], false)] + HANDLED);
      r.rows == [RowOf(FIRST, Confirming), RowOf(SECOND, Confirming)] &&
      r.confirmTrn == Some("1") && r.inFlight == Some("2")
  {
    var s := Step(q, FromServer([SECOND], false));
    assert StoreAll(q, [SECOND]) == StoreOne(q, SECOND);
    assert s.rows == [RowOf(FIRST, Confirming), RowOf(SECOND, Arrived)];
    forall status ensures WithStatus(s.rows, "1", status) == [RowOf(FIRST, Confirming), RowOf(SECOND, status)] {}
    forall status | status != Confirmed ensures Active(WithStatus(s.rows, "1", status)) == Some(1) {
      TwoRowsActive(status);
    }
    TwoRowsActive(Arrived);
    HandledInThree(s, 1);
    assert ([FromServer([SECOND], false)] + HANDLED)[1..] == HANDLED;
  }

  const OVERTAKEN := ([FromServer([FIRST], false)] + HANDLED) + ([FromServer([SECOND], false)] + HANDLED)

  /** A run in which the reply about one command confirms another, about which no request was
      ever sent, while the command that was answered stays unconfirmed. */
  lemma AnotherIsConfirmed()
    ensures
      var q := Run(NEW_TERMINAL, OVERTAKEN + [Replied(true)]);
      q.rows == [RowOf(FIRST, Confirming), RowOf(SECOND, Confirmed)] &&
      q.log != [] && q.log[|q.log| - 1] == Acknowledged("2", "1")
  {
    FirstIsAskedAbout();
    var q := Run(NEW_TERMINAL, [FromServer([FIRST], false)] + HANDLED);
    SecondIsAskedAbout(q);
    RunAppends(NEW_TERMINAL, [FromServer([FIRST], false)] + HANDLED, [FromServer([SECOND], false)] + HANDLED);
    var r := Run(NEW_TERMINAL, OVERTAKEN);
    RunAppends(NEW_TERMINAL, OVERTAKEN, [Replied(true)]);
    assert [Replied(true)][1..] == [] && Run(r, [Replied(true)]) == ConfirmReply(r, true);
    assert WithStatus(r.rows, "1", Confirmed) == [RowOf(FIRST, Confirming), RowOf(SECOND, Confirmed)];
  }
}
