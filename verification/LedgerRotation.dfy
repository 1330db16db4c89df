/** The rotation of collections: new, sent, confirmed, each linked to the one after it. */
module LedgerRotation {
  import opened Common
  import opened LedgerModel
  import opened LedgerSafety
  import opened LedgerBooks

  function NewIdOf(e: Event): Option<string> {
    match e
    case Registration(_, uuid) => Some(uuid)
    case Payment(_, _, _, uuid) => Some(uuid)
    case Encashment(_, _, uuid) => Some(uuid)
    case _ => None
  }

  /** The generated ids of a run are not empty and were never given to a collection before. */
  ghost predicate FreshIds(s: State, es: seq<Event>) {
    forall k :: 0 <= k < |es| ==> FreshAt(s, es, k)
  }

  predicate FreshAt(s: State, es: seq<Event>, k: nat)
    requires k < |es|
  {
    FreshId(Run(s, es[..k]), es[k])
  }

  predicate FreshId(s: State, e: Event) {
    NewIdOf(e).Some? ==> NewIdOf(e).value != "" && Opened(NewIdOf(e).value) !in s.log
  }

  /** Different ids, and different successors. */
  predicate Apart(a: Collection, b: Collection) {
    a.id != b.id && (a.next.Some? ==> a.next != b.next)
  }

  /** Every id and every successor was opened. */
  predicate Known(log: seq<Entry>, c: Collection) {
    c.id != "" && Opened(c.id) in log && (c.next.Some? ==> Opened(c.next.value) in log)
  }

  ghost predicate Rotation(s: State) {
    Pairwise(s.collects, Apart) && forall c :: c in s.collects ==> Known(s.log, c)
  }

  lemma OpenKeeps(s: State, date: int, uuid: string)
    requires Rotation(s) && uuid != "" && Opened(uuid) !in s.log
    ensures Rotation(Open(s, date, uuid))
  {
    PairwiseAppended(s.collects, Collection(uuid, date, New, None), Apart);
  }

  lemma EncashKeeps(s: State, id: string, date: int, uuid: string)
    requires Rotation(s) && uuid != "" && Opened(uuid) !in s.log
    ensures Rotation(Open(s.(collects := Mapped(s.collects, MarkSent(id, date, uuid))), date, uuid))
  {
    var marked := Mapped(s.collects, MarkSent(id, date, uuid));
    UpdatedHas(s.collects, MarkSent(id, date, uuid));
    PairwiseUpdated(s.collects, MarkSent(id, date, uuid), Apart);
    PairwiseAppended(marked, Collection(uuid, date, New, None), Apart);
  }

  lemma ConfirmKeeps(s: State, id: string)
    requires Rotation(s)
    ensures Rotation(ConfirmCollection(s, id))
  {
    UpdatedHas(s.collects, MarkConfirmed(id));
    PairwiseUpdated(s.collects, MarkConfirmed(id), Apart);
  }

  lemma ClearKeeps(s: State, from: int, to: int)
    requires Rotation(s)
    ensures Rotation(Clear(s, from, to))
  {
    KeptIs(s.collects, (c: Collection) => !(c.status == Confirmed && from <= c.date <= to));
    PairwiseKept(s.collects, (c: Collection) => !(c.status == Confirmed && from <= c.date <= to), Apart);
  }

  lemma RotationStep(s: State, e: Event)
    requires Rotation(s) && FreshId(s, e)
    ensures Rotation(Step(s, e))
  {
    LogGrows(s, e);
    match e
    case Registration(date, uuid) => OpenKeeps(s, date, uuid);
    case Payment(trn, cash, date, uuid) => OpenKeeps(s, date, uuid);
    case Encashment(cid, date, uuid) => EncashKeeps(s, Target(s, cid), date, uuid);
    case CollectionAnswer(id) => ConfirmKeeps(s, id);
    case Cleaning(from, to) => ClearKeeps(s, from, to);
    case _ =>
  }

  lemma {:induction false} RotationEverywhere(s: State, es: seq<Event>)
    requires Rotation(s) && FreshIds(s, es)
    ensures Rotation(Run(s, es))
    decreases |es|
  {
    if es == [] {
    } else {
      var n := |es| - 1;
      FreshPrefix(s, es);
      RotationEverywhere(s, es[..n]);
      RotationStep(Run(s, es[..n]), es[n]);
    }
  }

  lemma FreshPrefix(s: State, es: seq<Event>)
    requires FreshIds(s, es) && es != []
    ensures FreshIds(s, es[..|es| - 1]) && FreshId(Run(s, es[..|es| - 1]), es[|es| - 1])
  {
    var n := |es| - 1;
    assert FreshAt(s, es, n);
    forall k | 0 <= k < n ensures FreshAt(s, es[..n], k) {
      assert es[..n][..k] == es[..k] && FreshAt(s, es, k);
    }
  }

  // ---------------------------------------------------------------- one predecessor

  lemma OnePredecessor(s: State, c: Collection, id: string)
    requires Rotation(s) && c in s.collects && c.next == Some(id)
    ensures PreviousDate(s.collects, id) == Some(c.date)
    ensures forall d :: d in s.collects && d.next == Some(id) ==> d == c
  {
    forall d | d in s.collects && d.next == Some(id) ensures d == c {
      var i, j :| 0 <= i < |s.collects| && 0 <= j < |s.collects| && s.collects[i] == c && s.collects[j] == d;
    }
  }

  /** At any time a collection has at most one predecessor, so the date of the previous
      encashment is that of any row that names the collection as its successor. */
  lemma PredecessorIsUnique(es: seq<Event>, c: Collection, id: string)
    requires FreshIds(EMPTY, es)
    requires c in Run(EMPTY, es).collects && c.next == Some(id)
    ensures PreviousDate(Run(EMPTY, es).collects, id) == Some(c.date)
    ensures forall d :: d in Run(EMPTY, es).collects && d.next == Some(id) ==> d == c
  {
    RotationEverywhere(EMPTY, es);
    OnePredecessor(Run(EMPTY, es), c, id);
  }

  /** An encashment links its collection to the one it opens: the next receipt shows this
      encashment's date as the previous one. */
  lemma EncashmentLinks(s: State, cid: string, date: int, uuid: string)
    requires Rotation(s) && FreshId(s, Encashment(cid, date, uuid))
    requires HasOperations(s.ops, Target(s, cid)) && exists c :: c in s.collects && c.id == Target(s, cid)
    ensures PreviousDate(Encash(s, cid, date, uuid).collects, uuid) == Some(date)
    ensures Collection(uuid, date, New, None) in Encash(s, cid, date, uuid).collects
  {
    var c :| c in s.collects && c.id == Target(s, cid);
    var marked := MarkSent(c.id, date, uuid)(c);
    var r := Encash(s, cid, date, uuid);
    UpdatedHas(s.collects, MarkSent(c.id, date, uuid));
    assert marked in r.collects;
    RotationStep(s, Encashment(cid, date, uuid));
    OnePredecessor(r, marked, uuid);
    assert r.collects[|r.collects| - 1] == Collection(uuid, date, New, None);
  }

  // ---------------------------------------------------------------- at most one new

  predicate NotBothNew(a: Collection, b: Collection) {
    !(a.status == New && b.status == New)
  }

  ghost predicate OneNew(s: State) {
    Pairwise(s.collects, NotBothNew)
  }

  /** The guard an encashment would need: it finds no payment, or every new collection is
      the one it is about. */
  predicate TakesTheNewOne(s: State, cid: string) {
    !HasOperations(s.ops, Target(s, cid)) || forall c :: c in s.collects && c.status == New ==> c.id == Target(s, cid)
  }

  lemma OpenWhenNone(s: State, date: int, uuid: string)
    requires forall c :: c in s.collects ==> c.status != New
    ensures OneNew(Open(s, date, uuid))
  {}

  lemma NoCurrent(s: State)
    requires Rotation(s) && CurrentId(s.collects) == ""
    ensures forall c :: c in s.collects ==> c.status != New
  {}

  /** Every event but an encashment keeps at most one collection new. */
  lemma OthersKeepOneNew(s: State, e: Event)
    requires Rotation(s) && OneNew(s) && !e.Encashment?
    ensures OneNew(Step(s, e))
  {
    match e
    case Registration(date, uuid) =>
      if forall c :: c in s.collects ==> c.status != New {
        OpenWhenNone(s, date, uuid);
      }
    case Payment(trn, cash, date, uuid) =>
      if CurrentId(s.collects) == "" {
        NoCurrent(s);
        OpenWhenNone(s, date, uuid);
      }
    case CollectionAnswer(id) => PairwiseUpdated(s.collects, MarkConfirmed(id), NotBothNew);
    case Cleaning(from, to) =>
      PairwiseKept(s.collects, (c: Collection) => !(c.status == Confirmed && from <= c.date <= to), NotBothNew);
    case _ =>
  }

  /** An encashment keeps at most one collection new if and only if it passes the guard; with
      an explicit id, as a remote command gives it, nothing in the code checks that. */
  lemma EncashmentKeepsOneNewIff(s: State, cid: string, date: int, uuid: string)
    requires OneNew(s)
    ensures OneNew(Encash(s, cid, date, uuid)) <==> TakesTheNewOne(s, cid)
  {
    if HasOperations(s.ops, Target(s, cid)) {
      var marked := Mapped(s.collects, MarkSent(Target(s, cid), date, uuid));
      var r := Encash(s, cid, date, uuid);
      assert r.collects == marked + [Collection(uuid, date, New, None)];
      if TakesTheNewOne(s, cid) {
        PairwiseUpdated(s.collects, MarkSent(Target(s, cid), date, uuid), NotBothNew);
        UpdatedHas(s.collects, MarkSent(Target(s, cid), date, uuid));
        PairwiseAppended(marked, Collection(uuid, date, New, None), NotBothNew);
      } else {
        var c :| c in s.collects && c.status == New && c.id != Target(s, cid);
        var i :| 0 <= i < |s.collects| && s.collects[i] == c;
        assert r.collects[i] == c && !NotBothNew(r.collects[i], r.collects[|marked|]);
      }
    }
  }

  /** An encashment of the current collection passes the guard. */
  lemma CurrentPasses(s: State)
    requires OneNew(s)
    ensures TakesTheNewOne(s, "")
  {
    var first := First(s.collects, (c: Collection) => c.status == New);
    forall c | c in s.collects && c.status == New ensures c.id == CurrentId(s.collects) {
      var i, j :| 0 <= i < |s.collects| && 0 <= j < |s.collects| && s.collects[i] == c && s.collects[j] == first.value;
    }
  }

  ghost predicate HoldsAt(p: State -> bool, s: State, es: seq<Event>, k: nat)
    requires k <= |es|
  {
    p(Run(s, es[..k]))
  }

  ghost predicate Always(p: State -> bool, s: State, es: seq<Event>) {
    forall k :: 0 <= k <= |es| ==> HoldsAt(p, s, es, k)
  }

  ghost predicate AlwaysOneNew(s: State, es: seq<Event>) {
    Always(OneNew, s, es)
  }

  predicate PassesAt(s: State, es: seq<Event>, k: nat)
    requires k < |es|
  {
    es[k].Encashment? ==> TakesTheNewOne(Run(s, es[..k]), es[k].cid)
  }

  ghost predicate EncashmentsPass(s: State, es: seq<Event>) {
    forall k :: 0 <= k < |es| ==> PassesAt(s, es, k)
  }

  lemma OneNewStepIff(s: State, e: Event)
    requires Rotation(s) && OneNew(s)
    ensures OneNew(Step(s, e)) <==> (e.Encashment? ==> TakesTheNewOne(s, e.cid))
  {
    if e.Encashment? {
      EncashmentKeepsOneNewIff(s, e.cid, e.date, e.uuid);
    } else {
      OthersKeepOneNew(s, e);
    }
  }

  lemma PrefixAlways(p: State -> bool, s: State, es: seq<Event>)
    requires es != []
    ensures Always(p, s, es) <==> Always(p, s, es[..|es| - 1]) && p(Run(s, es))
  {
    var n := |es| - 1;
    assert es[..|es|] == es;
    forall k | 0 <= k <= n ensures HoldsAt(p, s, es[..n], k) == HoldsAt(p, s, es, k) {
      assert es[..n][..k] == es[..k];
    }
    assert HoldsAt(p, s, es, |es|) == p(Run(s, es));
  }

  lemma PrefixPasses(s: State, es: seq<Event>)
    requires es != []
    ensures EncashmentsPass(s, es) <==> EncashmentsPass(s, es[..|es| - 1]) && PassesAt(s, es, |es| - 1)
  {
    var n := |es| - 1;
    forall k | 0 <= k < n ensures PassesAt(s, es[..n], k) == PassesAt(s, es, k) {
      assert es[..n][..k] == es[..k];
    }
  }

  lemma LastHolds(p: State -> bool, s: State, es: seq<Event>)
    requires Always(p, s, es)
    ensures p(Run(s, es))
  {
    assert es[..|es|] == es && HoldsAt(p, s, es, |es|);
  }

  lemma FirstHolds(p: State -> bool, s: State)
    requires p(s)
    ensures Always(p, s, [])
  {
    assert forall es: seq<Event> :: es == [] ==> es[..0] == [];
  }

  /** Over a whole run at most one collection is ever new if and only if every encashment
      passed the guard when it happened. */
  lemma {:induction false} OneNewIff(s: State, es: seq<Event>)
    requires Rotation(s) && OneNew(s) && FreshIds(s, es)
    ensures AlwaysOneNew(s, es) <==> EncashmentsPass(s, es)
    decreases |es|
  {
    if es == [] {
      FirstHolds(OneNew, s);
    } else {
      var n := |es| - 1;
      FreshPrefix(s, es);
      OneNewIff(s, es[..n]);
      PrefixAlways(OneNew, s, es);
      PrefixPasses(s, es);
      if AlwaysOneNew(s, es[..n]) {
        RotationEverywhere(s, es[..n]);
        LastHolds(OneNew, s, es[..n]);
        OneNewStepIff(Run(s, es[..n]), es[n]);
      }
    }
  }

  /** When only the current collection is encashed, at most one collection is new. */
  lemma {:induction false} CurrentEncashmentsRotate(es: seq<Event>)
    requires FreshIds(EMPTY, es)
    requires forall e :: e in es && e.Encashment? ==> e.cid == ""
    ensures AlwaysOneNew(EMPTY, es)
    decreases |es|
  {
    if es == [] {
      FirstHolds(OneNew, EMPTY);
    } else {
      var n := |es| - 1;
      FreshPrefix(EMPTY, es);
      CurrentEncashmentsRotate(es[..n]);
      RotationEverywhere(EMPTY, es[..n]);
      LastHolds(OneNew, EMPTY, es[..n]);
      CurrentPasses(Run(EMPTY, es[..n]));
      OneNewStepIff(Run(EMPTY, es[..n]), es[n]);
      PrefixAlways(OneNew, EMPTY, es);
    }
  }

  /** A remote request to encash, again, a collection that was sent leaves two new ones. */
  lemma SecondNewCollection(s: State, cid: string, date: int, uuid: string, current: Collection)
    requires OneNew(s) && HasOperations(s.ops, cid) && cid != ""
    requires current in s.collects && current.status == New && current.id != cid
    ensures !OneNew(Encash(s, cid, date, uuid))
  {
    EncashmentKeepsOneNewIff(s, cid, date, uuid);
  }

  lemma RunOneMore(s: State, es: seq<Event>, e: Event)
    ensures Run(s, es + [e]) == Step(Run(s, es), e)
    ensures FreshIds(s, es) && FreshId(Run(s, es), e) ==> FreshIds(s, es + [e])
  {
    var all := es + [e];
    assert all[..|es|] == es;
    if FreshIds(s, es) && FreshId(Run(s, es), e) {
      forall k | 0 <= k < |all| ensures FreshAt(s, all, k) {
        if k < |es| {
          assert all[..k] == es[..k] && FreshAt(s, es, k);
        }
      }
    }
  }

  const PAYS := Payment(1, 100, 0, "a")
  const ENCASHES := Encashment("", 1, "b")
  const ENCASHES_AGAIN := Encashment("a", 2, "c")
  const PAID_IN := State([Operation(1, "a", 0, 100, CREATED, false, false)], [Collection("a", 0, New, None)], true,
                         [Opened("a"), Booked(1, "a", 100)])
  const ENCASHED := State(PAID_IN.ops, [Collection("a", 1, Sent, Some("b")), Collection("b", 1, New, None)], true,
                          PAID_IN.log + [Opened("b")])

  lemma PaysIn()
    ensures Step(EMPTY, PAYS) == PAID_IN
  {}

  lemma EncashesOnce()
    ensures Step(PAID_IN, ENCASHES) == ENCASHED
  {
    assert PAID_IN.ops[0] in PAID_IN.ops;
  }

  lemma EncashesTwice()
    ensures !OneNew(Step(ENCASHED, ENCASHES_AGAIN))
  {
    assert ENCASHED.ops[0] in ENCASHED.ops && ENCASHED.collects[1] in ENCASHED.collects;
    SecondNewCollection(ENCASHED, "a", 2, "c", ENCASHED.collects[1]);
  }

  const RUN_TO_ENCASHED := [] + [PAYS] + [ENCASHES]
  const RUN_TO_TWO := RUN_TO_ENCASHED + [ENCASHES_AGAIN]

  lemma RunToEncashed()
    ensures FreshIds(EMPTY, RUN_TO_ENCASHED) && Run(EMPTY, RUN_TO_ENCASHED) == ENCASHED
  {
    PaysIn();
    EncashesOnce();
    assert FreshId(PAID_IN, ENCASHES);
    RunOneMore(EMPTY, [], PAYS);
    RunOneMore(EMPTY, [] + [PAYS], ENCASHES);
  }

  lemma RunToTwo()
    ensures FreshIds(EMPTY, RUN_TO_TWO) && Run(EMPTY, RUN_TO_TWO) == Step(ENCASHED, ENCASHES_AGAIN)
  {
    RunToEncashed();
    assert FreshId(ENCASHED, ENCASHES_AGAIN);
    RunOneMore(EMPTY, RUN_TO_ENCASHED, ENCASHES_AGAIN);
  }

  /** Such a run exists: a payment, its encashment, and the same encashment by its id. */
  lemma SuchARunExists()
    ensures exists es :: FreshIds(EMPTY, es) && !OneNew(Run(EMPTY, es))
  {
    RunToTwo();
    EncashesTwice();
  }

  // ---------------------------------------------------------------- a sent collection is closed

  /** The collection was opened and is not new (any more). */
  ghost predicate Retired(s: State, id: string) {
    Opened(id) in s.log && forall c :: c in s.collects && c.id == id ==> c.status != New
  }

  function Tagged(ops: seq<Operation>, id: string): set<int> {
    set o | o in ops && o.collect == id :: o.trn
  }

  lemma RetiredStays(s: State, e: Event, id: string)
    requires Rotation(s) && FreshId(s, e) && Retired(s, id)
    ensures Retired(Step(s, e), id)
  {
    LogGrows(s, e);
    match e
    case Encashment(cid, date, uuid) => UpdatedHas(s.collects, MarkSent(Target(s, cid), date, uuid));
    case CollectionAnswer(closed) => UpdatedHas(s.collects, MarkConfirmed(closed));
    case Cleaning(from, to) => KeptIs(s.collects, (c: Collection) => !(c.status == Confirmed && from <= c.date <= to));
    case _ =>
  }

  lemma UpdateKeepsTags(ops: seq<Operation>, change: Operation -> Operation, id: string)
    requires forall o: Operation :: change(o).trn == o.trn && change(o).collect == o.collect
    ensures Tagged(Mapped(ops, change), id) == Tagged(ops, id)
  {
    UpdatedHas(ops, change);
    forall t | t in Tagged(ops, id) ensures t in Tagged(Mapped(ops, change), id) {
      var o :| o in ops && o.collect == id && o.trn == t;
      assert change(o) in Mapped(ops, change);
    }
  }

  /** Every payment taken goes to a collection that is new at that moment. */
  lemma PaymentsGoToNew(s: State, trn: int, cash: int, date: int, uuid: string)
    requires Rotation(s) && !HasTrn(s.ops, trn)
    ensures
      var r := NewPay(s, trn, cash, date, uuid);
      && |r.ops| == |s.ops| + 1 && r.ops[..|s.ops|] == s.ops && r.ops[|s.ops|].status == CREATED
      && exists c :: c in r.collects && c.id == r.ops[|s.ops|].collect && c.status == New
  {
    var r := NewPay(s, trn, cash, date, uuid);
    if CurrentId(s.collects) == "" {
      assert r.collects[|s.collects|] == Collection(uuid, date, New, None);
    } else {
      var current := First(s.collects, (c: Collection) => c.status == New);
      assert current.value in r.collects;
    }
  }

  lemma TagsDoNotGrow(s: State, e: Event, id: string)
    requires Rotation(s) && FreshId(s, e) && Retired(s, id)
    ensures Tagged(Step(s, e).ops, id) <= Tagged(s.ops, id)
  {
    match e
    case Payment(trn, cash, date, uuid) =>
      if !HasTrn(s.ops, trn) {
        PaymentsGoToNew(s, trn, cash, date, uuid);
        RetiredStays(s, e, id);
      }
    case Amendment(t, cash, date) => UpdateKeepsTags(s.ops, Amend(t, cash, date), id);
    case Confirmation(t, printing) =>
      UpdateKeepsTags(s.ops, MarkPrinted(t), id);
      UpdateKeepsTags(s.ops, MarkPaid(t), id);
      UpdateKeepsTags(Mapped(s.ops, MarkPaid(t)), MarkAllPaid(), id);
    case UnconfirmedCheck => UpdateKeepsTags(s.ops, MarkAllPaid(), id);
    case SendTimeout => UpdateKeepsTags(s.ops, MarkAllPaid(), id);
    case ServerAnswer(t, status, timeGet) => UpdateKeepsTags(s.ops, MarkAnswered(t, status, timeGet), id);
    case Cleaning(from, to) => KeptIs(s.ops, (o: Operation) => !Settled(s.collects, from, to, o));
    case _ =>
  }

  /** Once a collection is sent, no payment is ever added to it, even after its row is gone
      and whatever is encashed. */
  lemma {:induction false} SentCollectionsAreClosed(s: State, es: seq<Event>, id: string)
    requires Rotation(s) && FreshIds(s, es) && Retired(s, id)
    ensures Tagged(Run(s, es).ops, id) <= Tagged(s.ops, id) && Retired(Run(s, es), id)
    decreases |es|
  {
    if es == [] {
    } else {
      var n := |es| - 1;
      FreshPrefix(s, es);
      SentCollectionsAreClosed(s, es[..n], id);
      RotationEverywhere(s, es[..n]);
      TagsDoNotGrow(Run(s, es[..n]), es[n], id);
      RetiredStays(Run(s, es[..n]), es[n], id);
    }
  }
}
