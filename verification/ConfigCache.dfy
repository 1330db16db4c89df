/** The terminal's configuration: a document is either walked in full, or, when its hash is
    the one stored with the last full parse, walked for its changing fields only and
    completed from the stored row. */
module ConfigModel {
  import opened Common

  datatype Node =
    | Element(tag: string, attrs: map<string, string>, children: seq<Node>)
    | Text(data: string)
    | OtherNode

  /** The fifteen fields of the terminal information that both walks or the stored row fill. */
  datatype Field =
    | Balance | Overdraft | Threshold | Hash | ActiveFlag | ServerTime | CoinAcceptor
    | IdAgent | NameAgent | InnAgent | PhoneAgent | HashXml | PathName | UsdCource | Address

  type Info = map<Field, string>

  /** `text()`: the text below an element, in document order. */
  function TextOf(ns: seq<Node>): string
    decreases ns
  {
    if ns == [] then ""
    else
      (match ns[0]
       case Element(_, _, children) => TextOf(children)
       case Text(data) => data
       case OtherNode => "")
      + TextOf(ns[1..])
  }

  function Attribute(attrs: map<string, string>, name: string): string {
    if name in attrs then attrs[name] else ""
  }

  function Unquoted(s: string): string {
    Without(Without(s, '\''), '"')
  }

  const REJECTING: set<string> := {"150", "151", "245", "11", "12", "133", "14"}

  predicate Rejects(tag: string, children: seq<Node>) {
    tag == "resultCode" && TextOf(children) in REJECTING
  }

  /** The fields a stored row can give; the others change with every response. */
  predicate IsStatic(k: Field) {
    k.IdAgent? || k.NameAgent? || k.InnAgent? || k.PhoneAgent? ||
    k.HashXml? || k.PathName? || k.UsdCource? || k.Address?
  }

  /** The changing fields an element sets. */
  function Changing(tag: string, children: seq<Node>, parent: string): Info {
    if tag == "balance" then map[Balance := TextOf(children)]
    else if tag == "overdraft" then map[Overdraft := TextOf(children)]
    else if tag == "threshold" then map[Threshold := TextOf(children)]
    else if tag == "hash" then map[Hash := TextOf(children)]
    else if tag == "active" then map[ActiveFlag := TextOf(children)]
    else if tag == "server_time" then map[ServerTime := TextOf(children)]
    else if tag == "coin_acceptor" && parent == "devices" then map[CoinAcceptor := TextOf(children)]
    else map[]
  }

  function AgentFields(tag: string, children: seq<Node>): Info {
    if tag == "id_agent" then map[IdAgent := TextOf(children)]
    else if tag == "name" then map[NameAgent := Unquoted(TextOf(children))]
    else if tag == "inn" then map[InnAgent := TextOf(children)]
    else if tag == "phone" then map[PhoneAgent := Unquoted(TextOf(children))]
    else map[]
  }

  function PlaceFields(tag: string, attrs: map<string, string>, children: seq<Node>): Info {
    if tag == "hash_conf" then map[HashXml := TextOf(children), PathName := Attribute(attrs, "p")]
    else if tag == "currency_usd" then map[UsdCource := TextOf(children)]
    else if tag == "address" then map[Address := Unquoted(TextOf(children))]
    else map[]
  }

  /** The static fields an element sets. */
  function Static(tag: string, attrs: map<string, string>, children: seq<Node>): Info {
    AgentFields(tag, children) + PlaceFields(tag, attrs, children)
  }

  /** Where a walk stands: the fields read, whether the request still counts as accepted, the
      providers met, and how many the document announced. */
  datatype Walk = Walk(info: Info, accepted: bool, listed: nat, announced: nat)

  const START := Walk(map[], true, 0, 0)

  /** What a walk takes from one element. */
  type Taker = (Walk, string, map<string, string>, seq<Node>, string) -> Walk

  /** The walk over the siblings `ns` below `parent`, in document order. A rejecting result
      code ends the walk of its own level only. */
  function WalkWith(take: Taker, ns: seq<Node>, parent: string, w: Walk): Walk
    decreases ns
  {
    if ns == [] then w
    else match ns[0]
      case Element(tag, attrs, children) =>
        if Rejects(tag, children) then w.(accepted := false)
        else WalkWith(take, ns[1..], parent, WalkWith(take, children, tag, take(w, tag, attrs, children, parent)))
      case _ => WalkWith(take, ns[1..], parent, w)
  }

  /** What `parcerHash` takes from one element. */
  function TakeChanging(w: Walk, tag: string, attrs: map<string, string>, children: seq<Node>, parent: string): Walk {
    w.(info := w.info + Changing(tag, children, parent))
  }

  /** What `parseNode` takes from one element. */
  function TakeAll(w: Walk, tag: string, attrs: map<string, string>, children: seq<Node>, parent: string): Walk {
    w.(info := w.info + (Changing(tag, children, parent) + Static(tag, attrs, children)),
       announced := if tag == "providers" then |children| else w.announced,
       listed := if tag == "prv" then w.listed + 1 else w.listed)
  }

  /** `parcerHash`. */
  function HashWalk(doc: seq<Node>, w: Walk): Walk {
    WalkWith(TakeChanging, doc, "", w)
  }

  /** `parseNode`. */
  function FullWalk(doc: seq<Node>, w: Walk): Walk {
    WalkWith(TakeAll, doc, "", w)
  }

  // A missing field reads as an empty string.
  function Read(info: Info, key: Field): string {
    if key in info then info[key] else ""
  }

  /** The stored row; the columns that are only written are left out. */
  datatype Extra = Extra(idAgent: string, name: string, inn: string, phone: string, hash: string,
                         hashConf: string, currencyUsd: string, address: string, path: string)

  /** `insertTerminalExtra`. */
  function StoredExtra(info: Info): Extra {
    Extra(Read(info, IdAgent), Read(info, NameAgent), Read(info, InnAgent), Read(info, PhoneAgent),
          Read(info, Hash), Read(info, HashXml), Read(info, UsdCource), Read(info, Address), Read(info, PathName))
  }

  /** `getTerminalExtra`. */
  function WithExtra(info: Info, x: Extra): Info {
    info + map[IdAgent := x.idAgent, NameAgent := x.name, InnAgent := x.inn, PhoneAgent := x.phone,
               HashXml := x.hashConf, UsdCource := x.currencyUsd, Address := x.address, PathName := x.path]
  }

  /** What is stored between two responses: the number of services and the row. */
  datatype Store = Store(services: nat, extra: Option<Extra>)

  const EMPTY_STORE := Store(0, None)

  predicate HashMatches(store: Store, info: Info) {
    Hash in info && info[Hash] == (if store.extra.Some? then store.extra.value.hash else "")
  }

  /** A response: its document, and whether saving the services succeeds. */
  datatype Response = Response(doc: seq<Node>, saves: bool)

  /** The full parse, after whatever was read before it. */
  function ParseFully(r: Response, before: Walk): (Store, Option<Info>) {
    var w := FullWalk(r.doc, before.(listed := 0));
    if !w.accepted then (EMPTY_STORE, None)
    else if w.listed == w.announced then
      (Store(if r.saves then w.listed else 0, Some(StoredExtra(w.info))), Some(w.info))
    else (EMPTY_STORE, Some(w.info))
  }

  /** `setDataNote`: the new store, and the terminal information sent on, if any. */
  function Handle(store: Store, r: Response): (Store, Option<Info>) {
    if store.services == 0 then ParseFully(r, START)
    else
      var h := HashWalk(r.doc, START);
      if HashMatches(store, h.info) then
        (store, if h.accepted
                then Some(if store.extra.Some? then WithExtra(h.info, store.extra.value) else h.info)
                else None)
      else if h.accepted then ParseFully(r, h)
      else (store, None)
  }

  /** What is sent on for the last of several responses. */
  function StoreAfter(store: Store, rs: seq<Response>): Store
    decreases |rs|
  {
    if rs == [] then store else Handle(StoreAfter(store, rs[..|rs| - 1]), rs[|rs| - 1]).0
  }

  /** What is sent on when there is no cache at all. */
  function Uncached(doc: seq<Node>): Option<Info> {
    var w := FullWalk(doc, START);
    if w.accepted then Some(w.info) else None
  }

  // ---------------------------------------------------------------- the walks as folds

  /** An element's fields override what was read before, and nothing else it does depends on it. */
  ghost predicate Overlays(take: Taker) {
    forall w: Walk, tag: string, attrs: map<string, string>, children: seq<Node>, parent: string, info: Info ::
      var r, v := take(w, tag, attrs, children, parent), take(w.(info := info), tag, attrs, children, parent);
      r.(info := map[]) == v.(info := map[]) && (info == map[] ==> r.info == w.info + v.info)
  }

  /** Acceptance and the counts do not depend on what was read before. */
  lemma {:induction false} WalkIgnoresInfo(take: Taker, ns: seq<Node>, parent: string, w: Walk, info: Info)
    requires Overlays(take)
    ensures WalkWith(take, ns, parent, w).(info := map[])
      == WalkWith(take, ns, parent, w.(info := info)).(info := map[])
    decreases ns
  {
    if ns == [] {
    } else {
      match ns[0]
      case Element(tag, attrs, children) =>
        if !Rejects(tag, children) {
          var w1, v1 := take(w, tag, attrs, children, parent), take(w.(info := info), tag, attrs, children, parent);
          assert v1 == w1.(info := v1.info);
          WalkIgnoresInfo(take, children, tag, w1, v1.info);
          var w2, v2 := WalkWith(take, children, tag, w1), WalkWith(take, children, tag, v1);
          assert v2 == w2.(info := v2.info);
          WalkIgnoresInfo(take, ns[1..], parent, w2, v2.info);
        }
      case _ => WalkIgnoresInfo(take, ns[1..], parent, w, info);
    }
  }

  /** A walk reads its document's fields over what was read before. */
  lemma {:induction false} WalkOverlays(take: Taker, ns: seq<Node>, parent: string, w: Walk)
    requires Overlays(take)
    ensures WalkWith(take, ns, parent, w).info == w.info + WalkWith(take, ns, parent, w.(info := map[])).info
    decreases ns
  {
    if ns == [] {
    } else {
      match ns[0]
      case Element(tag, attrs, children) =>
        if !Rejects(tag, children) {
          var w1 := take(w, tag, attrs, children, parent);
          var v1 := take(w.(info := map[]), tag, attrs, children, parent);
          var w2, v2 := WalkWith(take, children, tag, w1), WalkWith(take, children, tag, v1);
          WalkOverlays(take, children, tag, w1);
          WalkOverlays(take, children, tag, v1);
          WalkIgnoresInfo(take, children, tag, w1, v1.info);
          assert w1.info == w.info + v1.info;
          assert w1.(info := map[]) == v1.(info := map[]) && v1 == w1.(info := v1.info);
          var c := WalkWith(take, children, tag, v1.(info := map[])).info;
          assert w.info + v1.info + c == w.info + (v1.info + c);
          assert w2.info == w.info + v2.info && w2.(info := map[]) == v2.(info := map[]);
          WalkOverlays(take, ns[1..], parent, w2);
          WalkOverlays(take, ns[1..], parent, v2);
          var t := WalkWith(take, ns[1..], parent, w2.(info := map[])).info;
          assert w.info + v2.info + t == w.info + (v2.info + t);
        }
      case _ => WalkOverlays(take, ns[1..], parent, w);
    }
  }

  lemma TakeAllOverlays()
    ensures Overlays(TakeAll)
  {
    forall w: Walk, tag: string, attrs: map<string, string>, children: seq<Node>, parent: string, info: Info
      ensures
        var r, v := TakeAll(w, tag, attrs, children, parent), TakeAll(w.(info := info), tag, attrs, children, parent);
        r.(info := map[]) == v.(info := map[]) && (info == map[] ==> r.info == w.info + v.info)
    {
      var fields := Changing(tag, children, parent) + Static(tag, attrs, children);
      assert map[] + fields == fields;
    }
  }

  predicate SameField(a: Info, b: Info, key: Field) {
    (key in a <==> key in b) && (key in a ==> a[key] == b[key])
  }

  /** Two walks agree on every changing field and on acceptance. */
  ghost predicate Agree(h: Walk, f: Walk) {
    h.accepted == f.accepted && forall k :: !IsStatic(k) ==> SameField(h.info, f.info, k)
  }

  ghost predicate TakersAgree(a: Taker, b: Taker) {
    forall h: Walk, f: Walk, tag: string, attrs: map<string, string>, children: seq<Node>, parent: string ::
      Agree(h, f) ==> Agree(a(h, tag, attrs, children, parent), b(f, tag, attrs, children, parent))
  }

  lemma {:induction false} WalksAgree(a: Taker, b: Taker, ns: seq<Node>, parent: string, h: Walk, f: Walk)
    requires TakersAgree(a, b) && Agree(h, f)
    ensures Agree(WalkWith(a, ns, parent, h), WalkWith(b, ns, parent, f))
    decreases ns
  {
    if ns == [] {
    } else {
      match ns[0]
      case Element(tag, attrs, children) =>
        if !Rejects(tag, children) {
          var h1, f1 := a(h, tag, attrs, children, parent), b(f, tag, attrs, children, parent);
          assert Agree(h1, f1);
          WalksAgree(a, b, children, tag, h1, f1);
          WalksAgree(a, b, ns[1..], parent, WalkWith(a, children, tag, h1), WalkWith(b, children, tag, f1));
        }
      case _ => WalksAgree(a, b, ns[1..], parent, h, f);
    }
  }

  lemma FieldsOfTag(tag: string, attrs: map<string, string>, children: seq<Node>, parent: string)
    ensures forall k :: k in Changing(tag, children, parent) ==> !IsStatic(k)
    ensures forall k :: k in Static(tag, attrs, children) ==> IsStatic(k)
  {}

  lemma TheTakersAgree()
    ensures TakersAgree(TakeChanging, TakeAll)
  {
    forall h: Walk, f: Walk, tag: string, attrs: map<string, string>, children: seq<Node>, parent: string | Agree(h, f)
      ensures Agree(TakeChanging(h, tag, attrs, children, parent), TakeAll(f, tag, attrs, children, parent))
    {
      FieldsOfTag(tag, attrs, children, parent);
      AgreeOver(h, f, Changing(tag, children, parent), Static(tag, attrs, children));
    }
  }

  lemma AgreeOver(h: Walk, f: Walk, changing: Info, fixed: Info)
    requires Agree(h, f) && forall k :: k in fixed ==> IsStatic(k)
    ensures forall k :: !IsStatic(k) ==> SameField(h.info + changing, f.info + (changing + fixed), k)
  {
    forall k | !IsStatic(k) ensures SameField(h.info + changing, f.info + (changing + fixed), k) {
      assert SameField(h.info, f.info, k);
    }
  }

  /** The hash walk reads no static field and counts nothing. */
  ghost predicate ChangingOnly(w: Walk, r: Walk) {
    r.listed == w.listed && r.announced == w.announced && forall k :: IsStatic(k) ==> SameField(w.info, r.info, k)
  }

  lemma {:induction false} HashWalkReadsChanging(ns: seq<Node>, parent: string, w: Walk)
    ensures ChangingOnly(w, WalkWith(TakeChanging, ns, parent, w))
    decreases ns
  {
    if ns == [] {
    } else {
      match ns[0]
      case Element(tag, attrs, children) =>
        if !Rejects(tag, children) {
          var w1 := TakeChanging(w, tag, attrs, children, parent);
          FieldsOfTag(tag, attrs, children, parent);
          ChangingAdds(w, Changing(tag, children, parent));
          HashWalkReadsChanging(children, tag, w1);
          var w2 := WalkWith(TakeChanging, children, tag, w1);
          HashWalkReadsChanging(ns[1..], parent, w2);
          ChangingOnlyTransitive(w, w1, w2);
          ChangingOnlyTransitive(w, w2, WalkWith(TakeChanging, ns[1..], parent, w2));
        }
      case _ => HashWalkReadsChanging(ns[1..], parent, w);
    }
  }

  lemma ChangingAdds(w: Walk, changing: Info)
    requires forall k :: k in changing ==> !IsStatic(k)
    ensures ChangingOnly(w, w.(info := w.info + changing))
  {}

  lemma ChangingOnlyTransitive(a: Walk, b: Walk, c: Walk)
    requires ChangingOnly(a, b) && ChangingOnly(b, c)
    ensures ChangingOnly(a, c)
  {
    forall k | IsStatic(k) ensures SameField(a.info, c.info, k) {
      assert SameField(a.info, b.info, k) && SameField(b.info, c.info, k);
    }
  }

  lemma HashAndFullAgree(doc: seq<Node>)
    ensures Agree(HashWalk(doc, START), FullWalk(doc, START))
  {
    TheTakersAgree();
    WalksAgree(TakeChanging, TakeAll, doc, "", START, START);
  }

  /** A full parse that follows an accepted hash walk of the same document reads what a full
      parse from nothing reads. */
  lemma FullAfterHash(doc: seq<Node>)
    requires HashWalk(doc, START).accepted
    ensures FullWalk(doc, HashWalk(doc, START).(listed := 0)) == FullWalk(doc, START)
  {
    var h, f := HashWalk(doc, START), FullWalk(doc, START);
    HashAndFullAgree(doc);
    HashWalkReadsChanging(doc, "", START);
    TakeAllOverlays();
    WalkOverlays(TakeAll, doc, "", h);
    WalkIgnoresInfo(TakeAll, doc, "", START, h.info);
    assert h == START.(info := h.info);
    forall k | IsStatic(k) ensures k !in h.info {
      assert SameField(START.info, h.info, k);
    }
    forall k | k in h.info ensures k in f.info && h.info[k] == f.info[k] {
      assert SameField(h.info, f.info, k);
    }
    assert h.info + f.info == f.info;
  }

  // ---------------------------------------------------------------- rejection

  predicate HasRejection(ns: seq<Node>)
    decreases ns
  {
    ns != [] &&
    ((match ns[0]
      case Element(tag, _, children) => Rejects(tag, children) || HasRejection(children)
      case _ => false)
     || HasRejection(ns[1..]))
  }

  lemma {:induction false} RefusedWith(take: Taker, ns: seq<Node>, parent: string, w: Walk)
    requires forall v: Walk, tag, attrs, children, p :: take(v, tag, attrs, children, p).accepted == v.accepted
    ensures WalkWith(take, ns, parent, w).accepted <==> w.accepted && !HasRejection(ns)
    decreases ns
  {
    if ns == [] {
    } else {
      match ns[0]
      case Element(tag, attrs, children) =>
        if !Rejects(tag, children) {
          var w1 := take(w, tag, attrs, children, parent);
          RefusedWith(take, children, tag, w1);
          RefusedWith(take, ns[1..], parent, WalkWith(take, children, tag, w1));
        }
      case _ => RefusedWith(take, ns[1..], parent, w);
    }
  }

  /** Either walk refuses a document exactly when some result code anywhere in it is a
      rejecting one, although only part of the document is skipped after meeting one. */
  lemma RefusedIff(doc: seq<Node>)
    ensures FullWalk(doc, START).accepted <==> !HasRejection(doc)
    ensures HashWalk(doc, START).accepted <==> !HasRejection(doc)
  {
    RefusedWith(TakeAll, doc, "", START);
    RefusedWith(TakeChanging, doc, "", START);
  }

  // ---------------------------------------------------------------- the cache cannot be seen

  ghost predicate SameInfo(a: Info, b: Info) {
    forall k: Field :: Read(a, k) == Read(b, k)
  }

  /** Both sent nothing, or information that reads the same in all fifteen fields. */
  ghost predicate SameAnswer(a: Option<Info>, b: Option<Info>) {
    (a.Some? <==> b.Some?) && (a.Some? ==> SameInfo(a.value, b.value))
  }

  function InfoOf(doc: seq<Node>): Info {
    FullWalk(doc, START).info
  }

  ghost predicate SameStatic(a: Info, b: Info) {
    forall k :: IsStatic(k) ==> Read(a, k) == Read(b, k)
  }

  /** The server's promise, for documents that are not refused: if the hash of `later` is the
      one stored for `earlier`, their static fields are the same. */
  ghost predicate HashPromise(earlier: seq<Node>, later: seq<Node>) {
    !HasRejection(earlier) && !HasRejection(later) &&
    Hash in InfoOf(later) && InfoOf(later)[Hash] == Read(InfoOf(earlier), Hash) ==>
      SameStatic(InfoOf(earlier), InfoOf(later))
  }

  /** The row was written from response `i`, which was not refused. */
  predicate WrittenBy(store: Store, rs: seq<Response>, i: nat) {
    i < |rs| && !HasRejection(rs[i].doc) && store.extra == Some(StoredExtra(InfoOf(rs[i].doc)))
  }

  /** When there are services there is a row, written from one of the documents so far. */
  ghost predicate WrittenFrom(store: Store, rs: seq<Response>) {
    store.services > 0 ==> exists i: nat :: WrittenBy(store, rs, i)
  }

  /** Once the hash matches, the fast path reads what the full parse reads if and only if the
      static fields of the two documents are the same. */
  lemma FastPathReadsTheSame(doc: seq<Node>, from: seq<Node>)
    requires var h := HashWalk(doc, START).info; Hash in h && h[Hash] == StoredExtra(InfoOf(from)).hash
    ensures SameInfo(WithExtra(HashWalk(doc, START).info, StoredExtra(InfoOf(from))), InfoOf(doc))
      <==> SameStatic(InfoOf(from), InfoOf(doc))
  {
    HashAndFullAgree(doc);
    ExtraCompletes(HashWalk(doc, START).info, InfoOf(doc), InfoOf(from));
  }

  lemma ExtraReads(h: Info, f: Info, from: Info, k: Field)
    requires !IsStatic(k) ==> SameField(h, f, k)
    ensures Read(WithExtra(h, StoredExtra(from)), k) == if IsStatic(k) then Read(from, k) else Read(f, k)
  {}

  lemma CompletedReads(done: Info, f: Info, from: Info)
    requires forall k: Field :: Read(done, k) == if IsStatic(k) then Read(from, k) else Read(f, k)
    ensures SameInfo(done, f) <==> SameStatic(from, f)
  {}

  lemma ExtraCompletes(h: Info, f: Info, from: Info)
    requires forall k :: !IsStatic(k) ==> SameField(h, f, k)
    ensures SameInfo(WithExtra(h, StoredExtra(from)), f) <==> SameStatic(from, f)
  {
    var done := WithExtra(h, StoredExtra(from));
    forall k: Field ensures Read(done, k) == if IsStatic(k) then Read(from, k) else Read(f, k) {
      ExtraReads(h, f, from, k);
    }
    CompletedReads(done, f, from);
  }

  /** One response: the answer is the uncached one, and the store stays explained. */
  lemma HandleRefines(store: Store, rs: seq<Response>, r: Response)
    requires WrittenFrom(store, rs)
    requires forall i :: 0 <= i < |rs| ==> HashPromise(rs[i].doc, r.doc)
    ensures SameAnswer(Handle(store, r).1, Uncached(r.doc))
    ensures WrittenFrom(Handle(store, r).0, rs + [r])
  {
    var h := HashWalk(r.doc, START);
    HashAndFullAgree(r.doc);
    RefusedIff(r.doc);
    assert (rs + [r])[|rs|] == r;
    if store.services > 0 {
      var i: nat :| WrittenBy(store, rs, i);
      assert (rs + [r])[i] == rs[i];
      assert WrittenBy(store, rs + [r], i);
      if HashMatches(store, h.info) {
        assert SameField(h.info, InfoOf(r.doc), Hash);
        assert HashPromise(rs[i].doc, r.doc);
        if h.accepted {
          FastPathReadsTheSame(r.doc, rs[i].doc);
        }
      } else if h.accepted {
        FullAfterHash(r.doc);
      }
    }
    assert WrittenFrom(Handle(store, r).0, rs + [r]) by {
      var after := Handle(store, r).0;
      if after.services > 0 && after != store {
        assert WrittenBy(after, rs + [r], |rs|);
      }
    }
  }

  lemma {:induction false} StoreExplained(rs: seq<Response>)
    requires forall i, j :: 0 <= i < j < |rs| ==> HashPromise(rs[i].doc, rs[j].doc)
    ensures WrittenFrom(StoreAfter(EMPTY_STORE, rs), rs)
    decreases |rs|
  {
    if rs == [] {
    } else {
      var n := |rs| - 1;
      StoreExplained(rs[..n]);
      HandleRefines(StoreAfter(EMPTY_STORE, rs[..n]), rs[..n], rs[n]);
      assert rs[..n] + [rs[n]] == rs;
    }
  }

  /** After any responses, the next one is answered as if there were no cache, provided equal
      hashes mean equal static fields. */
  lemma CacheIsInvisible(rs: seq<Response>, r: Response)
    requires forall i, j :: 0 <= i < j < |rs| ==> HashPromise(rs[i].doc, rs[j].doc)
    requires forall i :: 0 <= i < |rs| ==> HashPromise(rs[i].doc, r.doc)
    ensures SameAnswer(Handle(StoreAfter(EMPTY_STORE, rs), r).1, Uncached(r.doc))
  {
    StoreExplained(rs);
    HandleRefines(StoreAfter(EMPTY_STORE, rs), rs, r);
  }
}

/** The walks and the handler as they fill the object's fields. */
module ConfigHandlers {
  import opened Common
  import opened ConfigModel

  lemma OverlaysRegroup(a: Info, b: Info, c: Info, d: Info)
    ensures a + b + c + d == a + (b + (c + d))
  {}

  class GetServices {
    var infoMap: Info
    var getReqStatus: bool
    var providerCount: nat
    var countProviders: nat
    var store: Store
    var sent: seq<Option<Info>>

    function Position(): Walk
      reads this
    {
      Walk(infoMap, getReqStatus, providerCount, countProviders)
    }

    constructor ()
      ensures store == EMPTY_STORE && sent == []
    {
      infoMap, getReqStatus, providerCount, countProviders := map[], true, 0, 0;
      store, sent := EMPTY_STORE, [];
    }

    method NoteChanging(tag: string, children: seq<Node>, parent: string)
      modifies this`infoMap
      ensures infoMap == old(infoMap) + Changing(tag, children, parent)
    {
      var text := TextOf(children);
      if tag == "balance" { infoMap := infoMap[Balance := text]; }
      if tag == "overdraft" { infoMap := infoMap[Overdraft := text]; }
      if tag == "threshold" { infoMap := infoMap[Threshold := text]; }
      if tag == "hash" { infoMap := infoMap[Hash := text]; }
      if tag == "active" { infoMap := infoMap[ActiveFlag := text]; }
      if tag == "server_time" { infoMap := infoMap[ServerTime := text]; }
      if tag == "coin_acceptor" {
        if parent == "devices" {
          infoMap := infoMap[CoinAcceptor := text];
        }
      }
    }

    method NoteAgent(tag: string, children: seq<Node>)
      modifies this`infoMap
      ensures infoMap == old(infoMap) + AgentFields(tag, children)
    {
      var text := TextOf(children);
      if tag == "id_agent" { infoMap := infoMap[IdAgent := text]; }
      if tag == "name" { infoMap := infoMap[NameAgent := Unquoted(text)]; }
      if tag == "inn" { infoMap := infoMap[InnAgent := text]; }
      if tag == "phone" { infoMap := infoMap[PhoneAgent := Unquoted(text)]; }
    }

    method NotePlace(tag: string, attrs: map<string, string>, children: seq<Node>)
      modifies this`infoMap
      ensures infoMap == old(infoMap) + PlaceFields(tag, attrs, children)
    {
      var text := TextOf(children);
      if tag == "hash_conf" {
        infoMap := infoMap[HashXml := text];
        infoMap := infoMap[PathName := Attribute(attrs, "p")];
      }
      if tag == "currency_usd" { infoMap := infoMap[UsdCource := text]; }
      if tag == "address" { infoMap := infoMap[Address := Unquoted(text)]; }
    }

    method NoteElement(tag: string, attrs: map<string, string>, children: seq<Node>, parent: string)
      modifies this`infoMap, this`providerCount, this`countProviders
      ensures Position() == TakeAll(old(Position()), tag, attrs, children, parent)
    {
      if tag == "providers" { countProviders := |children|; }
      NoteChanging(tag, children, parent);
      NoteAgent(tag, children);
      NotePlace(tag, attrs, children);
      OverlaysRegroup(old(infoMap), Changing(tag, children, parent), AgentFields(tag, children),
                      PlaceFields(tag, attrs, children));
      if tag == "prv" { providerCount := providerCount + 1; }
    }

    method ParcerHash(ns: seq<Node>, parent: string)
      modifies this`infoMap, this`getReqStatus
      ensures Position() == WalkWith(TakeChanging, ns, parent, old(Position()))
      decreases ns
    {
      var i := 0;
      while i < |ns|
        invariant i <= |ns|
        invariant WalkWith(TakeChanging, ns[i..], parent, Position())
          == WalkWith(TakeChanging, ns, parent, old(Position()))
      {
        assert ns[i..][0] == ns[i] && ns[i..][1..] == ns[i + 1..];
        match ns[i] {
          case Element(tag, attrs, children) =>
            if Rejects(tag, children) {
              getReqStatus := false;
              return;
            }
            NoteChanging(tag, children, parent);
            ParcerHash(children, tag);
          case _ =>
        }
        i := i + 1;
      }
    }

    method ParseNode(ns: seq<Node>, parent: string)
      modifies this`infoMap, this`getReqStatus, this`providerCount, this`countProviders
      ensures Position() == WalkWith(TakeAll, ns, parent, old(Position()))
      decreases ns
    {
      var i := 0;
      while i < |ns|
        invariant i <= |ns|
        invariant WalkWith(TakeAll, ns[i..], parent, Position()) == WalkWith(TakeAll, ns, parent, old(Position()))
      {
        assert ns[i..][0] == ns[i] && ns[i..][1..] == ns[i + 1..];
        match ns[i] {
          case Element(tag, attrs, children) =>
            if Rejects(tag, children) {
              getReqStatus := false;
              return;
            }
            NoteElement(tag, attrs, children, parent);
            ParseNode(children, tag);
          case _ =>
        }
        i := i + 1;
      }
    }

    /** A request is sent, and `setDataNote` handles its response. */
    method SetDataNote(r: Response)
      modifies this
      ensures (store, sent) == (Handle(old(store), r).0, old(sent) + [Handle(old(store), r).1])
    {
      infoMap, providerCount, countProviders := map[], 0, 0;
      getReqStatus := true;
      var fullParsing := true;
      if store.services != 0 {
        ParcerHash(r.doc, "");
        if HashMatches(store, infoMap) {
          fullParsing := false;
          if store.extra.Some? {
            infoMap := WithExtra(infoMap, store.extra.value);
          }
        }
      }
      if getReqStatus {
        if fullParsing {
          store := EMPTY_STORE;
          providerCount := 0;
          ParseNode(r.doc, "");
          if !getReqStatus {
            sent := sent + [None];
            return;
          }
          if providerCount == countProviders {
            store := Store(if r.saves then providerCount else 0, Some(StoredExtra(infoMap)));
          }
        }
        sent := sent + [Some(infoMap)];
      } else {
        sent := sent + [None];
      }
    }
  }
}
