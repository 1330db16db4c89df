/** What the two walks compute from a document, in terms of its elements in document order. */
module ConfigReads {
  import opened Common
  import opened ConfigModel

  /** An element as it stands in the document. */
  datatype Found = Found(tag: string, attrs: map<string, string>, children: seq<Node>, parent: string)

  /** All elements, each before the ones in it. */
  function Elements(ns: seq<Node>, parent: string): seq<Found>
    decreases ns
  {
    if ns == [] then []
    else
      (match ns[0]
       case Element(tag, attrs, children) => [Found(tag, attrs, children, parent)] + Elements(children, tag)
       case _ => [])
      + Elements(ns[1..], parent)
  }

  // ---------------------------------------------------------------- the fields

  /** The element that carries a field. */
  function TagOf(key: Field): string {
    match key
    case Balance => "balance"
    case Overdraft => "overdraft"
    case Threshold => "threshold"
    case Hash => "hash"
    case ActiveFlag => "active"
    case ServerTime => "server_time"
    case CoinAcceptor => "coin_acceptor"
    case IdAgent => "id_agent"
    case NameAgent => "name"
    case InnAgent => "inn"
    case PhoneAgent => "phone"
    case HashXml => "hash_conf"
    case PathName => "hash_conf"
    case UsdCource => "currency_usd"
    case Address => "address"
  }

  predicate Carries(e: Found, key: Field) {
    e.tag == TagOf(key) && (key.CoinAcceptor? ==> e.parent == "devices")
  }

  /** What it carries: its text, without quotes for names, phones and addresses, or an attribute. */
  function Carried(e: Found, key: Field): string {
    match key
    case NameAgent => Unquoted(TextOf(e.children))
    case PhoneAgent => Unquoted(TextOf(e.children))
    case Address => Unquoted(TextOf(e.children))
    case PathName => Attribute(e.attrs, "p")
    case _ => TextOf(e.children)
  }

  /** Element `i` is the last one that carries the field. */
  predicate IsLast(es: seq<Found>, key: Field, i: nat) {
    i < |es| && Carries(es[i], key) && forall j :: i < j < |es| ==> !Carries(es[j], key)
  }

  predicate Gives(es: seq<Found>, key: Field, i: nat, value: string) {
    IsLast(es, key, i) && value == Carried(es[i], key)
  }

  predicate NoneCarries(es: seq<Found>, key: Field) {
    forall i :: 0 <= i < |es| ==> !Carries(es[i], key)
  }

  /** A field reads as the last element that carries it gives it, or as an empty string without
      one. */
  ghost predicate ReadsLast(value: string, es: seq<Found>, key: Field) {
    (exists i: nat :: Gives(es, key, i, value)) || (value == "" && NoneCarries(es, key))
  }

  // ---------------------------------------------------------------- a walk is a fold

  function Taken(take: Taker, w: Walk, es: seq<Found>): Walk {
    if es == [] then w
    else
      var e := es[|es| - 1];
      take(Taken(take, w, es[..|es| - 1]), e.tag, e.attrs, e.children, e.parent)
  }

  lemma {:induction false} TakenAppends(take: Taker, w: Walk, a: seq<Found>, b: seq<Found>)
    ensures Taken(take, w, a + b) == Taken(take, Taken(take, w, a), b)
  {
    if b == [] {
      assert a + b == a;
    } else {
      TakenAppends(take, w, a, b[..|b| - 1]);
      assert (a + b)[..|a + b| - 1] == a + b[..|b| - 1];
    }
  }

  /** Where no result code rejects, a walk takes every element in document order. */
  lemma {:induction false} WalkTakesAll(take: Taker, ns: seq<Node>, parent: string, w: Walk)
    requires !HasRejection(ns)
    ensures WalkWith(take, ns, parent, w) == Taken(take, w, Elements(ns, parent))
    decreases ns
  {
    if ns == [] {
    } else {
      match ns[0]
      case Element(tag, attrs, children) =>
        var first := [Found(tag, attrs, children, parent)];
        var w1 := take(w, tag, attrs, children, parent);
        assert Taken(take, w, first) == w1 by {
          assert first[..0] == [];
        }
        WalkTakesAll(take, children, tag, w1);
        TakenAppends(take, w, first, Elements(children, tag));
        WalkTakesAll(take, ns[1..], parent, WalkWith(take, children, tag, w1));
        TakenAppends(take, w, first + Elements(children, tag), Elements(ns[1..], parent));
      case _ =>
        WalkTakesAll(take, ns[1..], parent, w);
        assert Elements(ns, parent) == Elements(ns[1..], parent);
    }
  }

  // ---------------------------------------------------------------- what is read

  lemma ChangingCarry(e: Found, key: Field)
    ensures
      var fields := Changing(e.tag, e.children, e.parent);
      (key in fields <==> Carries(e, key) && !IsStatic(key)) && (key in fields ==> fields[key] == Carried(e, key))
  {}

  predicate IsAgents(key: Field) {
    key.IdAgent? || key.NameAgent? || key.InnAgent? || key.PhoneAgent?
  }

  lemma AgentCarry(e: Found, key: Field)
    ensures
      var fields := AgentFields(e.tag, e.children);
      (key in fields <==> Carries(e, key) && IsAgents(key)) && (key in fields ==> fields[key] == Carried(e, key))
  {}

  lemma PlaceCarry(e: Found, key: Field)
    ensures
      var fields := PlaceFields(e.tag, e.attrs, e.children);
      (key in fields <==> Carries(e, key) && IsStatic(key) && !IsAgents(key)) &&
      (key in fields ==> fields[key] == Carried(e, key))
  {}

  /** Taking an element sets the field if the element carries it, and leaves it alone otherwise. */
  ghost predicate TakesField(take: Taker, key: Field) {
    forall w: Walk, e: Found ::
      Read(take(w, e.tag, e.attrs, e.children, e.parent).info, key) ==
        if Carries(e, key) then Carried(e, key) else Read(w.info, key)
  }

  lemma FullTakesField(key: Field)
    ensures TakesField(TakeAll, key)
  {
    forall w: Walk, e: Found
      ensures Read(TakeAll(w, e.tag, e.attrs, e.children, e.parent).info, key) ==
        if Carries(e, key) then Carried(e, key) else Read(w.info, key)
    {
      ChangingCarry(e, key);
      AgentCarry(e, key);
      PlaceCarry(e, key);
    }
  }

  lemma HashTakesField(key: Field)
    requires !IsStatic(key)
    ensures TakesField(TakeChanging, key)
  {
    forall w: Walk, e: Found
      ensures Read(TakeChanging(w, e.tag, e.attrs, e.children, e.parent).info, key) ==
        if Carries(e, key) then Carried(e, key) else Read(w.info, key)
    {
      ChangingCarry(e, key);
    }
  }

  lemma LastAmongMore(value: string, es: seq<Found>, key: Field)
    requires es != [] && !Carries(es[|es| - 1], key) && ReadsLast(value, es[..|es| - 1], key)
    ensures ReadsLast(value, es, key)
  {
    var before := es[..|es| - 1];
    if i: nat :| Gives(before, key, i, value) {
      GivesAmongMore(value, es, key, i);
    } else {
      NoneAmongMore(es, key);
    }
  }

  lemma NoneAmongMore(es: seq<Found>, key: Field)
    requires es != [] && !Carries(es[|es| - 1], key) && NoneCarries(es[..|es| - 1], key)
    ensures NoneCarries(es, key)
  {
    var before := es[..|es| - 1];
    forall i | 0 <= i < |es| ensures !Carries(es[i], key) {
      if i < |before| {
        assert es[i] == before[i] && !Carries(before[i], key);
      }
    }
  }

  lemma GivesAmongMore(value: string, es: seq<Found>, key: Field, i: nat)
    requires es != [] && !Carries(es[|es| - 1], key) && Gives(es[..|es| - 1], key, i, value)
    ensures Gives(es, key, i, value)
  {
    assert es[..|es| - 1][i] == es[i];
  }

  lemma {:induction false} TakenReadsLast(take: Taker, es: seq<Found>, key: Field)
    requires TakesField(take, key)
    ensures ReadsLast(Read(Taken(take, START, es).info, key), es, key)
  {
    if es == [] {
    } else {
      var n := |es| - 1;
      var e := es[n];
      var w := Taken(take, START, es[..n]);
      var r := take(w, e.tag, e.attrs, e.children, e.parent);
      assert Read(r.info, key) == if Carries(e, key) then Carried(e, key) else Read(w.info, key);
      if Carries(e, key) {
        assert Gives(es, key, n, Read(r.info, key));
      } else {
        TakenReadsLast(take, es[..n], key);
        LastAmongMore(Read(r.info, key), es, key);
      }
    }
  }

  /** In a document without a rejecting code, the full walk reads each of the fifteen fields from
      the last element, in document order, that carries it; an empty string without one. */
  lemma FullReadsLast(doc: seq<Node>, key: Field)
    requires !HasRejection(doc)
    ensures ReadsLast(Read(FullWalk(doc, START).info, key), Elements(doc, ""), key)
  {
    WalkTakesAll(TakeAll, doc, "", START);
    FullTakesField(key);
    TakenReadsLast(TakeAll, Elements(doc, ""), key);
  }

  /** So does the hash walk each of the seven changing fields; the others it does not read. */
  lemma HashReadsLast(doc: seq<Node>, key: Field)
    requires !HasRejection(doc)
    ensures !IsStatic(key) ==> ReadsLast(Read(HashWalk(doc, START).info, key), Elements(doc, ""), key)
    ensures IsStatic(key) ==> key !in HashWalk(doc, START).info
  {
    if IsStatic(key) {
      HashWalkReadsChanging(doc, "", START);
      assert SameField(START.info, HashWalk(doc, START).info, key);
    } else {
      WalkTakesAll(TakeChanging, doc, "", START);
      HashTakesField(key);
      TakenReadsLast(TakeChanging, Elements(doc, ""), key);
    }
  }

  // ---------------------------------------------------------------- text

  /** The text of nodes is the texts in them one after another, at any depth. */
  lemma {:induction false} TextsFollow(a: seq<Node>, b: seq<Node>, n: Node)
    ensures TextOf(a + b) == TextOf(a) + TextOf(b)
    ensures TextOf([n]) == match n
      case Element(_, _, children) => TextOf(children)
      case Text(data) => data
      case OtherNode => ""
    decreases |a|
  {
    assert [n][1..] == [];
    if a == [] {
      assert a + b == b;
    } else {
      assert (a + b)[0] == a[0] && (a + b)[1..] == a[1..] + b;
      TextsFollow(a[1..], b, n);
    }
  }

  lemma {:induction false} WithoutAppends(a: string, b: string, c: char)
    ensures Without(a + b, c) == Without(a, c) + Without(b, c)
  {
    if a == "" {
      assert a + b == b;
    } else {
      assert (a + b)[0] == a[0] && (a + b)[1..] == a[1..] + b;
      WithoutAppends(a[1..], b, c);
    }
  }

  /** Unquoting takes both kinds of quotes out wherever they stand, and nothing else. */
  lemma UnquotedDrops(a: string, c: char, b: string)
    ensures Unquoted(a + [c] + b) == Unquoted(a) + (if c == '\'' || c == '"' then "" else [c]) + Unquoted(b)
  {
    var x, y := Without(a, '\''), Without(b, '\'');
    var d := Without([c], '\'');
    WithoutAppends(a + [c], b, '\'');
    WithoutAppends(a, [c], '\'');
    WithoutAppends(x + d, y, '"');
    WithoutAppends(x, d, '"');
    assert [c][1..] == "";
  }

  // ---------------------------------------------------------------- the services

  /** The providers in the document. */
  function Listed(es: seq<Found>): nat {
    if es == [] then 0 else Listed(es[..|es| - 1]) + if es[|es| - 1].tag == "prv" then 1 else 0
  }

  /** How many the last list of them has. */
  function Announced(es: seq<Found>): nat {
    if es == [] then 0
    else if es[|es| - 1].tag == "providers" then |es[|es| - 1].children|
    else Announced(es[..|es| - 1])
  }

  lemma {:induction false} TakenCounts(es: seq<Found>)
    ensures
      var w := Taken(TakeAll, START, es);
      w.listed == Listed(es) && w.announced == Announced(es)
  {
    if es == [] {
    } else {
      TakenCounts(es[..|es| - 1]);
    }
  }

  /** The services of a response are complete. */
  predicate Complete(r: Response) {
    !HasRejection(r.doc) && Listed(Elements(r.doc, "")) == Announced(Elements(r.doc, "")) && r.saves
  }

  /** A response that is parsed in full leaves as many services as its document lists, if that is
      as many as it announces and they are saved, and none otherwise. */
  lemma ServicesStoredIff(store: Store, r: Response)
    requires store.services == 0
    ensures Handle(store, r).0.services == if Complete(r) then Listed(Elements(r.doc, "")) else 0
  {
    RefusedIff(r.doc);
    if !HasRejection(r.doc) {
      WalkTakesAll(TakeAll, r.doc, "", START);
      TakenCounts(Elements(r.doc, ""));
    }
  }

  /** The two documents have the same hash, and both have one. */
  predicate SameHash(a: seq<Node>, b: seq<Node>) {
    Hash in InfoOf(a) && Hash in InfoOf(b) && InfoOf(a)[Hash] == InfoOf(b)[Hash]
  }

  /** The stored row is used: a response with the hash of one that left services behind is answered
      with the static fields of that one, whatever its own are, and changes nothing in the store. */
  lemma StoredRowIsUsed(first: Response, r: Response)
    requires Complete(first) && Listed(Elements(first.doc, "")) > 0
    requires !HasRejection(r.doc) && SameHash(first.doc, r.doc)
    ensures
      var store := Handle(EMPTY_STORE, first).0;
      var (after, answer) := Handle(store, r);
      after == store && answer.Some? &&
      forall k :: Read(answer.value, k) == Read(InfoOf(if IsStatic(k) then first.doc else r.doc), k)
  {
    ServicesStoredIff(EMPTY_STORE, first);
    RefusedIff(first.doc);
    RefusedIff(r.doc);
    HashAndFullAgree(r.doc);
    var h := HashWalk(r.doc, START).info;
    assert SameField(h, InfoOf(r.doc), Hash);
    forall k ensures Read(WithExtra(h, StoredExtra(InfoOf(first.doc))), k)
      == Read(InfoOf(if IsStatic(k) then first.doc else r.doc), k)
    {
      assert !IsStatic(k) ==> SameField(h, InfoOf(r.doc), k);
      ExtraReads(h, InfoOf(r.doc), InfoOf(first.doc), k);
    }
  }
}
