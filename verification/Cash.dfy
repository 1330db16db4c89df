/** Banknotes and coins: counted from the denomination strings of payments, written into the
    encashment document, and read back from it by position. */
module CashModel {
  import opened Common

  // ---------------------------------------------------------------- numbers as text

  const INT_MIN := -0x8000_0000
  const INT_MAX := 0x7FFF_FFFF

  predicate IsSpace(c: char) {
    c == ' ' || '\t' <= c <= '\r' || c == '\U{0085}' || c == '\U{00A0}' || c == '\U{1680}' ||
    '\U{2000}' <= c <= '\U{200A}' || c == '\U{2028}' || c == '\U{2029}' || c == '\U{202F}' ||
    c == '\U{205F}' || c == '\U{3000}'
  }

  function TrimLeft(s: string): string {
    if s != "" && IsSpace(s[0]) then TrimLeft(s[1..]) else s
  }

  function TrimRight(s: string): string {
    if s != "" && IsSpace(s[|s| - 1]) then TrimRight(s[..|s| - 1]) else s
  }

  predicate IsDigit(c: char) {
    '0' <= c <= '9'
  }

  predicate AllDigits(s: string) {
    forall i :: 0 <= i < |s| ==> IsDigit(s[i])
  }

  function DigitsValue(s: string): nat
    requires AllDigits(s)
  {
    if s == "" then 0 else DigitsValue(s[..|s| - 1]) * 10 + (s[|s| - 1] as int - '0' as int)
  }

  /** `toInt`: surrounding space and one sign are allowed; whatever is not a 32-bit number
      in this form reads as 0. */
  function ToInt(s: string): int {
    var t := TrimRight(TrimLeft(s));
    var signed := t != "" && (t[0] == '-' || t[0] == '+');
    var digits := if signed then t[1..] else t;
    if digits == "" || !AllDigits(digits) then 0
    else
      var magnitude: int := DigitsValue(digits);
      var n := if signed && t[0] == '-' then -magnitude else magnitude;
      if INT_MIN <= n <= INT_MAX then n else 0
  }

  function NatText(n: nat): (r: string)
    ensures r != "" && AllDigits(r) && DigitsValue(r) == n
  {
    var last := ('0' as int + n % 10) as char;
    if n < 10 then [last]
    else
      var front := NatText(n / 10);
      assert (front + [last])[..|front|] == front;
      front + [last]
  }

  /** `arg(int)`. */
  function IntText(n: int): string {
    if n < 0 then "-" + NatText(-n) else NatText(n)
  }

  lemma NothingToTrim(s: string)
    requires s != "" && !IsSpace(s[0]) && !IsSpace(s[|s| - 1])
    ensures TrimRight(TrimLeft(s)) == s
  {}

  /** Printed numbers read back. */
  lemma IntTextReads(n: int)
    requires INT_MIN <= n <= INT_MAX
    ensures ToInt(IntText(n)) == n
  {
    var s := IntText(n);
    var digits := NatText(if n < 0 then -n else n);
    if n < 0 {
      assert s[1..] == digits;
      assert s[|s| - 1] == digits[|digits| - 1];
    }
    assert IsDigit(digits[0]) && IsDigit(digits[|digits| - 1]);
    NothingToTrim(s);
  }

  /** A coin's face does not read as a number until its mark is removed. */
  lemma MarkedFace(n: nat)
    ensures ToInt(NatText(n) + "M") == 0
    ensures Without(NatText(n) + "M", 'M') == NatText(n)
  {
    var digits := NatText(n);
    var s := digits + "M";
    assert IsDigit(digits[0]) && s[0] == digits[0] && s[|s| - 1] == 'M';
    NothingToTrim(s);
    assert !IsDigit(s[|s| - 1]);
    WithoutMark(digits);
  }

  lemma {:induction false} WithoutMark(digits: string)
    requires AllDigits(digits)
    ensures Without(digits + "M", 'M') == digits && Without(digits, 'M') == digits
  {
    if digits == "" {
      assert "M"[1..] == "";
    } else {
      assert (digits + "M")[1..] == digits[1..] + "M";
      assert IsDigit(digits[0]);
      WithoutMark(digits[1..]);
    }
  }

  // ---------------------------------------------------------------- denominations

  datatype Denom = Denom(face: int, value: int)

  function Zeroed(ds: seq<Denom>): (r: seq<Denom>)
    ensures |r| == |ds|
    ensures forall i :: 0 <= i < |ds| ==> r[i] == Denom(ds[i].face, 0)
  {
    seq(|ds|, i requires 0 <= i < |ds| => Denom(ds[i].face, 0))
  }

  /** The first denomination with this face, or the number of denominations. */
  function FirstWith(ds: seq<Denom>, face: int): (r: nat)
    ensures r <= |ds| && (r < |ds| ==> ds[r].face == face)
    ensures forall i :: 0 <= i < r ==> ds[i].face != face
  {
    if ds == [] || ds[0].face == face then 0 else 1 + FirstWith(ds[1..], face)
  }

  function TotalCount(ds: seq<Denom>): int {
    if ds == [] then 0 else TotalCount(ds[..|ds| - 1]) + ds[|ds| - 1].value
  }

  function TotalSum(ds: seq<Denom>): int {
    if ds == [] then 0 else TotalSum(ds[..|ds| - 1]) + ds[|ds| - 1].face * ds[|ds| - 1].value
  }

  // ---------------------------------------------------------------- counting payments

  /** Splitting at commas, without empty parts; `part` is what was read since the last comma. */
  function Tokens(s: string, part: string): seq<string> {
    if s == "" then (if part == "" then [] else [part])
    else if s[0] == ',' then (if part == "" then [] else [part]) + Tokens(s[1..], "")
    else Tokens(s[1..], part + [s[0]])
  }

  function AllTokens(records: seq<string>): seq<string> {
    if records == [] then [] else AllTokens(records[..|records| - 1]) + Tokens(records[|records| - 1], "")
  }

  predicate IsCoin(token: string) {
    'M' in token
  }

  function CountedIn(ds: seq<Denom>, face: int): (r: seq<Denom>)
    ensures |r| == |ds|
  {
    var k := FirstWith(ds, face);
    if k < |ds| then ds[k := ds[k].(value := ds[k].value + 1)] else ds
  }

  datatype Box = Box(bills: seq<Denom>, coins: seq<Denom>)

  /** The face a token names, read as a coin's or as a bill's. */
  function FaceOf(token: string, coin: bool): int {
    if coin then ToInt(Without(token, 'M')) else ToInt(token)
  }

  function Add(box: Box, token: string): Box {
    if IsCoin(token) then box.(coins := CountedIn(box.coins, FaceOf(token, true)))
    else box.(bills := CountedIn(box.bills, FaceOf(token, false)))
  }

  function AddAll(box: Box, tokens: seq<string>): Box {
    if tokens == [] then box else Add(AddAll(box, tokens[..|tokens| - 1]), tokens[|tokens| - 1])
  }

  lemma {:induction false} AddAllAppends(box: Box, a: seq<string>, b: seq<string>)
    ensures AddAll(AddAll(box, a), b) == AddAll(box, a + b)
  {
    if b == [] {
      assert a + b == a;
    } else {
      AddAllAppends(box, a, b[..|b| - 1]);
      assert (a + b)[..|a + b| - 1] == a + b[..|b| - 1];
    }
  }

  function EmptyBox(box: Box): Box {
    Box(Zeroed(box.bills), Zeroed(box.coins))
  }

  /** `parserCollectIntoOperation`. */
  function Tallied(box: Box, records: seq<string>): Box {
    AddAll(EmptyBox(box), AllTokens(records))
  }

  predicate HasFace(ds: seq<Denom>, face: int) {
    FirstWith(ds, face) < |ds|
  }

  /** What the tokens of one kind read as. */
  function Readings(tokens: seq<string>, coin: bool): seq<int> {
    if tokens == [] then []
    else
      var t := tokens[|tokens| - 1];
      Readings(tokens[..|tokens| - 1], coin) + if IsCoin(t) == coin then [FaceOf(t, coin)] else []
  }

  /** Those faces that some denomination has. */
  function Recognised(faces: seq<int>, ds: seq<Denom>): seq<int> {
    if faces == [] then []
    else
      var face := faces[|faces| - 1];
      Recognised(faces[..|faces| - 1], ds) + if HasFace(ds, face) then [face] else []
  }

  function Sum(xs: seq<int>): int {
    if xs == [] then 0 else Sum(xs[..|xs| - 1]) + xs[|xs| - 1]
  }

  lemma {:induction false} TotalsAfterUpdate(ds: seq<Denom>, k: nat, value: int)
    requires k < |ds|
    ensures var r := ds[k := ds[k].(value := value)];
      TotalCount(r) == TotalCount(ds) + value - ds[k].value &&
      TotalSum(r) == TotalSum(ds) + ds[k].face * (value - ds[k].value)
  {
    var r := ds[k := ds[k].(value := value)];
    var n := |ds| - 1;
    if k < n {
      TotalsAfterUpdate(ds[..n], k, value);
      assert r[..n] == ds[..n][k := ds[k].(value := value)];
    } else {
      assert r[..n] == ds[..n];
    }
  }

  lemma {:induction false} ZeroTotals(ds: seq<Denom>)
    ensures TotalCount(Zeroed(ds)) == 0 && TotalSum(Zeroed(ds)) == 0
  {
    if ds == [] {
    } else {
      ZeroTotals(ds[..|ds| - 1]);
      assert Zeroed(ds)[..|ds| - 1] == Zeroed(ds[..|ds| - 1]);
    }
  }

  predicate SameFaces(a: seq<Denom>, b: seq<Denom>) {
    |a| == |b| && forall i :: 0 <= i < |a| ==> a[i].face == b[i].face
  }

  lemma {:induction false} FirstWithSameFaces(a: seq<Denom>, b: seq<Denom>, face: int)
    requires SameFaces(a, b)
    ensures FirstWith(a, face) == FirstWith(b, face)
  {
    if a == [] || a[0].face == face {
    } else {
      FirstWithSameFaces(a[1..], b[1..], face);
    }
  }

  lemma CountedInAdds(ds: seq<Denom>, face: int)
    ensures SameFaces(CountedIn(ds, face), ds)
    ensures TotalCount(CountedIn(ds, face)) == TotalCount(ds) + (if HasFace(ds, face) then 1 else 0)
    ensures TotalSum(CountedIn(ds, face)) == TotalSum(ds) + (if HasFace(ds, face) then face else 0)
  {
    var k := FirstWith(ds, face);
    if k < |ds| {
      TotalsAfterUpdate(ds, k, ds[k].value + 1);
    }
  }

  function Side(box: Box, coin: bool): seq<Denom> {
    if coin then box.coins else box.bills
  }

  function CountAll(ds: seq<Denom>, faces: seq<int>): seq<Denom> {
    if faces == [] then ds else CountedIn(CountAll(ds, faces[..|faces| - 1]), faces[|faces| - 1])
  }

  lemma AddToSide(box: Box, token: string, coin: bool)
    ensures Side(Add(box, token), coin) ==
      if IsCoin(token) == coin then CountedIn(Side(box, coin), FaceOf(token, coin)) else Side(box, coin)
  {}

  /** Bills and coins are counted apart. */
  lemma {:induction false} SidesApart(box: Box, tokens: seq<string>, coin: bool)
    ensures Side(AddAll(box, tokens), coin) == CountAll(Side(box, coin), Readings(tokens, coin))
  {
    if tokens == [] {
    } else {
      var n := |tokens| - 1;
      SidesApart(box, tokens[..n], coin);
      AddToSide(AddAll(box, tokens[..n]), tokens[n], coin);
      var rs := Readings(tokens[..n], coin);
      if IsCoin(tokens[n]) == coin {
        CountOneMore(Side(box, coin), rs, FaceOf(tokens[n], coin));
      } else {
        assert rs + [] == rs;
      }
    }
  }

  lemma CountOneMore(ds: seq<Denom>, faces: seq<int>, face: int)
    ensures CountAll(ds, faces + [face]) == CountedIn(CountAll(ds, faces), face)
  {
    assert (faces + [face])[..|faces|] == faces;
  }

  lemma {:induction false} CountAllGains(ds: seq<Denom>, faces: seq<int>)
    ensures var now, known := CountAll(ds, faces), Recognised(faces, ds);
      && SameFaces(now, ds)
      && TotalCount(now) == TotalCount(ds) + |known|
      && TotalSum(now) == TotalSum(ds) + Sum(known)
  {
    if faces == [] {
    } else {
      var n := |faces| - 1;
      CountAllGains(ds, faces[..n]);
      var now, known := CountAll(ds, faces[..n]), Recognised(faces[..n], ds);
      CountedInAdds(now, faces[n]);
      FirstWithSameFaces(now, ds, faces[n]);
      assert (known + [faces[n]])[..|known|] == known && known + [] == known;
    }
  }

  /** The faces of the tokens that name a bill, or a coin, of this configuration. */
  function Paid(records: seq<string>, coin: bool, box: Box): seq<int> {
    Recognised(Readings(AllTokens(records), coin), Zeroed(Side(box, coin)))
  }

  /** Cash is conserved: after the tally the totals are the number and the worth of the
      recognised bills, and likewise for coins, whatever the strings and the faces are. */
  lemma TallyConserves(box: Box, records: seq<string>, coin: bool)
    ensures
      var side, paid := Side(Tallied(box, records), coin), Paid(records, coin, box);
      && SameFaces(side, Side(box, coin))
      && TotalCount(side) == |paid|
      && TotalSum(side) == Sum(paid)
  {
    ZeroTotals(Side(box, coin));
    SidesApart(EmptyBox(box), AllTokens(records), coin);
    CountAllGains(Zeroed(Side(box, coin)), Readings(AllTokens(records), coin));
  }

  // ---------------------------------------------------------------- the document

  /** One child of the document's root: its `face` attribute and its text. */
  datatype Slot = Slot(face: string, text: string)

  function BillSlot(d: Denom): Slot {
    Slot(IntText(d.face), IntText(d.value))
  }

  function CoinSlot(d: Denom): Slot {
    Slot(IntText(d.face) + "M", IntText(d.value))
  }

  lemma SlotsGrow(ds: seq<Denom>, i: nat, slot: Denom -> Slot)
    requires i < |ds|
    ensures Mapped(ds[..i + 1], slot) == Mapped(ds[..i], slot) + [slot(ds[i])]
  {}

  /** `getDenominalXml`. */
  function Document(box: Box): seq<Slot> {
    Mapped(box.bills, BillSlot) + Mapped(box.coins, CoinSlot)
  }

  // A sibling that is not there reads as empty.
  function SlotAt(slots: seq<Slot>, i: nat): Slot {
    if i < |slots| then slots[i] else Slot("", "")
  }

  /** The face and the count that a slot is read as. */
  function SlotDenom(slot: Slot, coin: bool): Denom {
    Denom(FaceOf(slot.face, coin), ToInt(slot.text))
  }

  /** What the slots from number `from` up to `to` are read as. */
  function SlotRange(slots: seq<Slot>, from: nat, to: nat, coin: bool): (r: seq<Denom>)
    requires from <= to
    ensures |r| == to - from
    ensures forall i :: 0 <= i < to - from ==> r[i] == SlotDenom(SlotAt(slots, from + i), coin)
  {
    seq(to - from, i requires 0 <= i < to - from => SlotDenom(SlotAt(slots, from + i), coin))
  }

  function Assigned(ds: seq<Denom>, d: Denom): (r: seq<Denom>)
    ensures |r| == |ds|
  {
    var k := FirstWith(ds, d.face);
    if k < |ds| then ds[k := ds[k].(value := d.value)] else ds
  }

  /** What was read, assigned in order to the denominations with those faces. */
  function Fill(ds: seq<Denom>, readings: seq<Denom>): (r: seq<Denom>)
    ensures |r| == |ds|
  {
    if readings == [] then ds else Assigned(Fill(ds, readings[..|readings| - 1]), readings[|readings| - 1])
  }

  lemma RangeGrows(slots: seq<Slot>, from: nat, i: nat, coin: bool)
    requires from <= i
    ensures SlotRange(slots, from, i + 1, coin) == SlotRange(slots, from, i, coin) + [SlotDenom(SlotAt(slots, i), coin)]
  {}

  lemma FillSnoc(ds: seq<Denom>, readings: seq<Denom>, d: Denom)
    ensures Fill(ds, readings + [d]) == Assigned(Fill(ds, readings), d)
  {
    assert (readings + [d])[..|readings|] == readings;
  }

  lemma FillOne(ds: seq<Denom>, slots: seq<Slot>, from: nat, i: nat, coin: bool)
    requires from <= i
    ensures Fill(ds, SlotRange(slots, from, i + 1, coin)) ==
      Assigned(Fill(ds, SlotRange(slots, from, i, coin)), SlotDenom(SlotAt(slots, i), coin))
  {
    RangeGrows(slots, from, i, coin);
    FillSnoc(ds, SlotRange(slots, from, i, coin), SlotDenom(SlotAt(slots, i), coin));
  }

  const BILL_SLOTS := 9
  const ALL_SLOTS := 15

  /** `parsDenomilSlot` on a document that is well formed. */
  function ReadBack(box: Box, slots: seq<Slot>): Box {
    Box(Fill(Zeroed(box.bills), SlotRange(slots, 0, BILL_SLOTS, false)),
        Fill(Zeroed(box.coins), SlotRange(slots, BILL_SLOTS, ALL_SLOTS, true)))
  }

  // ---------------------------------------------------------------- when it reads back

  predicate GoodFaces(ds: seq<Denom>) {
    (forall i :: 0 <= i < |ds| ==> 0 < ds[i].face <= INT_MAX) &&
    forall i, j :: 0 <= i < j < |ds| ==> ds[i].face != ds[j].face
  }

  predicate GoodValues(ds: seq<Denom>) {
    forall i :: 0 <= i < |ds| ==> INT_MIN <= ds[i].value <= INT_MAX
  }

  predicate Good(box: Box) {
    GoodFaces(box.bills) && GoodFaces(box.coins) && GoodValues(box.bills) && GoodValues(box.coins)
  }

  /** The configurations that the fixed slot numbers can carry. */
  predicate FitsSlots(box: Box) {
    (|box.bills| == BILL_SLOTS && |box.coins| <= ALL_SLOTS - BILL_SLOTS) ||
    (|box.bills| <= BILL_SLOTS && |box.coins| == 0)
  }

  lemma BillSlotReads(d: Denom)
    requires 0 < d.face <= INT_MAX && INT_MIN <= d.value <= INT_MAX
    ensures SlotDenom(BillSlot(d), false) == d
  {
    IntTextReads(d.face);
    IntTextReads(d.value);
  }

  lemma CoinSlotReads(d: Denom)
    requires 0 < d.face <= INT_MAX && INT_MIN <= d.value <= INT_MAX
    ensures SlotDenom(CoinSlot(d), true) == d
  {
    IntTextReads(d.face);
    IntTextReads(d.value);
    MarkedFace(d.face);
  }

  lemma EmptySlotReads(coin: bool)
    ensures SlotDenom(Slot("", ""), coin).face == 0
  {}

  lemma FirstWithUnique(ds: seq<Denom>, i: nat)
    requires GoodFaces(ds) && i < |ds|
    ensures FirstWith(ds, ds[i].face) == i
  {}

  lemma NoZeroFace(ds: seq<Denom>)
    requires GoodFaces(ds)
    ensures FirstWith(ds, 0) == |ds|
  {}

  /** The first denominations of `goal`, and those of `ds` after them. */
  function Restored(goal: seq<Denom>, ds: seq<Denom>, n: nat): seq<Denom>
    requires |goal| == |ds|
  {
    if n < |goal| then goal[..n] + ds[n..] else goal
  }

  lemma RestoreOne(goal: seq<Denom>, ds: seq<Denom>, n: nat)
    requires GoodFaces(goal) && SameFaces(ds, goal) && n < |goal|
    ensures Assigned(Restored(goal, ds, n), goal[n]) == Restored(goal, ds, n + 1)
  {
    var now := Restored(goal, ds, n);
    FirstWithSameFaces(now, goal, goal[n].face);
    FirstWithUnique(goal, n);
    assert now[n := goal[n]] == Restored(goal, ds, n + 1);
  }

  lemma RestoreNone(goal: seq<Denom>, d: Denom)
    requires GoodFaces(goal) && d.face == 0
    ensures Assigned(goal, d) == goal
  {
    NoZeroFace(goal);
  }

  /** Reading the denominations of `goal` in order, and then nothing, restores them. */
  lemma {:induction false} FillRestores(goal: seq<Denom>, ds: seq<Denom>, readings: seq<Denom>)
    requires GoodFaces(goal) && SameFaces(ds, goal)
    requires forall k :: 0 <= k < |readings| ==> if k < |goal| then readings[k] == goal[k] else readings[k].face == 0
    ensures Fill(ds, readings) == Restored(goal, ds, |readings|)
  {
    if readings == [] {
      assert Restored(goal, ds, 0) == ds;
    } else {
      var n := |readings| - 1;
      FillRestores(goal, ds, readings[..n]);
      if n < |goal| {
        RestoreOne(goal, ds, n);
      } else {
        assert Restored(goal, ds, n) == goal;
        RestoreNone(goal, readings[n]);
      }
    }
  }

  lemma BillSlotAt(box: Box, k: nat)
    requires Good(box) && k < BILL_SLOTS && (k < |box.bills| || |box.coins| == 0)
    ensures
      var d := SlotDenom(SlotAt(Document(box), k), false);
      if k < |box.bills| then d == box.bills[k] else d.face == 0
  {
    if k < |box.bills| {
      assert Document(box)[k] == BillSlot(box.bills[k]);
      BillSlotReads(box.bills[k]);
    } else {
      EmptySlotReads(false);
    }
  }

  lemma CoinSlotAt(box: Box, k: nat)
    requires Good(box)
    ensures
      var d := SlotDenom(SlotAt(Document(box), |box.bills| + k), true);
      if k < |box.coins| then d == box.coins[k] else d.face == 0
  {
    if k < |box.coins| {
      assert Document(box)[|box.bills| + k] == CoinSlot(box.coins[k]);
      CoinSlotReads(box.coins[k]);
    } else {
      EmptySlotReads(true);
    }
  }

  lemma BillsReadBack(box: Box)
    requires Good(box) && FitsSlots(box)
    ensures ReadBack(box, Document(box)).bills == box.bills
  {
    var b := SlotRange(Document(box), 0, BILL_SLOTS, false);
    forall k | 0 <= k < BILL_SLOTS ensures if k < |box.bills| then b[k] == box.bills[k] else b[k].face == 0 {
      BillSlotAt(box, k);
    }
    FillRestores(box.bills, Zeroed(box.bills), b);
  }

  lemma CoinsReadBack(box: Box)
    requires Good(box) && FitsSlots(box)
    ensures ReadBack(box, Document(box)).coins == box.coins
  {
    var c := SlotRange(Document(box), BILL_SLOTS, ALL_SLOTS, true);
    if |box.coins| > 0 {
      forall k | 0 <= k < ALL_SLOTS - BILL_SLOTS
        ensures if k < |box.coins| then c[k] == box.coins[k] else c[k].face == 0
      {
        CoinSlotAt(box, k);
      }
      FillRestores(box.coins, Zeroed(box.coins), c);
    }
  }

  /** A configuration that fits reads back whole, whatever its counts. */
  lemma FittingReadsBack(box: Box)
    requires Good(box) && FitsSlots(box)
    ensures ReadBack(box, Document(box)) == box
  {
    BillsReadBack(box);
    CoinsReadBack(box);
  }

  /** A denomination whose face was not read keeps its value. */
  lemma {:induction false} FillSkips(ds: seq<Denom>, readings: seq<Denom>, k: nat)
    requires k < |ds|
    requires forall p :: 0 <= p < |readings| ==> readings[p].face != ds[k].face
    ensures Fill(ds, readings)[k] == ds[k]
  {
    if readings == [] {
    } else {
      FillSkips(ds, readings[..|readings| - 1], k);
    }
  }

  /** One note or coin of number `k` and nothing else. */
  function OneBill(box: Box, k: nat): Box
    requires k < |box.bills|
  {
    Box(Zeroed(box.bills)[k := Denom(box.bills[k].face, 1)], Zeroed(box.coins))
  }

  function OneCoin(box: Box, k: nat): Box
    requires k < |box.coins|
  {
    Box(Zeroed(box.bills), Zeroed(box.coins)[k := Denom(box.coins[k].face, 1)])
  }

  predicate SameConfig(a: Box, b: Box) {
    SameFaces(a.bills, b.bills) && SameFaces(a.coins, b.coins)
  }

  /** A configuration with one too many of either kind, or with coins that start too early:
      the one banknote or coin that no slot of its range carries. */
  function Lost(box: Box): (r: Box)
    requires !FitsSlots(box)
  {
    if |box.bills| > BILL_SLOTS then OneBill(box, BILL_SLOTS)
    else if |box.bills| < BILL_SLOTS then OneCoin(box, 0)
    else OneCoin(box, ALL_SLOTS - BILL_SLOTS)
  }

  lemma LostIsGood(box: Box)
    requires Good(box) && !FitsSlots(box)
    ensures Good(Lost(box)) && SameConfig(Lost(box), box)
  {}

  lemma LostBill(box: Box)
    requires Good(box) && |box.bills| > BILL_SLOTS
    requires box.bills[BILL_SLOTS].value == 1
    ensures ReadBack(box, Document(box)) != box
  {
    var slots := Document(box);
    var b := SlotRange(slots, 0, BILL_SLOTS, false);
    forall p | 0 <= p < BILL_SLOTS ensures b[p].face != box.bills[BILL_SLOTS].face {
      BillSlotAt(box, p);
    }
    FillSkips(Zeroed(box.bills), b, BILL_SLOTS);
  }

  lemma LostCoin(box: Box, k: nat)
    requires Good(box) && |box.bills| <= BILL_SLOTS && k < |box.coins| && box.coins[k].value == 1
    requires |box.bills| + k < BILL_SLOTS || |box.bills| + k >= ALL_SLOTS
    ensures ReadBack(box, Document(box)) != box
  {
    var slots := Document(box);
    var c := SlotRange(slots, BILL_SLOTS, ALL_SLOTS, true);
    forall p | 0 <= p < ALL_SLOTS - BILL_SLOTS ensures c[p].face != box.coins[k].face {
      CoinSlotAt(box, BILL_SLOTS + p - |box.bills|);
    }
    FillSkips(Zeroed(box.coins), c, k);
  }

  /** With positive and distinct faces, every count of a configuration reads back from its
      document if and only if the configuration fits the slots: nine bills and at most six
      coins, or at most nine bills and no coins. */
  lemma ReadsBackIffFits(box: Box)
    requires Good(box)
    ensures FitsSlots(box) <==>
      forall other: Box :: Good(other) && SameConfig(other, box) ==> ReadBack(other, Document(other)) == other
  {
    if FitsSlots(box) {
      forall other: Box | Good(other) && SameConfig(other, box) ensures ReadBack(other, Document(other)) == other {
        FittingReadsBack(other);
      }
    } else {
      LostIsGood(box);
      if |box.bills| > BILL_SLOTS {
        LostBill(Lost(box));
      } else {
        LostCoin(Lost(box), if |box.bills| < BILL_SLOTS then 0 else ALL_SLOTS - BILL_SLOTS);
      }
    }
  }

  /** Reading back into any counts of the same configuration shows the payments' own worth. */
  lemma ReprintMatches(config: Box, records: seq<string>, coin: bool)
    requires Good(Tallied(config, records)) && FitsSlots(config)
    ensures ReadBack(config, Document(Tallied(config, records))) == Tallied(config, records)
    ensures
      var again := ReadBack(config, Document(Tallied(config, records)));
      TotalSum(Side(again, coin)) == Sum(Paid(records, coin, config))
  {
    var t := Tallied(config, records);
    TallyConserves(config, records, false);
    TallyConserves(config, records, true);
    FittingReadsBack(t);
    assert Zeroed(t.bills) == Zeroed(config.bills) && Zeroed(t.coins) == Zeroed(config.coins);
  }
}

/** The loops over the denominations. */
module CashHandlers {
  import opened Common
  import opened CashModel

  class NominalData {
    var bills: seq<Denom>
    var coins: seq<Denom>
    var billCount: int
    var billSum: int
    var coinCount: int
    var coinSum: int

    function Contents(): Box
      reads this
    {
      Box(bills, coins)
    }

    predicate Totalled()
      reads this
    {
      billCount == TotalCount(bills) && billSum == TotalSum(bills) &&
      coinCount == TotalCount(coins) && coinSum == TotalSum(coins)
    }

    constructor (config: Box)
      ensures Contents() == EmptyBox(config)
    {
      bills, coins := Zeroed(config.bills), Zeroed(config.coins);
      billCount, billSum, coinCount, coinSum := 0, 0, 0, 0;
    }

    method CalculateTotal()
      modifies this`billCount, this`billSum, this`coinCount, this`coinSum
      ensures Totalled()
    {
      billCount, billSum := 0, 0;
      for i := 0 to |bills|
        invariant billCount == TotalCount(bills[..i]) && billSum == TotalSum(bills[..i])
      {
        assert bills[..i + 1][..i] == bills[..i];
        billCount := billCount + bills[i].value;
        billSum := billSum + bills[i].face * bills[i].value;
      }
      assert bills[..|bills|] == bills;
      coinCount, coinSum := 0, 0;
      for i := 0 to |coins|
        invariant billCount == TotalCount(bills) && billSum == TotalSum(bills)
        invariant coinCount == TotalCount(coins[..i]) && coinSum == TotalSum(coins[..i])
      {
        assert coins[..i + 1][..i] == coins[..i];
        coinCount := coinCount + coins[i].value;
        coinSum := coinSum + coins[i].face * coins[i].value;
      }
      assert coins[..|coins|] == coins;
    }

    method ResetCounts()
      modifies this`bills, this`coins
      ensures Contents() == EmptyBox(old(Contents()))
    {
      for i := 0 to |bills|
        invariant coins == old(coins) && |bills| == |old(bills)|
        invariant bills[..i] == Zeroed(old(bills))[..i] && bills[i..] == old(bills)[i..]
      {
        assert bills[i] == old(bills)[i];
        bills := bills[i := bills[i].(value := 0)];
      }
      for i := 0 to |coins|
        invariant bills == Zeroed(old(bills)) && |coins| == |old(coins)|
        invariant coins[..i] == Zeroed(old(coins))[..i] && coins[i..] == old(coins)[i..]
      {
        assert coins[i] == old(coins)[i];
        coins := coins[i := coins[i].(value := 0)];
      }
    }

    method FindFace(ds: seq<Denom>, face: int) returns (k: nat)
      ensures k == FirstWith(ds, face)
    {
      k := 0;
      while k < |ds|
        invariant k <= |ds|
        invariant FirstWith(ds, face) == k + FirstWith(ds[k..], face)
      {
        assert ds[k..][0] == ds[k] && ds[k..][1..] == ds[k + 1..];
        if ds[k].face == face {
          break;
        }
        k := k + 1;
      }
    }

    method CountToken(token: string)
      modifies this`bills, this`coins
      ensures Contents() == Add(old(Contents()), token)
    {
      if IsCoin(token) {
        var k := FindFace(coins, FaceOf(token, true));
        if k < |coins| {
          coins := coins[k := coins[k].(value := coins[k].value + 1)];
        }
      } else {
        var k := FindFace(bills, FaceOf(token, false));
        if k < |bills| {
          bills := bills[k := bills[k].(value := bills[k].value + 1)];
        }
      }
    }

    method CountTokens(list: seq<string>)
      modifies this`bills, this`coins
      ensures Contents() == AddAll(old(Contents()), list)
    {
      for j := 0 to |list|
        invariant Contents() == AddAll(old(Contents()), list[..j])
      {
        assert list[..j + 1][..j] == list[..j];
        CountToken(list[j]);
      }
      assert list[..|list|] == list;
    }

    method ParserCollectIntoOperation(records: seq<string>)
      modifies this
      ensures Contents() == Tallied(old(Contents()), records) && Totalled()
    {
      ResetCounts();
      for i := 0 to |records|
        invariant Contents() == AddAll(EmptyBox(old(Contents())), AllTokens(records[..i]))
      {
        assert records[..i + 1][..i] == records[..i];
        AddAllAppends(EmptyBox(old(Contents())), AllTokens(records[..i]), Tokens(records[i], ""));
        CountTokens(Tokens(records[i], ""));
      }
      assert records[..|records|] == records;
      CalculateTotal();
    }

    method GetDenominalXml() returns (slots: seq<Slot>)
      ensures slots == Document(Contents())
    {
      slots := [];
      for i := 0 to |bills|
        invariant slots == Mapped(bills[..i], BillSlot)
      {
        SlotsGrow(bills, i, BillSlot);
        slots := slots + [BillSlot(bills[i])];
      }
      assert bills[..|bills|] == bills;
      for i := 0 to |coins|
        invariant slots == Mapped(bills, BillSlot) + Mapped(coins[..i], CoinSlot)
      {
        SlotsGrow(coins, i, CoinSlot);
        slots := slots + [CoinSlot(coins[i])];
      }
      assert coins[..|coins|] == coins;
    }

    /** Reads the slots from number `from` up to `to` into one side. */
    method AssignSlots(ds: seq<Denom>, slots: seq<Slot>, from: nat, to: nat, coin: bool) returns (r: seq<Denom>)
      requires from <= to
      ensures r == Fill(ds, SlotRange(slots, from, to, coin))
    {
      r := ds;
      for i := from to to
        invariant r == Fill(ds, SlotRange(slots, from, i, coin))
      {
        FillOne(ds, slots, from, i, coin);
        var d := SlotDenom(SlotAt(slots, i), coin);
        var k := FindFace(r, d.face);
        if k < |r| {
          r := r[k := r[k].(value := d.value)];
        }
      }
    }

    /** `None` stands for a text that is not a document: the counts are cleared, the totals stay. */
    method ParsDenomilSlot(xml: Option<seq<Slot>>) returns (ok: bool)
      modifies this
      ensures ok <==> xml.Some?
      ensures xml.Some? ==> Contents() == ReadBack(old(Contents()), xml.value) && Totalled()
      ensures xml.None? ==> Contents() == EmptyBox(old(Contents()))
      ensures xml.None? ==> (billCount, billSum, coinCount, coinSum) == old((billCount, billSum, coinCount, coinSum))
    {
      ResetCounts();
      if xml.None? {
        return false;
      }
      bills := AssignSlots(bills, xml.value, 0, BILL_SLOTS, false);
      coins := AssignSlots(coins, xml.value, BILL_SLOTS, ALL_SLOTS, true);
      CalculateTotal();
      return true;
    }
  }
}
