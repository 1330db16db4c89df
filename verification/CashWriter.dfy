/** The denomination strings as the terminal itself writes them, and what the tally makes of
    them. A coin arrives in hundredths and is divided by a hundred before it is written. */
module CashWriter {
  import opened Common
  import opened CashModel

  /** One note, or one coin in hundredths. */
  datatype Piece = Piece(coin: bool, nominal: nat)

  /** The nominals that are written without an exponent or rounding. */
  predicate Plain(p: Piece) {
    0 < p.nominal < 1_000_000
  }

  function OneDigit(d: nat): string
    requires d < 10
  {
    [('0' as int + d) as char]
  }

  /** A number of hundredths, as `%1` writes the quotient. */
  function HundredthsText(n: nat): string {
    if n % 100 == 0 then NatText(n / 100)
    else NatText(n / 100) + "." + OneDigit(n / 10 % 10) + (if n % 10 == 0 then "" else OneDigit(n % 10))
  }

  function TokenOf(p: Piece): string {
    if p.coin then HundredthsText(p.nominal) + "M" else NatText(p.nominal)
  }

  /** The denomination string of one payment. */
  function Joined(tokens: seq<string>): string {
    if tokens == [] then ""
    else if |tokens| == 1 then tokens[0]
    else Joined(tokens[..|tokens| - 1]) + "," + tokens[|tokens| - 1]
  }

  function Written(payments: seq<seq<Piece>>): seq<string> {
    Mapped(payments, (ps: seq<Piece>) => Joined(Mapped(ps, TokenOf)))
  }

  function AllPieces(payments: seq<seq<Piece>>): seq<Piece> {
    if payments == [] then [] else AllPieces(payments[..|payments| - 1]) + payments[|payments| - 1]
  }

  // ---------------------------------------------------------------- one piece

  lemma {:induction false} WithoutAbsent(s: string, c: char)
    requires c !in s
    ensures Without(s + [c], c) == s
  {
    if s == "" {
      assert [c][1..] == "";
    } else {
      assert s[0] in s && c !in s[1..];
      WithoutAbsent(s[1..], c);
      assert (s + [c])[0] == s[0] && (s + [c])[1..] == s[1..] + [c];
    }
  }

  /** Only digits and a point. */
  predicate DigitsAndPoint(s: string) {
    s != "" && IsDigit(s[0]) && IsDigit(s[|s| - 1]) && forall i :: 0 <= i < |s| ==> IsDigit(s[i]) || s[i] == '.'
  }

  lemma NatTextIsPlain(n: nat)
    ensures DigitsAndPoint(NatText(n)) && '.' !in NatText(n)
  {
    var s := NatText(n);
    assert IsDigit(s[0]) && IsDigit(s[|s| - 1]);
  }

  lemma HundredthsIsPlain(n: nat)
    ensures DigitsAndPoint(HundredthsText(n)) && ('.' in HundredthsText(n) <==> n % 100 != 0)
  {
    NatTextIsPlain(n / 100);
    if n % 100 != 0 {
      var s := NatText(n / 100);
      assert HundredthsText(n)[|s|] == '.';
    }
  }

  lemma PointReadsAsNothing(s: string)
    requires DigitsAndPoint(s) && '.' in s
    ensures ToInt(s) == 0
  {
    NothingToTrim(s);
    var i :| 0 <= i < |s| && s[i] == '.';
    assert !IsDigit(s[i]);
  }

  /** What the tally reads a piece as. */
  function SeenAs(p: Piece): int {
    if !p.coin then p.nominal else if p.nominal % 100 == 0 then p.nominal / 100 else 0
  }

  lemma PlainHasNoMarks(s: string)
    requires DigitsAndPoint(s)
    ensures 'M' !in s && ',' !in s
  {}

  lemma TokenReads(p: Piece)
    requires Plain(p)
    ensures IsCoin(TokenOf(p)) == p.coin && FaceOf(TokenOf(p), p.coin) == SeenAs(p)
    ensures TokenOf(p) != "" && ',' !in TokenOf(p)
  {
    if p.coin {
      var body := HundredthsText(p.nominal);
      HundredthsIsPlain(p.nominal);
      PlainHasNoMarks(body);
      WithoutAbsent(body, 'M');
      assert TokenOf(p)[|body|] == 'M';
      if p.nominal % 100 == 0 {
        IntTextReads(p.nominal / 100);
      } else {
        PointReadsAsNothing(body);
      }
    } else {
      NatTextIsPlain(p.nominal);
      PlainHasNoMarks(NatText(p.nominal));
      IntTextReads(p.nominal);
    }
  }

  // ---------------------------------------------------------------- a payment's string

  lemma {:induction false} PlainToken(t: string, part: string)
    requires ',' !in t && part + t != ""
    ensures Tokens(t, part) == [part + t]
  {
    if t == "" {
      assert part + t == part;
    } else {
      assert t[0] in t && forall x :: x in t[1..] ==> x in t;
      assert part + t == (part + [t[0]]) + t[1..];
      PlainToken(t[1..], part + [t[0]]);
    }
  }

  lemma {:induction false} TokensAppend(s: string, part: string, t: string)
    requires ',' !in t && t != ""
    ensures Tokens(s + "," + t, part) == Tokens(s, part) + [t]
  {
    if s == "" {
      var rest := "," + t;
      assert s + "," + t == rest && rest[0] == ',' && rest[1..] == t && "" + t == t;
      PlainToken(t, "");
    } else {
      assert (s + "," + t)[1..] == s[1..] + "," + t;
      if s[0] == ',' {
        TokensAppend(s[1..], "", t);
      } else {
        TokensAppend(s[1..], part + [s[0]], t);
      }
    }
  }

  /** Splitting undoes joining. */
  lemma {:induction false} JoinedSplits(tokens: seq<string>)
    requires forall t :: t in tokens ==> ',' !in t && t != ""
    ensures Tokens(Joined(tokens), "") == tokens
  {
    if tokens == [] {
    } else if |tokens| == 1 {
      assert tokens[0] in tokens && "" + tokens[0] == tokens[0];
      PlainToken(tokens[0], "");
    } else {
      var n := |tokens| - 1;
      JoinedSplits(tokens[..n]);
      TokensAppend(Joined(tokens[..n]), "", tokens[n]);
      assert tokens == tokens[..n] + [tokens[n]];
    }
  }

  lemma MappedAppends<A, B>(a: seq<A>, b: seq<A>, f: A -> B)
    ensures Mapped(a + b, f) == Mapped(a, f) + Mapped(b, f)
  {}

  ghost predicate AllPlain(payments: seq<seq<Piece>>) {
    forall i, j :: 0 <= i < |payments| && 0 <= j < |payments[i]| ==> Plain(payments[i][j])
  }

  lemma {:induction false} WrittenTokens(payments: seq<seq<Piece>>)
    requires AllPlain(payments)
    ensures AllTokens(Written(payments)) == Mapped(AllPieces(payments), TokenOf)
  {
    if payments == [] {
    } else {
      var n := |payments| - 1;
      WrittenTokens(payments[..n]);
      assert Written(payments)[..n] == Written(payments[..n]);
      forall t | t in Mapped(payments[n], TokenOf) ensures ',' !in t && t != "" {
        var j :| 0 <= j < |payments[n]| && t == TokenOf(payments[n][j]);
        TokenReads(payments[n][j]);
      }
      JoinedSplits(Mapped(payments[n], TokenOf));
      MappedAppends(AllPieces(payments[..n]), payments[n], TokenOf);
    }
  }

  // ---------------------------------------------------------------- the tally

  /** What the pieces of one kind are read as. */
  function Seen(ps: seq<Piece>, coin: bool): seq<int> {
    if ps == [] then []
    else
      var p := ps[|ps| - 1];
      Seen(ps[..|ps| - 1], coin) + if p.coin == coin then [SeenAs(p)] else []
  }

  lemma {:induction false} ReadingsSeen(ps: seq<Piece>, coin: bool)
    requires forall p :: p in ps ==> Plain(p)
    ensures Readings(Mapped(ps, TokenOf), coin) == Seen(ps, coin)
  {
    if ps == [] {
    } else {
      var n := |ps| - 1;
      ReadingsSeen(ps[..n], coin);
      assert Mapped(ps, TokenOf)[..n] == Mapped(ps[..n], TokenOf);
      assert ps[n] in ps;
      TokenReads(ps[n]);
    }
  }

  lemma {:induction false} AllPiecesPlain(payments: seq<seq<Piece>>)
    requires AllPlain(payments)
    ensures forall p :: p in AllPieces(payments) ==> Plain(p)
  {
    if payments == [] {
    } else {
      AllPiecesPlain(payments[..|payments| - 1]);
    }
  }

  /** The tally of the terminal's own strings, whatever pieces were inserted in which payments:
      every note counts at its nominal, every coin at a hundredth of its nominal if that is
      whole and else at nothing, as far as there is such a face. */
  lemma WrittenTally(box: Box, payments: seq<seq<Piece>>, coin: bool)
    requires AllPlain(payments)
    ensures
      var side := Side(Tallied(box, Written(payments)), coin);
      var known := Recognised(Seen(AllPieces(payments), coin), Zeroed(Side(box, coin)));
      TotalCount(side) == |known| && TotalSum(side) == Sum(known)
  {
    WrittenTokens(payments);
    AllPiecesPlain(payments);
    ReadingsSeen(AllPieces(payments), coin);
    TallyConserves(box, Written(payments), coin);
  }

  /** The worth of the pieces of one kind, in the unit in which they arrived. */
  function Worth(ps: seq<Piece>, coin: bool): int {
    if ps == [] then 0
    else
      var p := ps[|ps| - 1];
      Worth(ps[..|ps| - 1], coin) + if p.coin == coin then p.nominal else 0
  }

  lemma {:induction false} SumOfNotes(ps: seq<Piece>, ds: seq<Denom>)
    requires forall p :: p in ps && !p.coin ==> HasFace(ds, p.nominal)
    ensures Sum(Recognised(Seen(ps, false), ds)) == Worth(ps, false)
  {
    if ps == [] {
    } else {
      var n := |ps| - 1;
      SumOfNotes(ps[..n], ds);
      assert ps[n] in ps;
      RecognisedOneMore(Seen(ps[..n], false), SeenAs(ps[n]), ds);
      assert Seen(ps[..n], false) + [] == Seen(ps[..n], false);
    }
  }

  lemma RecognisedOneMore(faces: seq<int>, face: int, ds: seq<Denom>)
    ensures Sum(Recognised(faces + [face], ds)) == Sum(Recognised(faces, ds)) + if HasFace(ds, face) then face else 0
  {
    assert (faces + [face])[..|faces|] == faces;
    var known := Recognised(faces, ds);
    assert (known + [face])[..|known|] == known && known + [] == known;
  }

  lemma {:induction false} SumOfCoins(ps: seq<Piece>, ds: seq<Denom>)
    ensures 0 <= 100 * Sum(Recognised(Seen(ps, true), ds)) <= Worth(ps, true)
  {
    if ps == [] {
    } else {
      var n := |ps| - 1;
      SumOfCoins(ps[..n], ds);
      RecognisedOneMore(Seen(ps[..n], true), SeenAs(ps[n]), ds);
      assert Seen(ps[..n], true) + [] == Seen(ps[..n], true);
    }
  }

  /** Notes are tallied at their worth, provided every one has a face. */
  lemma NotesAreTallied(box: Box, payments: seq<seq<Piece>>)
    requires AllPlain(payments)
    requires forall p :: p in AllPieces(payments) && !p.coin ==> HasFace(Zeroed(box.bills), p.nominal)
    ensures TotalSum(Tallied(box, Written(payments)).bills) == Worth(AllPieces(payments), false)
  {
    WrittenTally(box, payments, false);
    SumOfNotes(AllPieces(payments), Zeroed(box.bills));
  }

  lemma {:induction false} NoWorthNoCoins(ps: seq<Piece>)
    requires forall p :: p in ps ==> Plain(p)
    ensures Worth(ps, true) >= 0 && (Worth(ps, true) == 0 <==> forall p :: p in ps ==> !p.coin)
  {
    if ps == [] {
    } else {
      NoWorthNoCoins(ps[..|ps| - 1]);
      assert ps == ps[..|ps| - 1] + [ps[|ps| - 1]] && ps[|ps| - 1] in ps;
    }
  }

  /** Coins are tallied at their worth in hundredths if and only if there are none, whatever the
      configured faces are. */
  lemma CoinsAreTalliedIff(box: Box, payments: seq<seq<Piece>>)
    requires AllPlain(payments)
    ensures TotalSum(Tallied(box, Written(payments)).coins) == Worth(AllPieces(payments), true)
      <==> forall p :: p in AllPieces(payments) ==> !p.coin
  {
    WrittenTally(box, payments, true);
    SumOfCoins(AllPieces(payments), Zeroed(box.coins));
    AllPiecesPlain(payments);
    NoWorthNoCoins(AllPieces(payments));
  }

  // ---------------------------------------------------------------- as the pieces are inserted

  class MainPageLoader {
    var nominalInserted: nat
    var nominalDenomination: string
    ghost var inserted: seq<Piece>

    ghost predicate Valid()
      reads this
    {
      nominalInserted == |inserted| && nominalDenomination == Joined(Mapped(inserted, TokenOf))
    }

    constructor ()
      ensures Valid() && inserted == []
    {
      nominalInserted, nominalDenomination, inserted := 0, "", [];
    }

    method InputNominal(aNominal: nat, coin: bool)
      requires Valid()
      modifies this
      ensures Valid() && inserted == old(inserted) + [Piece(coin, aNominal)]
    {
      var nominal := if coin then HundredthsText(aNominal) else NatText(aNominal);
      nominalInserted := nominalInserted + 1;
      if nominalInserted == 1 {
        nominalDenomination := if coin then nominal + "M" else nominal;
      } else {
        nominalDenomination := nominalDenomination + "," + if coin then nominal + "M" else nominal;
      }
      JoinedOneMore(inserted, Piece(coin, aNominal));
      inserted := inserted + [Piece(coin, aNominal)];
    }

    method ClearNominalData()
      modifies this
      ensures Valid() && inserted == []
    {
      nominalInserted, nominalDenomination, inserted := 0, "", [];
    }
  }

  lemma JoinedOneMore(ps: seq<Piece>, p: Piece)
    ensures Joined(Mapped(ps + [p], TokenOf)) ==
      if ps == [] then TokenOf(p) else Joined(Mapped(ps, TokenOf)) + "," + TokenOf(p)
  {
    var tokens := Mapped(ps + [p], TokenOf);
    assert tokens[..|ps|] == Mapped(ps, TokenOf);
  }
}
