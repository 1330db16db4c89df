/** What the tally and the document make of any text: which strings read as numbers, how a
    denomination string falls into tokens, and how many of them each denomination counts. */
module CashText {
  import opened Common
  import opened CashModel

  // ---------------------------------------------------------------- numbers

  predicate AllSpace(s: string) {
    forall i :: 0 <= i < |s| ==> IsSpace(s[i])
  }

  predicate IsSign(s: string) {
    s == "" || s == "+" || s == "-"
  }

  /** The number that a sign and digits stand for, if it is one of 32 bits, and 0 otherwise. */
  function Signed(sign: string, digits: string): int
    requires AllDigits(digits)
  {
    var magnitude: int := DigitsValue(digits);
    var n := if sign == "-" then -magnitude else magnitude;
    if INT_MIN <= n <= INT_MAX then n else 0
  }

  lemma {:induction false} TrimsLeft(l: string, s: string)
    requires AllSpace(l) && (s == "" || !IsSpace(s[0]))
    ensures TrimLeft(l + s) == s
  {
    if l == "" {
      assert l + s == s;
    } else {
      assert (l + s)[0] == l[0] && (l + s)[1..] == l[1..] + s;
      TrimsLeft(l[1..], s);
    }
  }

  lemma {:induction false} TrimsRight(s: string, r: string)
    requires AllSpace(r) && (s == "" || !IsSpace(s[|s| - 1]))
    ensures TrimRight(s + r) == s
  {
    if r == "" {
      assert s + r == s;
    } else {
      assert (s + r)[|s + r| - 1] == r[|r| - 1] && (s + r)[..|s + r| - 1] == s + r[..|r| - 1];
      TrimsRight(s, r[..|r| - 1]);
    }
  }

  function Trimmed(s: string): string {
    TrimRight(TrimLeft(s))
  }

  lemma TrimmedReads(s: string, sign: string, digits: string)
    requires Trimmed(s) == sign + digits && IsSign(sign) && digits != "" && AllDigits(digits)
    ensures ToInt(s) == Signed(sign, digits)
  {
    var t := sign + digits;
    if sign == "" {
      assert t == digits && IsDigit(digits[0]);
    } else {
      assert t[0] == sign[0] && t[1..] == digits;
    }
  }

  /** A number with a sign or without one reads as itself, whatever space is around it. */
  lemma NumbersRead(l: string, sign: string, digits: string, r: string)
    requires AllSpace(l) && AllSpace(r) && IsSign(sign) && digits != "" && AllDigits(digits)
    ensures ToInt(l + sign + digits + r) == Signed(sign, digits)
  {
    var n := sign + digits;
    assert l + sign + digits + r == l + (n + r);
    assert IsDigit(digits[|digits| - 1]) && IsDigit(digits[0]);
    assert n[|n| - 1] == digits[|digits| - 1] && n[0] == (if sign == "" then digits[0] else sign[0]);
    assert (n + r)[0] == n[0];
    TrimsLeft(l, n + r);
    TrimsRight(n, r);
    TrimmedReads(l + sign + digits + r, sign, digits);
  }

  lemma {:induction false} LeftSpace(s: string) returns (l: string)
    ensures AllSpace(l) && s == l + TrimLeft(s)
  {
    if s != "" && IsSpace(s[0]) {
      var rest := LeftSpace(s[1..]);
      l := [s[0]] + rest;
    } else {
      l := "";
    }
  }

  lemma {:induction false} RightSpace(s: string) returns (r: string)
    ensures AllSpace(r) && s == TrimRight(s) + r
  {
    if s != "" && IsSpace(s[|s| - 1]) {
      var rest := RightSpace(s[..|s| - 1]);
      r := rest + [s[|s| - 1]];
    } else {
      r := "";
    }
  }

  lemma SignAndDigits(s: string) returns (sign: string, digits: string)
    requires ToInt(s) != 0
    ensures Trimmed(s) == sign + digits && IsSign(sign) && digits != "" && AllDigits(digits)
  {
    var t := Trimmed(s);
    if t[0] == '-' || t[0] == '+' {
      sign, digits := [t[0]], t[1..];
    } else {
      sign, digits := "", t;
    }
  }

  /** Nothing else reads as a number: a string that does not read as 0 is one of those. */
  lemma OnlyNumbersRead(s: string) returns (l: string, sign: string, digits: string, r: string)
    requires ToInt(s) != 0
    ensures AllSpace(l) && AllSpace(r) && IsSign(sign) && digits != "" && AllDigits(digits)
    ensures s == l + sign + digits + r && ToInt(s) == Signed(sign, digits)
  {
    l := LeftSpace(s);
    r := RightSpace(TrimLeft(s));
    sign, digits := SignAndDigits(s);
    assert s == l + ((sign + digits) + r) == l + sign + digits + r;
    TrimmedReads(s, sign, digits);
  }

  // ---------------------------------------------------------------- tokens

  lemma {:induction false} TokensFrom(a: string, part: string, b: string)
    ensures Tokens(a + "," + b, part) == Tokens(a, part) + Tokens(b, "")
  {
    if a == "" {
      assert a + "," + b == "," + b && ("," + b)[1..] == b;
    } else {
      assert (a + "," + b)[0] == a[0] && (a + "," + b)[1..] == a[1..] + "," + b;
      TokensFrom(a[1..], if a[0] == ',' then "" else part + [a[0]], b);
    }
  }

  lemma {:induction false} TokenWithout(a: string, part: string)
    requires ',' !in a
    ensures Tokens(a, part) == if part + a == "" then [] else [part + a]
  {
    if a == "" {
      assert part + a == part;
    } else {
      assert a[0] in a && forall x :: x in a[1..] ==> x in a;
      assert part + a == (part + [a[0]]) + a[1..];
      TokenWithout(a[1..], part + [a[0]]);
    }
  }

  /** A string falls into tokens at its commas, and empty ones do not count. */
  lemma TokensSplit(a: string, b: string)
    ensures Tokens(a + "," + b, "") == Tokens(a, "") + Tokens(b, "")
    ensures ',' !in a ==> Tokens(a, "") == if a == "" then [] else [a]
  {
    TokensFrom(a, "", b);
    if ',' !in a {
      TokenWithout(a, "");
      assert "" + a == a;
    }
  }

  // ---------------------------------------------------------------- one denomination

  function Occurrences(xs: seq<int>, x: int): nat {
    if xs == [] then 0 else Occurrences(xs[..|xs| - 1], x) + if xs[|xs| - 1] == x then 1 else 0
  }

  lemma {:induction false} CountsEach(ds: seq<Denom>, faces: seq<int>, i: nat)
    requires i < |ds|
    ensures SameFaces(CountAll(ds, faces), ds)
    ensures CountAll(ds, faces)[i].value ==
      ds[i].value + if FirstWith(ds, ds[i].face) == i then Occurrences(faces, ds[i].face) else 0
  {
    if faces == [] {
    } else {
      var n := |faces| - 1;
      var now := CountAll(ds, faces[..n]);
      CountsEach(ds, faces[..n], i);
      CountedInAdds(now, faces[n]);
      FirstWithSameFaces(now, ds, faces[n]);
    }
  }

  /** After the tally each denomination counts the tokens of its kind that read as its face; of two
      with the same face only the first one counts. */
  lemma TallyCountsEach(box: Box, records: seq<string>, coin: bool, i: nat)
    requires i < |Side(box, coin)|
    ensures
      var side, d := Side(Tallied(box, records), coin), Side(box, coin)[i];
      i < |side| && side[i] == Denom(d.face,
        if FirstWith(Side(box, coin), d.face) == i then Occurrences(Readings(AllTokens(records), coin), d.face) else 0)
  {
    var ds := Zeroed(Side(box, coin));
    SidesApart(EmptyBox(box), AllTokens(records), coin);
    CountsEach(ds, Readings(AllTokens(records), coin), i);
    FirstWithSameFaces(ds, Side(box, coin), ds[i].face);
  }
}
