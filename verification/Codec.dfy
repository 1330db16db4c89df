/** The string codec: UTF-8, an XOR with the low byte of a key, Base64, and back. The
    decoders are total, as the library's are: what is not well formed is skipped or replaced. */
module CodecModel {
  import opened Common

  type byte = x: int | 0 <= x < 256

  // ---------------------------------------------------------------- UTF-8

  const REPLACEMENT: char := '\U{FFFD}'
  const BYTE_ORDER_MARK: char := '\U{FEFF}'

  function EncodeChar(c: char): (r: seq<byte>)
    ensures 1 <= |r| <= 4
  {
    var n := c as int;
    if n < 0x80 then [n]
    else if n < 0x800 then [0xC0 + n / 64, 0x80 + n % 64]
    else if n < 0x1_0000 then [0xE0 + n / 4096, 0x80 + n / 64 % 64, 0x80 + n % 64]
    else [0xF0 + n / 262144, 0x80 + n / 4096 % 64, 0x80 + n / 64 % 64, 0x80 + n % 64]
  }

  /** `toUtf8` of a well-formed string. */
  function ToUtf8(s: string): seq<byte> {
    if s == [] then [] else EncodeChar(s[0]) + ToUtf8(s[1..])
  }

  predicate Continues(b: byte) {
    0x80 <= b < 0xC0
  }

  predicate IsScalar(n: int) {
    0 <= n < 0xD800 || 0xE000 <= n < 0x11_0000
  }

  function Join2(b0: int, b1: int): int {
    (b0 - 0xC0) * 64 + (b1 - 0x80)
  }

  function Join3(b0: int, b1: int, b2: int): int {
    (b0 - 0xE0) * 4096 + (b1 - 0x80) * 64 + (b2 - 0x80)
  }

  function Join4(b0: int, b1: int, b2: int, b3: int): int {
    (b0 - 0xF0) * 262144 + (b1 - 0x80) * 4096 + (b2 - 0x80) * 64 + (b3 - 0x80)
  }

  /** The character at the front of `b` and the number of bytes it takes; a byte that does
      not start a well-formed character becomes a replacement character by itself. */
  function DecodeFront(b: seq<byte>): (r: (char, nat))
    requires b != []
    ensures 1 <= r.1 <= |b|
  {
    if b[0] < 0x80 then (b[0] as char, 1)
    else if 0xC2 <= b[0] < 0xE0 && |b| >= 2 && Continues(b[1]) then
      (Join2(b[0], b[1]) as char, 2)
    else if 0xE0 <= b[0] < 0xF0 && |b| >= 3 && Continues(b[1]) && Continues(b[2]) then
      var n := Join3(b[0], b[1], b[2]);
      if n >= 0x800 && IsScalar(n) then (n as char, 3) else (REPLACEMENT, 1)
    else if 0xF0 <= b[0] < 0xF5 && |b| >= 4 && Continues(b[1]) && Continues(b[2]) && Continues(b[3]) then
      var n := Join4(b[0], b[1], b[2], b[3]);
      if n >= 0x1_0000 && IsScalar(n) then (n as char, 4) else (REPLACEMENT, 1)
    else (REPLACEMENT, 1)
  }

  function DecodeAll(b: seq<byte>): string
    decreases |b|
  {
    if b == [] then [] else
      var (c, n) := DecodeFront(b);
      [c] + DecodeAll(b[n..])
  }

  predicate StartsWithMark(b: seq<byte>) {
    |b| >= 3 && b[0] == 0xEF && b[1] == 0xBB && b[2] == 0xBF
  }

  /** `fromUtf8`: a byte-order mark in front is not part of the text. */
  function FromUtf8(b: seq<byte>): string {
    DecodeAll(if StartsWithMark(b) then b[3..] else b)
  }

  lemma Joins(n: int)
    requires 0 <= n < 0x11_0000
    ensures Join2(0xC0 + n / 64, 0x80 + n % 64) == n
    ensures Join3(0xE0 + n / 4096, 0x80 + n / 64 % 64, 0x80 + n % 64) == n
    ensures Join4(0xF0 + n / 262144, 0x80 + n / 4096 % 64, 0x80 + n / 64 % 64, 0x80 + n % 64) == n
  {
    assert n == n / 64 * 64 + n % 64;
    assert n / 64 == n / 4096 * 64 + n / 64 % 64;
    assert n / 4096 == n / 262144 * 64 + n / 4096 % 64;
  }

  lemma DecodesEncoded(c: char, rest: seq<byte>)
    ensures DecodeFront(EncodeChar(c) + rest) == (c, |EncodeChar(c)|)
  {
    var n := c as int;
    var e := EncodeChar(c);
    var b := e + rest;
    Joins(n);
    assert forall i :: 0 <= i < |e| ==> b[i] == e[i];
    if n >= 0x1_0000 {
      assert Join4(b[0], b[1], b[2], b[3]) == n;
    } else if n >= 0x800 {
      assert Join3(b[0], b[1], b[2]) == n;
    } else if n >= 0x80 {
      assert Join2(b[0], b[1]) == n;
    }
  }

  /** Every string comes back from its bytes. */
  lemma {:induction false} DecodeAllInverts(s: string)
    ensures DecodeAll(ToUtf8(s)) == s
  {
    if s == [] {
    } else {
      var e := EncodeChar(s[0]);
      var rest := ToUtf8(s[1..]);
      DecodesEncoded(s[0], rest);
      assert (e + rest)[|e|..] == rest;
      DecodeAllInverts(s[1..]);
    }
  }

  lemma MarkInFront(s: string)
    ensures StartsWithMark(ToUtf8(s)) <==> s != [] && s[0] == BYTE_ORDER_MARK
  {
    if s != [] {
      var e := EncodeChar(s[0]);
      var rest := ToUtf8(s[1..]);
      var b := e + rest;
      DecodesEncoded(s[0], rest);
      assert b[0] == e[0];
      if StartsWithMark(b) {
        assert DecodeFront(b) == (BYTE_ORDER_MARK, 3);
      }
      if s[0] == BYTE_ORDER_MARK {
        assert e == [0xEF, 0xBB, 0xBF];
        assert b[1] == e[1] && b[2] == e[2];
      }
    }
  }

  /** `fromUtf8(toUtf8(s))` is `s` without a byte-order mark in front. */
  lemma Utf8RoundTrip(s: string)
    ensures FromUtf8(ToUtf8(s)) == if s != [] && s[0] == BYTE_ORDER_MARK then s[1..] else s
  {
    MarkInFront(s);
    DecodeAllInverts(s);
    if s != [] && s[0] == BYTE_ORDER_MARK {
      assert EncodeChar(s[0]) == [0xEF, 0xBB, 0xBF];
      assert ToUtf8(s)[3..] == ToUtf8(s[1..]);
      DecodeAllInverts(s[1..]);
    }
  }

  // ---------------------------------------------------------------- XOR

  /** Exclusive or of the `n` low bits. */
  function XorBits(a: nat, b: nat, n: nat): (r: nat)
    ensures r < Pow2(n)
  {
    if n == 0 then 0
    else (if a % 2 == b % 2 then 0 else 1) + 2 * XorBits(a / 2, b / 2, n - 1)
  }

  lemma {:induction false} XorBitsTwice(a: nat, b: nat, n: nat)
    requires a < Pow2(n)
    ensures XorBits(XorBits(a, b, n), b, n) == a
  {
    if n == 0 {
    } else {
      var r := XorBits(a, b, n);
      assert r / 2 == XorBits(a / 2, b / 2, n - 1);
      XorBitsTwice(a / 2, b / 2, n - 1);
    }
  }

  function XorByte(b: byte, k: byte): byte {
    Powers();
    XorBits(b, k, 8)
  }

  function LowByte(key: uint32): byte {
    key % 256
  }

  function XorAll(b: seq<byte>, k: byte): (r: seq<byte>)
    ensures |r| == |b|
    ensures forall i :: 0 <= i < |b| ==> r[i] == XorByte(b[i], k)
  {
    seq(|b|, i requires 0 <= i < |b| => XorByte(b[i], k))
  }

  lemma XorByteTwice(b: byte, k: byte)
    ensures XorByte(XorByte(b, k), k) == b
  {
    Powers();
    XorBitsTwice(b, k, 8);
  }

  lemma XorTwice(b: seq<byte>, k: byte)
    ensures XorAll(XorAll(b, k), k) == b
  {
    forall i | 0 <= i < |b| ensures XorAll(XorAll(b, k), k)[i] == b[i] {
      XorByteTwice(b[i], k);
    }
  }

  // ---------------------------------------------------------------- Base64

  function Digit(d: int): char
    requires 0 <= d < 64
  {
    if d < 26 then ('A' as int + d) as char
    else if d < 52 then ('a' as int + d - 26) as char
    else if d < 62 then ('0' as int + d - 52) as char
    else if d == 62 then '+'
    else '/'
  }

  function DigitValue(c: char): Option<int> {
    if 'A' <= c <= 'Z' then Some(c as int - 'A' as int)
    else if 'a' <= c <= 'z' then Some(c as int - 'a' as int + 26)
    else if '0' <= c <= '9' then Some(c as int - '0' as int + 52)
    else if c == '+' then Some(62)
    else if c == '/' then Some(63)
    else None
  }

  /** Section 4 of RFC 4648: groups of three bytes, with one or two pad characters when the
      last group is short. */
  function Base64(b: seq<byte>): string {
    if |b| == 0 then []
    else if |b| == 1 then
      [Digit(b[0] / 4), Digit(b[0] % 4 * 16), '=', '=']
    else if |b| == 2 then
      [Digit(b[0] / 4), Digit(b[0] % 4 * 16 + b[1] / 16), Digit(b[1] % 16 * 4), '=']
    else
      [Digit(b[0] / 4), Digit(b[0] % 4 * 16 + b[1] / 16), Digit(b[1] % 16 * 4 + b[2] / 64), Digit(b[2] % 64)]
      + Base64(b[3..])
  }

  function Pow2(n: nat): (r: int)
    ensures r > 0
  {
    if n == 0 then 1 else 2 * Pow2(n - 1)
  }

  /** The bit buffer of the decoder: `bits` pending bits with value `buf`. A character outside
      the alphabet, the pad character among them, is skipped. */
  function Unbase64(s: string, buf: int, bits: nat): seq<byte>
    requires bits < 8 && 0 <= buf < Pow2(bits)
  {
    if s == [] then []
    else
      var d := DigitValue(s[0]);
      if d.None? then Unbase64(s[1..], buf, bits)
      else
        var buf' := buf * 64 + d.value;
        if bits + 6 >= 8 then
          BufferBounds(buf, bits, d.value);
          [buf' / Pow2(bits - 2)] + Unbase64(s[1..], buf' % Pow2(bits - 2), bits - 2)
        else
          BufferBounds(buf, bits, d.value);
          Unbase64(s[1..], buf', bits + 6)
  }

  lemma Powers()
    ensures Pow2(0) == 1 && Pow2(1) == 2 && Pow2(2) == 4 && Pow2(3) == 8 && Pow2(4) == 16 && Pow2(5) == 32
    ensures Pow2(6) == 64 && Pow2(7) == 128 && Pow2(8) == 256
  {
    assert Pow2(3) == 8;
    assert Pow2(5) == 32;
  }

  lemma BufferBounds(buf: int, bits: nat, d: int)
    requires bits < 8 && 0 <= buf < Pow2(bits) && 0 <= d < 64
    ensures bits >= 2 ==> 0 <= (buf * 64 + d) / Pow2(bits - 2) < 256
    ensures bits < 2 ==> buf * 64 + d < Pow2(bits + 6)
  {
    Powers();
  }

  lemma DigitInverse(d: int)
    requires 0 <= d < 64
    ensures DigitValue(Digit(d)) == Some(d)
  {}

  /** A digit that does not fill the buffer. */
  lemma UnbaseGathers(d: int, s: string)
    requires 0 <= d < 64
    ensures d < Pow2(6) && Unbase64([Digit(d)] + s, 0, 0) == Unbase64(s, d, 6)
  {
    Powers();
    DigitInverse(d);
    assert ([Digit(d)] + s)[1..] == s;
  }

  /** A digit that completes the byte `out` and leaves `rest` pending. */
  lemma UnbaseEmits(d: int, s: string, buf: int, bits: nat, out: byte, rest: int)
    requires 0 <= d < 64 && 2 <= bits < 8 && 0 <= buf < Pow2(bits)
    requires 0 <= rest < Pow2(bits - 2) && buf * 64 + d == out * Pow2(bits - 2) + rest
    ensures Unbase64([Digit(d)] + s, buf, bits) == [out] + Unbase64(s, rest, bits - 2)
  {
    Powers();
    DigitInverse(d);
    assert ([Digit(d)] + s)[1..] == s;
    Quotient(buf * 64 + d, Pow2(bits - 2), out, rest);
  }

  lemma Quotient(n: int, p: int, q: int, r: int)
    requires p in {1, 2, 4, 8, 16, 32} && 0 <= r < p && n == q * p + r
    ensures n / p == q && n % p == r
  {
    if
    case p == 1 =>
    case p == 2 =>
    case p == 4 =>
    case p == 8 =>
    case p == 16 =>
    case p == 32 =>
  }

  /** The first two digits of a group. */
  lemma UnbaseFirst(b0: byte, b1: byte, s: string)
    ensures b1 / 16 < Pow2(4)
    ensures Unbase64([Digit(b0 / 4)] + ([Digit(b0 % 4 * 16 + b1 / 16)] + s), 0, 0) == [b0] + Unbase64(s, b1 / 16, 4)
  {
    Powers();
    UnbaseGathers(b0 / 4, [Digit(b0 % 4 * 16 + b1 / 16)] + s);
    UnbaseEmits(b0 % 4 * 16 + b1 / 16, s, b0 / 4, 6, b0, b1 / 16);
  }

  /** The first three digits of a group. */
  lemma UnbaseSecond(b0: byte, b1: byte, b2: byte, s: string)
    ensures b2 / 64 < Pow2(2)
    ensures Unbase64([Digit(b0 / 4)] + ([Digit(b0 % 4 * 16 + b1 / 16)] + ([Digit(b1 % 16 * 4 + b2 / 64)] + s)), 0, 0)
      == [b0, b1] + Unbase64(s, b2 / 64, 2)
  {
    Powers();
    UnbaseFirst(b0, b1, [Digit(b1 % 16 * 4 + b2 / 64)] + s);
    UnbaseEmits(b1 % 16 * 4 + b2 / 64, s, b1 / 16, 4, b1, b2 / 64);
  }

  /** Four digits and whatever follows. */
  lemma UnbaseGroup(b0: byte, b1: byte, b2: byte, s: string)
    ensures
      var group := [Digit(b0 / 4), Digit(b0 % 4 * 16 + b1 / 16), Digit(b1 % 16 * 4 + b2 / 64), Digit(b2 % 64)];
      Unbase64(group + s, 0, 0) == [b0, b1, b2] + Unbase64(s, 0, 0)
  {
    Powers();
    var c0, c1, c2, c3 := Digit(b0 / 4), Digit(b0 % 4 * 16 + b1 / 16), Digit(b1 % 16 * 4 + b2 / 64), Digit(b2 % 64);
    assert [c0, c1, c2, c3] + s == [c0] + ([c1] + ([c2] + ([c3] + s)));
    UnbaseSecond(b0, b1, b2, [c3] + s);
    UnbaseEmits(b2 % 64, s, b2 / 64, 2, b2, 0);
  }

  lemma {:induction false} UnbasePads(n: nat, buf: int, bits: nat)
    requires bits < 8 && 0 <= buf < Pow2(bits)
    ensures Unbase64(seq(n, _ => '='), buf, bits) == []
  {
    if n == 0 {
    } else {
      assert seq(n, _ => '=')[1..] == seq(n - 1, _ => '=');
      UnbasePads(n - 1, buf, bits);
    }
  }

  lemma ShortGroups(b0: byte, b1: byte)
    ensures Unbase64(Base64([b0]), 0, 0) == [b0]
    ensures Unbase64(Base64([b0, b1]), 0, 0) == [b0, b1]
  {
    Powers();
    var two, one := seq(2, _ => '='), seq(1, _ => '=');
    assert Base64([b0]) == [Digit(b0 / 4)] + ([Digit(b0 % 4 * 16)] + two);
    UnbaseFirst(b0, 0, two);
    UnbasePads(2, 0, 4);
    assert Base64([b0, b1])
        == [Digit(b0 / 4)] + ([Digit(b0 % 4 * 16 + b1 / 16)] + ([Digit(b1 % 16 * 4)] + one));
    UnbaseSecond(b0, b1, 0, one);
    UnbasePads(1, 0, 2);
  }

  /** Decoding inverts encoding, in all three padding cases. */
  lemma {:induction false} Base64RoundTrip(b: seq<byte>)
    ensures Unbase64(Base64(b), 0, 0) == b
  {
    if |b| == 1 {
      ShortGroups(b[0], 0);
      assert b == [b[0]];
    } else if |b| == 2 {
      ShortGroups(b[0], b[1]);
      assert b == [b[0], b[1]];
    } else if |b| >= 3 {
      UnbaseGroup(b[0], b[1], b[2], Base64(b[3..]));
      Base64RoundTrip(b[3..]);
      assert b == [b[0], b[1], b[2]] + b[3..];
    }
  }

  predicate IsDigit(c: char) {
    DigitValue(c).Some?
  }

  /** Characters of the alphabet, with pads in the last two places at most. */
  predicate WellShaped(s: string) {
    forall i :: 0 <= i < |s| ==> IsDigit(s[i]) || (s[i] == '=' && i + 2 >= |s|)
  }

  lemma GroupInFront(c0: int, c1: int, c2: int, c3: int, rest: string)
    requires 0 <= c0 < 64 && 0 <= c1 < 64 && 0 <= c2 < 64 && 0 <= c3 < 64 && WellShaped(rest)
    ensures WellShaped([Digit(c0), Digit(c1), Digit(c2), Digit(c3)] + rest)
  {
    DigitInverse(c0);
    DigitInverse(c1);
    DigitInverse(c2);
    DigitInverse(c3);
  }

  lemma LastGroup(c0: int, c1: int, c2: int)
    requires 0 <= c0 < 64 && 0 <= c1 < 64 && 0 <= c2 < 64
    ensures WellShaped([Digit(c0), Digit(c1), '=', '=']) && WellShaped([Digit(c0), Digit(c1), Digit(c2), '='])
  {
    DigitInverse(c0);
    DigitInverse(c1);
    DigitInverse(c2);
  }

  lemma {:induction false} Base64Length(b: seq<byte>)
    ensures |Base64(b)| == (|b| + 2) / 3 * 4
  {
    if |b| < 3 {
    } else {
      Base64Length(b[3..]);
      assert |Base64(b)| == 4 + |Base64(b[3..])|;
    }
  }

  lemma {:induction false} Base64Alphabet(b: seq<byte>)
    ensures WellShaped(Base64(b))
  {
    if b == [] {
    } else if |b| == 1 {
      LastGroup(b[0] / 4, b[0] % 4 * 16, 0);
    } else if |b| == 2 {
      LastGroup(b[0] / 4, b[0] % 4 * 16 + b[1] / 16, b[1] % 16 * 4);
    } else {
      Base64Alphabet(b[3..]);
      GroupInFront(b[0] / 4, b[0] % 4 * 16 + b[1] / 16, b[1] % 16 * 4 + b[2] / 64, b[2] % 64, Base64(b[3..]));
    }
  }

  /** The encoder writes whole groups of four characters of the alphabet, the last one or
      two possibly pads. */
  lemma {:induction false} Base64Shape(b: seq<byte>)
    ensures |Base64(b)| == (|b| + 2) / 3 * 4 && WellShaped(Base64(b))
  {
    Base64Length(b);
    Base64Alphabet(b);
  }

  // ---------------------------------------------------------------- the codec

  function Encoded(s: string, key: uint32): string {
    Base64(XorAll(ToUtf8(s), LowByte(key)))
  }

  function Decoded(s: string, key: uint32): string {
    FromUtf8(XorAll(Unbase64(s, 0, 0), LowByte(key)))
  }

  /** What comes back from encoding and decoding, for every string and any two keys that agree
      in the low byte: no other bit of a key matters. */
  lemma CodecReturns(s: string, key: uint32, key': uint32)
    requires LowByte(key) == LowByte(key')
    ensures Decoded(Encoded(s, key), key') == if s != [] && s[0] == BYTE_ORDER_MARK then s[1..] else s
  {
    var b := ToUtf8(s);
    Base64RoundTrip(XorAll(b, LowByte(key)));
    XorTwice(b, LowByte(key));
    Utf8RoundTrip(s);
  }

  /** The round trip holds exactly for strings that do not begin with a byte-order mark. */
  lemma CodecRoundTrip(s: string, key: uint32)
    ensures Decoded(Encoded(s, key), key) == s <==> s == [] || s[0] != BYTE_ORDER_MARK
  {
    CodecReturns(s, key, key);
  }

  /** A string that does not come back. */
  lemma MarkIsLost(key: uint32)
    ensures Decoded(Encoded([BYTE_ORDER_MARK, 'a'], key), key) == "a"
  {
    CodecReturns([BYTE_ORDER_MARK, 'a'], key, key);
  }
}

/** The two functions as they work on a local byte array. */
module Codec {
  import opened Common
  import opened CodecModel

  method XorInPlace(arr: array<byte>, k: byte)
    modifies arr
    ensures arr[..] == XorAll(old(arr[..]), k)
  {
    for i := 0 to arr.Length
      invariant arr[..i] == XorAll(old(arr[..]), k)[..i]
      invariant arr[i..] == old(arr[..])[i..]
    {
      assert arr[i] == old(arr[..])[i];
      arr[i] := XorByte(arr[i], k);
    }
    assert arr[..] == arr[..arr.Length];
  }

  method EncodeStr(str: string, key: uint32) returns (r: string)
    ensures r == Encoded(str, key)
  {
    var utf8 := ToUtf8(str);
    var arr := new byte[|utf8|](i requires 0 <= i < |utf8| => utf8[i]);
    assert arr[..] == utf8;
    XorInPlace(arr, LowByte(key));
    r := Base64(arr[..]);
  }

  method DecodeStr(str: string, key: uint32) returns (r: string)
    ensures r == Decoded(str, key)
  {
    var bytes := Unbase64(str, 0, 0);
    var arr := new byte[|bytes|](i requires 0 <= i < |bytes| => bytes[i]);
    assert arr[..] == bytes;
    XorInPlace(arr, LowByte(key));
    r := FromUtf8(arr[..]);
  }
}
