/** The codec bit by bit: what each character of the encoded text and each byte of a string is, by
    the definitions of UTF-8 and Base64, and what the key does to them. */
module CodecBits {
  import opened Common
  import opened CodecModel

  /** Bit `i` of a number, counted from the lowest one. */
  function Bit(n: nat, i: nat): (r: nat)
    ensures r < 2
  {
    if i == 0 then n % 2 else Bit(n / 2, i - 1)
  }

  // ---------------------------------------------------------------- the key

  lemma {:induction false} XorBitsDiffer(a: nat, b: nat, n: nat, i: nat)
    requires i < n
    ensures Bit(XorBits(a, b, n), i) == 1 <==> Bit(a, i) != Bit(b, i)
  {
    var r := XorBits(a / 2, b / 2, n - 1);
    assert XorBits(a, b, n) / 2 == r;
    if i == 0 {
    } else {
      XorBitsDiffer(a / 2, b / 2, n - 1, i - 1);
    }
  }

  lemma {:induction false} LowBits(n: nat, k: nat, i: nat)
    requires i < k
    ensures Bit(n % Pow2(k), i) == Bit(n, i)
  {
    var p := Pow2(k - 1);
    HalfOfRest(n, p);
    if i == 0 {
    } else {
      LowBits(n / 2, k - 1, i - 1);
    }
  }

  lemma HalfOfRest(n: nat, p: nat)
    requires p > 0
    ensures n % (2 * p) % 2 == n % 2 && n % (2 * p) / 2 == n / 2 % p
  {
    var q, r := n / (2 * p), n % (2 * p);
    assert n == 2 * (p * q) + r;
    assert n / 2 == p * q + r / 2;
    Rest(n / 2, p, q, r / 2);
  }

  lemma Multiples(p: int, d: int)
    requires p > 0
    ensures (d > 0 ==> p * d >= p) && (d < 0 ==> p * d <= -p)
  {}

  lemma Rest(n: int, p: int, q: int, r: int)
    requires 0 <= r < p && n == p * q + r
    ensures n % p == r
  {
    var d := n / p - q;
    assert n == p * (n / p) + n % p;
    assert p * d == r - n % p;
    Multiples(p, d);
  }

  /** Each byte that is written differs from the string's in exactly the bits that are set in the
      key. */
  lemma KeyFlipsBits(s: string, key: uint32, i: nat, j: nat)
    requires i < |ToUtf8(s)| && j < 8
    ensures
      var written := Unbase64(Encoded(s, key), 0, 0);
      |written| == |ToUtf8(s)| && (Bit(written[i], j) != Bit(ToUtf8(s)[i], j) <==> Bit(key, j) == 1)
  {
    var b := ToUtf8(s);
    Base64RoundTrip(XorAll(b, LowByte(key)));
    Powers();
    LowBits(key, 8, j);
    XorBitsDiffer(b[i], LowByte(key), 8, j);
  }

  // ---------------------------------------------------------------- Base64

  const UPPER := "ABCDEFGHIJKLMNOPQRSTUVWXYZ"
  const LOWER := "abcdefghijklmnopqrstuvwxyz"
  const DECIMAL := "0123456789"
  const ALPHABET := UPPER + LOWER + DECIMAL + "+/"

  lemma LettersAre(d: int)
    requires 0 <= d < 26
    ensures UPPER[d] == ('A' as int + d) as char && LOWER[d] == ('a' as int + d) as char
  {}

  lemma DigitIs(d: int)
    requires 0 <= d < 64
    ensures |ALPHABET| == 64 && Digit(d) == ALPHABET[d]
  {
    if d < 26 {
      LettersAre(d);
    } else if d < 52 {
      LettersAre(d - 26);
    }
  }

  /** The alphabet is the one of section 4 of RFC 4648, both ways. */
  lemma ValueIs(c: char, d: int)
    requires 0 <= d < 64
    ensures |ALPHABET| == 64 && (DigitValue(c) == Some(d) <==> c == ALPHABET[d])
  {
    DigitIs(d);
    DigitInverse(d);
    if DigitValue(c) == Some(d) {
      assert Digit(d) == c;
    }
  }

  // A pad stands for no bits.
  function Six(c: char): nat {
    if DigitValue(c).Some? then DigitValue(c).value else 0
  }

  function ByteAt(b: seq<byte>, k: nat): byte {
    if k < |b| then b[k] else 0
  }

  lemma SixIs(d: int)
    requires 0 <= d < 64
    ensures Six(Digit(d)) == d && Digit(d) != '='
    ensures Six('=') == 0
  {
    DigitInverse(d);
  }

  lemma FirstFour(b: seq<byte>)
    requires b != []
    ensures
      var e, b0, b1, b2 := Base64(b), b[0], ByteAt(b, 1), ByteAt(b, 2);
      |e| >= 4 && Six(e[0]) == b0 / 4 && Six(e[1]) == b0 % 4 * 16 + b1 / 16 &&
      Six(e[2]) == b1 % 16 * 4 + b2 / 64 && Six(e[3]) == b2 % 64 &&
      e[0] != '=' && e[1] != '=' && (e[2] == '=' <==> |b| < 2) && (e[3] == '=' <==> |b| < 3)
  {
    var b0, b1, b2 := b[0], ByteAt(b, 1), ByteAt(b, 2);
    SixIs(b0 / 4);
    SixIs(b0 % 4 * 16 + b1 / 16);
    SixIs(b1 % 16 * 4 + b2 / 64);
    SixIs(b2 % 64);
  }

  lemma GroupNumber(b0: byte, b1: byte, b2: byte)
    ensures 262144 * (b0 / 4) + 4096 * (b0 % 4 * 16 + b1 / 16) + 64 * (b1 % 16 * 4 + b2 / 64) + b2 % 64
      == 65536 * b0 + 256 * b1 + b2
  {}

  lemma LaterCharacter(b: seq<byte>, p: nat)
    requires |b| > 3 && 4 <= p < |Base64(b)|
    ensures p - 4 < |Base64(b[3..])| && Base64(b)[p] == Base64(b[3..])[p - 4]
  {}

  /** A character of the encoded text is a pad if and only if none of the bits is left for it. */
  lemma {:induction false} PadIff(b: seq<byte>, p: nat)
    requires p < |Base64(b)|
    ensures Base64(b)[p] == '=' <==> 6 * p >= 8 * |b|
  {
    if p < 4 {
      FirstFour(b);
    } else {
      LaterCharacter(b, p);
      PadIff(b[3..], p - 4);
    }
  }

  /** Group `g` of the encoded text, read as a number with four digits of six bits, is the number
      that its three bytes make, zeros after their end. */
  lemma {:induction false} Base64IsNumber(b: seq<byte>, g: nat)
    requires 3 * g < |b|
    ensures
      var e, p := Base64(b), 4 * g;
      |e| >= p + 4 &&
      262144 * Six(e[p]) + 4096 * Six(e[p + 1]) + 64 * Six(e[p + 2]) + Six(e[p + 3])
        == 65536 * b[3 * g] + 256 * ByteAt(b, 3 * g + 1) + ByteAt(b, 3 * g + 2)
  {
    Base64Length(b);
    if g == 0 {
      FirstFour(b);
      GroupNumber(b[0], ByteAt(b, 1), ByteAt(b, 2));
    } else {
      Base64IsNumber(b[3..], g - 1);
      forall p | 4 * g <= p < 4 * g + 4 ensures Base64(b)[p] == Base64(b[3..])[p - 4] {
        LaterCharacter(b, p);
      }
    }
  }

  // ---------------------------------------------------------------- UTF-8

  // What a byte holds above its marker.
  function Above(marker: int, b: int): int {
    b - marker
  }

  /** Section 3 of RFC 3629: one to four bytes, as few as the number needs, that hold its bits. */
  lemma Utf8IsNumber(c: char)
    ensures
      var e, n := EncodeChar(c), c as int;
      |e| == (if n < 0x80 then 1 else if n < 0x800 then 2 else if n < 0x1_0000 then 3 else 4) &&
      (forall i :: 1 <= i < |e| ==> 0x80 <= e[i] < 0xC0) &&
      match |e|
      case 1 => e[0] == n
      case 2 => 0xC0 <= e[0] < 0xE0 && n == 64 * Above(0xC0, e[0]) + Above(0x80, e[1])
      case 3 =>
        0xE0 <= e[0] < 0xF0 && n == 4096 * Above(0xE0, e[0]) + 64 * Above(0x80, e[1]) + Above(0x80, e[2])
      case _ =>
        0xF0 <= e[0] < 0xF8 &&
        n == 262144 * Above(0xF0, e[0]) + 4096 * Above(0x80, e[1]) + 64 * Above(0x80, e[2]) + Above(0x80, e[3])
  {
    var n := c as int;
    Joins(n);
  }

  /** The bytes of a string are those of its characters, one after another. */
  lemma {:induction false} Utf8Appends(a: string, b: string)
    ensures ToUtf8(a + b) == ToUtf8(a) + ToUtf8(b)
  {
    if a == [] {
      assert a + b == b;
    } else {
      assert (a + b)[0] == a[0] && (a + b)[1..] == a[1..] + b;
      Utf8Appends(a[1..], b);
    }
  }

  lemma Splits(a: int, b: int, c: int, d: int)
    requires 0 <= b < 64 && 0 <= c < 64 && 0 <= d < 64
    ensures (64 * a + b) / 64 == a && (64 * a + b) % 64 == b
    ensures
      var n := 4096 * a + 64 * b + c;
      n / 4096 == a && n / 64 % 64 == b && n % 64 == c
    ensures
      var n := 262144 * a + 4096 * b + 64 * c + d;
      n / 262144 == a && n / 4096 % 64 == b && n / 64 % 64 == c && n % 64 == d
  {
    var m, n := 4096 * a + 64 * b + c, 262144 * a + 4096 * b + 64 * c + d;
    assert m / 64 == 64 * a + b;
    assert n / 64 == 4096 * a + 64 * b + c && n / 4096 == 64 * a + b;
  }

  lemma EncodesTwo(b0: byte, b1: byte)
    requires 0xC2 <= b0 < 0xE0 && Continues(b1)
    ensures EncodeChar(Join2(b0, b1) as char) == [b0, b1]
  {
    Splits(b0 - 0xC0, b1 - 0x80, 0, 0);
  }

  lemma EncodesThree(b0: byte, b1: byte, b2: byte)
    requires 0xE0 <= b0 < 0xF0 && Continues(b1) && Continues(b2)
    requires Join3(b0, b1, b2) >= 0x800 && IsScalar(Join3(b0, b1, b2))
    ensures EncodeChar(Join3(b0, b1, b2) as char) == [b0, b1, b2]
  {
    Splits(b0 - 0xE0, b1 - 0x80, b2 - 0x80, 0);
  }

  lemma EncodesFour(b0: byte, b1: byte, b2: byte, b3: byte)
    requires 0xF0 <= b0 < 0xF5 && Continues(b1) && Continues(b2) && Continues(b3)
    requires Join4(b0, b1, b2, b3) >= 0x1_0000 && IsScalar(Join4(b0, b1, b2, b3))
    ensures EncodeChar(Join4(b0, b1, b2, b3) as char) == [b0, b1, b2, b3]
  {
    Splits(b0 - 0xF0, b1 - 0x80, b2 - 0x80, b3 - 0x80);
  }

  lemma EncodesDecoded(b: seq<byte>)
    requires b != [] && DecodeFront(b) != (REPLACEMENT, 1)
    ensures EncodeChar(DecodeFront(b).0) <= b
  {
    if b[0] < 0x80 {
    } else if b[0] < 0xE0 {
      EncodesTwo(b[0], b[1]);
    } else if b[0] < 0xF0 {
      EncodesThree(b[0], b[1], b[2]);
    } else {
      EncodesFour(b[0], b[1], b[2], b[3]);
    }
  }

  /** Bytes are read as the character whose bytes they begin with, if there is one, and otherwise
      one of them is replaced. */
  lemma DecodesIff(b: seq<byte>, c: char)
    requires b != []
    ensures EncodeChar(c) <= b ==> DecodeFront(b) == (c, |EncodeChar(c)|)
    ensures (forall d: char :: !(EncodeChar(d) <= b)) ==> DecodeFront(b) == (REPLACEMENT, 1)
  {
    if EncodeChar(c) <= b {
      var e := EncodeChar(c);
      assert b == e + b[|e|..];
      DecodesEncoded(c, b[|e|..]);
    }
    var (d, n) := DecodeFront(b);
    if (d, n) != (REPLACEMENT, 1) {
      EncodesDecoded(b);
      assert EncodeChar(d) <= b;
    }
  }
}
