/**
 Bytes, and the decoding of UTF-8 (section 3 of RFC 3629) the way Go's utf8.DecodeRune does it.
 */
module ScpUtf8 {

  type byte = b: int | 0 <= b < 256

  type bytes = seq<byte>

  type Rune = r: int | 0 <= r < 0x11_0000

  const NEWLINE: byte := 10
  const SPACE: byte := 32
  const MINUS: byte := 45
  const SLASH: byte := 47
  const DIGIT_ZERO: byte := 48

  /** Both the replacement character itself and the decoder's mark for "no rune here". */
  const RUNE_ERROR: Rune := 0xFFFD

  datatype Decoded = Decoded(rune: Rune, width: nat)

  predicate IsContinuation(b: byte) {
    0x80 <= b < 0xC0
  }

  /** The second byte of a three-byte form: no overlong forms, no surrogates. */
  predicate IsSecondOfThree(lead: byte, b: byte) {
    (if lead == 0xE0 then 0xA0 else 0x80) <= b < (if lead == 0xED then 0xA0 else 0xC0)
  }

  /** The second byte of a four-byte form: no overlong forms, nothing above U+10FFFF. */
  predicate IsSecondOfFour(lead: byte, b: byte) {
    (if lead == 0xF0 then 0x90 else 0x80) <= b < (if lead == 0xF4 then 0x90 else 0xC0)
  }

  /** What a byte contributes to a rune once its marker is taken off. */
  function Bits(b: byte, marker: int): int {
    b - marker
  }

  /** The first rune of b and its width; RUNE_ERROR for an empty (width 0) or malformed (width 1) start. */
  function DecodeRune(b: bytes): (d: Decoded)
    ensures d.width <= |b|
    ensures d.width == 0 <==> b == []
  {
    if b == [] then
      Decoded(RUNE_ERROR, 0)
    else if b[0] < 0x80 then
      Decoded(b[0], 1)
    else if 0xC2 <= b[0] < 0xE0 && |b| >= 2 && IsContinuation(b[1]) then
      Decoded(Bits(b[0], 0xC0) * 64 + Bits(b[1], 0x80), 2)
    else if 0xE0 <= b[0] < 0xF0 && |b| >= 3 && IsSecondOfThree(b[0], b[1]) && IsContinuation(b[2]) then
      Decoded(Bits(b[0], 0xE0) * 4096 + Bits(b[1], 0x80) * 64 + Bits(b[2], 0x80), 3)
    else if 0xF0 <= b[0] < 0xF5 && |b| >= 4 && IsSecondOfFour(b[0], b[1])
            && IsContinuation(b[2]) && IsContinuation(b[3]) then
      Decoded(Bits(b[0], 0xF0) * 262144 + Bits(b[1], 0x80) * 4096 + Bits(b[2], 0x80) * 64 + Bits(b[3], 0x80), 4)
    else
      Decoded(RUNE_ERROR, 1)
  }

  /** A code point that is no surrogate. */
  predicate IsScalar(r: Rune) {
    !(0xD800 <= r < 0xE000)
  }

  /** The encoding of a scalar value, as RFC 3629 defines it. */
  function Encoded(r: Rune): (b: bytes)
    requires IsScalar(r)
    ensures 1 <= |b| <= 4
  {
    if r < 0x80 then [r]
    else if r < 0x800 then [0xC0 + r / 64, 0x80 + r % 64]
    else if r < 0x1_0000 then [0xE0 + r / 4096, 0x80 + r / 64 % 64, 0x80 + r % 64]
    else [0xF0 + r / 262144, 0x80 + r / 4096 % 64, 0x80 + r / 64 % 64, 0x80 + r % 64]
  }

  /** Two digits of base 64. */
  lemma SixBits(a: int, b: int)
    requires 0 <= b < 64
    ensures (a * 64 + b) / 64 == a && (a * 64 + b) % 64 == b
  {
  }

  /** A rune and the digits of base 64 in its encoding. */
  lemma Sextets(r: int)
    ensures r == r / 64 * 64 + r % 64
    ensures r == r / 4096 * 4096 + r / 64 % 64 * 64 + r % 64
    ensures r == r / 262144 * 262144 + r / 4096 % 64 * 4096 + r / 64 % 64 * 64 + r % 64
  {
    assert r / 4096 == r / 64 / 64 && r / 262144 == r / 64 / 64 / 64;
  }

  /** A scalar value is decoded from its encoding, whatever follows. */
  lemma EncodedIsDecoded(r: Rune, tail: bytes)
    requires IsScalar(r)
    ensures DecodeRune(Encoded(r) + tail) == Decoded(r, |Encoded(r)|)
  {
    Sextets(r);
    var e := Encoded(r);
    var b := e + tail;
    assert forall i :: 0 <= i < |e| ==> b[i] == e[i];
  }

  lemma TwoBytes(b: bytes)
    requires b != [] && DecodeRune(b).width == 2
    ensures var r := DecodeRune(b).rune;
            0x80 <= r < 0x800 && Encoded(r) == [b[0], b[1]]
  {
    SixBits(b[0] as int - 0xC0, b[1] as int - 0x80);
  }

  lemma ThreeBytes(b: bytes)
    requires b != [] && DecodeRune(b).width == 3
    ensures var r := DecodeRune(b).rune;
            0x800 <= r < 0x1_0000 && IsScalar(r) && Encoded(r) == [b[0], b[1], b[2]]
  {
    var x: int, y: int, z: int := b[0] - 0xE0, b[1] - 0x80, b[2] - 0x80;
    var r := DecodeRune(b).rune;
    assert r == (x * 64 + y) * 64 + z;
    SixBits(x * 64 + y, z);
    SixBits(x, y);
    assert r / 4096 == r / 64 / 64;
  }

  lemma FourBytes(b: bytes)
    requires b != [] && DecodeRune(b).width == 4
    ensures var r := DecodeRune(b).rune;
            0x1_0000 <= r && Encoded(r) == [b[0], b[1], b[2], b[3]]
  {
    var x: int, y: int, z: int, w: int := b[0] - 0xF0, b[1] - 0x80, b[2] - 0x80, b[3] - 0x80;
    var r := DecodeRune(b).rune;
    assert r == ((x * 64 + y) * 64 + z) * 64 + w;
    SixBits((x * 64 + y) * 64 + z, w);
    SixBits(x * 64 + y, z);
    SixBits(x, y);
    assert r / 4096 == r / 64 / 64 && r / 262144 == r / 64 / 64 / 64;
  }

  /** A form of two, three or four bytes is the encoding of the rune it is decoded to. */
  lemma FormIsEncoding(b: bytes)
    requires b != [] && DecodeRune(b).width > 1
    ensures var d := DecodeRune(b);
            IsScalar(d.rune) && d.width == |Encoded(d.rune)| && b[..d.width] == Encoded(d.rune)
  {
    hide Encoded;
    var w := DecodeRune(b).width;
    if w == 2 {
      TwoBytes(b);
    } else if w == 3 {
      ThreeBytes(b);
    } else {
      FourBytes(b);
    }
  }

  /** What is decoded is the encoding of a scalar value, or a single byte that starts no such encoding. */
  lemma DecodedIsEncoding(b: bytes)
    requires b != []
    ensures var d := DecodeRune(b);
            || (IsScalar(d.rune) && d.width == |Encoded(d.rune)| && b[..d.width] == Encoded(d.rune))
            || (d == Decoded(RUNE_ERROR, 1) && forall r: Rune :: IsScalar(r) ==> !(Encoded(r) <= b))
  {
    var d := DecodeRune(b);
    if d.width > 1 {
      FormIsEncoding(b);
    } else if b[0] >= 0x80 {
      StartsNoEncoding(b);
    }
  }

  lemma StartsNoEncoding(b: bytes)
    requires b != [] && DecodeRune(b) == Decoded(RUNE_ERROR, 1)
    ensures forall r: Rune :: IsScalar(r) ==> !(Encoded(r) <= b)
  {
    hide DecodeRune, Encoded;
    forall r: Rune | IsScalar(r) && Encoded(r) <= b ensures false {
      EncodedIsDecoded(r, b[|Encoded(r)|..]);
      assert b == Encoded(r) + b[|Encoded(r)|..];
      LongError();
    }
  }

  lemma LongError()
    ensures |Encoded(RUNE_ERROR)| == 3
  {
  }

  /** Some rune other than U+FFFD starts b. */
  predicate HasRune(b: bytes) {
    DecodeRune(b).rune != RUNE_ERROR
  }

  /** b is UTF-8 throughout and holds no U+FFFD. */
  predicate IsText(b: bytes)
    decreases |b|
  {
    b == [] || (HasRune(b) && IsText(b[DecodeRune(b).width..]))
  }

  /** Decoding a rune looks at the bytes of that rune only. */
  lemma DecodeRuneIsLocal(b: bytes, tail: bytes)
    requires HasRune(b)
    ensures DecodeRune(b + tail) == DecodeRune(b)
    ensures DecodeRune(b[..DecodeRune(b).width]) == DecodeRune(b)
  {
  }

  /** A newline byte is the newline rune: it never hides inside a longer form. */
  lemma NewlineIsItsOwnRune(b: bytes)
    requires HasRune(b)
    ensures DecodeRune(b).rune == 10 <==> b[0] == NEWLINE
    ensures NEWLINE in b[..DecodeRune(b).width] <==> b[0] == NEWLINE
  {
    var w := DecodeRune(b).width;
    assert forall i :: 1 <= i < w ==> b[i] >= 0x80;
  }

  /** The number of runes b decodes to, up to the first place where none starts. */
  function RuneCount(b: bytes): nat
    decreases |b|
  {
    if HasRune(b) then 1 + RuneCount(b[DecodeRune(b).width..]) else 0
  }

  lemma {:induction false} RuneCountAppend(a: bytes, b: bytes)
    requires IsText(a)
    ensures RuneCount(a + b) == RuneCount(a) + RuneCount(b)
    decreases |a|
  {
    if a == [] {
      assert a + b == b;
    } else {
      DecodeRuneIsLocal(a, b);
      var w := DecodeRune(a).width;
      RuneCountAppend(a[w..], b);
      assert (a + b)[w..] == a[w..] + b;
    }
  }

  lemma {:induction false} IsTextAppend(a: bytes, b: bytes)
    requires IsText(a)
    ensures IsText(a + b) <==> IsText(b)
    decreases |a|
  {
    if a == [] {
      assert a + b == b;
    } else {
      DecodeRuneIsLocal(a, b);
      var w := DecodeRune(a).width;
      IsTextAppend(a[w..], b);
      assert (a + b)[w..] == a[w..] + b;
    }
  }
}
