/**
 Numbers as text: what fmt prints and what strconv.ParseUint and strconv.ParseInt read, value and error.
 On an error the value is still used by the callers, so it is part of the model.
 */
module ScpStrconv {
  import opened ScpUtf8

  const TWO_TO_THE_32 := 0x1_0000_0000
  const TWO_TO_THE_63 := 0x8000_0000_0000_0000
  const TWO_TO_THE_64 := 0x1_0000_0000_0000_0000

  type uint32 = n: int | 0 <= n < TWO_TO_THE_32
  type uint64 = n: int | 0 <= n < TWO_TO_THE_64
  type int64 = n: int | -TWO_TO_THE_63 <= n < TWO_TO_THE_63

  type Radix = b: nat | 2 <= b <= 10 witness 10

  predicate IsDigit(c: byte, base: Radix) {
    DIGIT_ZERO <= c < DIGIT_ZERO + base
  }

  predicate AreDigits(s: bytes, base: Radix) {
    forall c :: c in s ==> IsDigit(c, base)
  }

  /** n in the given base, without leading zeros. */
  function Digits(n: nat, base: Radix): (s: bytes)
    ensures s != [] && AreDigits(s, base)
  {
    if n < base then [DIGIT_ZERO + n] else Digits(n / base, base) + [DIGIT_ZERO + n % base]
  }

  function Decimal(n: int): bytes {
    if n < 0 then [MINUS] + Digits(-n, 10) else Digits(n, 10)
  }

  /** Zeros in front, up to the given width. */
  function PadZero(s: bytes, width: nat): bytes
    decreases width - |s|
  {
    if |s| < width then PadZero([DIGIT_ZERO] + s, width) else s
  }

  datatype Parsed = Parsed(value: nat, ok: bool)

  /** The rest of ParseUint's loop: a non-digit ends it with 0, an overflow with the largest value. */
  function ParseFrom(acc: nat, s: bytes, base: Radix, max: nat): Parsed
    decreases |s|
  {
    if s == [] then
      Parsed(acc, true)
    else if !IsDigit(s[0], base) then
      Parsed(0, false)
    else
      var acc' := acc * base + (s[0] - DIGIT_ZERO);
      if acc' > max then Parsed(max, false) else ParseFrom(acc', s[1..], base, max)
  }

  function ParseUint(s: bytes, base: Radix, max: nat): Parsed {
    if s == [] then Parsed(0, false) else ParseFrom(0, s, base, max)
  }

  /** The value ParseInt(s, 10, 64) returns for a string without a sign. */
  function ParseInt64(s: bytes): nat {
    var un := ParseUint(s, 10, TWO_TO_THE_64 - 1).value;
    if un >= TWO_TO_THE_63 then TWO_TO_THE_63 - 1 else un
  }

  /** What ParseUint returns never exceeds the limit of its width. */
  lemma {:induction false} ParsedInRange(acc: nat, s: bytes, base: Radix, max: nat)
    requires acc <= max
    ensures ParseFrom(acc, s, base, max).value <= max
    decreases |s|
  {
    if s != [] && IsDigit(s[0], base) && acc * base + (s[0] - DIGIT_ZERO) <= max {
      ParsedInRange(acc * base + (s[0] - DIGIT_ZERO), s[1..], base, max);
    }
  }

  lemma DivMod(n: nat, base: Radix)
    ensures n / base * base + n % base == n && 0 <= n % base < base
    ensures n >= base ==> 0 <= n / base < n
  {
  }

  /** One more digit. */
  lemma ParseDigit(acc: nat, d: nat, rest: bytes, base: Radix, max: nat)
    requires d < base && acc * base + d <= max
    ensures ParseFrom(acc, [DIGIT_ZERO + d] + rest, base, max) == ParseFrom(acc * base + d, rest, base, max)
  {
    assert ([DIGIT_ZERO + d] + rest)[1..] == rest;
  }

  /** Reading the digits of n leaves n as the value so far. */
  lemma {:induction false} ParseDigits(n: nat, rest: bytes, base: Radix, max: nat)
    requires n <= max
    ensures ParseFrom(0, Digits(n, base) + rest, base, max) == ParseFrom(n, rest, base, max)
    decreases n
  {
    if n < base {
      ParseDigit(0, n, rest, base, max);
    } else {
      DivMod(n, base);
      var q, d := n / base, n % base;
      ParseDigits(q, [DIGIT_ZERO + d] + rest, base, max);
      assert Digits(n, base) + rest == Digits(q, base) + ([DIGIT_ZERO + d] + rest);
      ParseDigit(q, d, rest, base, max);
    }
  }

  lemma {:induction false} ParsePadded(s: bytes, width: nat, base: Radix, max: nat)
    requires AreDigits(s, base)
    ensures AreDigits(PadZero(s, width), base) && |PadZero(s, width)| >= |s|
    ensures ParseFrom(0, PadZero(s, width), base, max) == ParseFrom(0, s, base, max)
    decreases width - |s|
  {
    if |s| < width {
      var s' := [DIGIT_ZERO] + s;
      ParsePadded(s', width, base, max);
      assert s'[1..] == s;
    }
  }

  /** Printing a number and parsing it back gives the number, if it fits the width. */
  lemma DigitsRoundTrip(n: nat, width: nat, base: Radix, max: nat)
    requires n <= max
    ensures ParseUint(PadZero(Digits(n, base), width), base, max) == Parsed(n, true)
    ensures ParseUint(Digits(n, base), base, max) == Parsed(n, true)
  {
    var s := Digits(n, base);
    ParsePadded(s, width, base, max);
    ParseDigits(n, [], base, max);
    assert s + [] == s;
  }
}
