/** Hexadecimal text (number.toString(16), padStart; src/io/bytes.ts, src/core/handshake.ts). */
module Hex {
  import opened Bytes

  function Digit(v: nat): char
    requires v < 16
  {
    "0123456789abcdef"[v]
  }

  function DigitValue(c: char): Option<nat> {
    if '0' <= c <= '9' then Some(c as int - '0' as int)
    else if 'a' <= c <= 'f' then Some(c as int - 'a' as int + 10)
    else if 'A' <= c <= 'F' then Some(c as int - 'A' as int + 10)
    else None
  }

  lemma DigitRoundTrip(v: nat)
    requires v < 16
    ensures DigitValue(Digit(v)) == Some(v)
  {}

  /** n.toString(16) for a non-negative integer: no leading zeros, "0" for zero. */
  function ToHex(n: nat): (s: string)
    ensures s != []
  {
    if n < 16 then [Digit(n)] else ToHex(n / 16) + [Digit(n % 16)]
  }

  function PadStart(s: string, width: nat): string {
    if |s| >= width then s else seq(width - |s|, _ => '0') + s
  }

  /** Exactly `width` digits. */
  function Fixed(n: nat, width: nat): (s: string)
    ensures |s| == width
  {
    if width == 0 then [] else Fixed(n / 16, width - 1) + [Digit(n % 16)]
  }

  function Pow16(n: nat): (p: nat)
    ensures p >= 1
  {
    if n == 0 then 1 else 16 * Pow16(n - 1)
  }

  lemma {:induction false} ZeroDigits(width: nat)
    ensures Fixed(0, width) == seq(width, _ => '0')
  {
    if width > 0 {
      ZeroDigits(width - 1);
      assert seq(width, _ => '0') == seq(width - 1, _ => '0') + ['0'];
    }
  }

  /** One more digit at the end takes the place of one zero at the front. */
  lemma PadDigit(s: string, c: char, width: nat)
    requires |s| < width
    ensures PadStart(s + [c], width) == PadStart(s, width - 1) + [c]
  {}

  lemma PadOne(c: char, width: nat)
    requires width > 0
    ensures PadStart([c], width) == seq(width - 1, _ => '0') + [c]
  {}

  /** Padding to a width that is wide enough gives exactly that many digits. */
  lemma {:induction false} PaddedIsFixed(n: nat, width: nat)
    requires width > 0 && n < Pow16(width)
    ensures |ToHex(n)| <= width && PadStart(ToHex(n), width) == Fixed(n, width)
  {
    hide PadStart, Digit;
    if n < 16 {
      ZeroDigits(width - 1);
      assert n / 16 == 0;
      PadOne(Digit(n), width);
    } else {
      assert width > 1;
      PaddedIsFixed(n / 16, width - 1);
      PadDigit(ToHex(n / 16), Digit(n % 16), width);
    }
  }

  /** The number that a string of digits spells. */
  function Parse(s: string): Option<nat> {
    if s == [] then Some(0)
    else
      var high := Parse(s[..|s| - 1]);
      var low := DigitValue(s[|s| - 1]);
      if high == None || low == None then None else Some(high.value * 16 + low.value)
  }

  lemma ParseSnoc(s: string, v: nat)
    requires v < 16 && Parse(s).Some?
    ensures Parse(s + [Digit(v)]) == Some(Parse(s).value * 16 + v)
  {
    hide Digit, DigitValue;
    DigitRoundTrip(v);
    assert (s + [Digit(v)])[..|s|] == s;
  }

  lemma HighPart(n: nat, width: nat)
    requires width > 0 && n < Pow16(width)
    ensures n / 16 < Pow16(width - 1) && n == n / 16 * 16 + n % 16
  {}

  lemma {:induction false} ParseFixed(n: nat, width: nat)
    requires n < Pow16(width)
    ensures Parse(Fixed(n, width)) == Some(n)
  {
    hide Digit, DigitValue, Pow16;
    if width > 0 {
      HighPart(n, width);
      ParseFixed(n / 16, width - 1);
      ParseSnoc(Fixed(n / 16, width - 1), n % 16);
    } else {
      NothingSpelled();
    }
  }

  lemma NothingSpelled()
    ensures Pow16(0) == 1 && Parse(Fixed(0, 0)) == Some(0)
  {}

  /** The sixteen digits, in lower case. */
  lemma KnownDigits()
    ensures Fixed(0x0123, 4) == "0123" && Fixed(0x4567, 4) == "4567"
    ensures Fixed(0x89AB, 4) == "89ab" && Fixed(0xCDEF, 4) == "cdef"
  {
    FourDigits(0, 1, 2, 3);
    FourDigits(4, 5, 6, 7);
    FourDigits(8, 9, 10, 11);
    FourDigits(12, 13, 14, 15);
  }

  lemma OneMoreDigit(n: nat, d: nat, width: nat)
    requires d < 16
    ensures Fixed(n * 16 + d, width + 1) == Fixed(n, width) + [Digit(d)]
  {
    hide Digit;
  }

  lemma NoDigits()
    ensures Fixed(0, 0) == []
  {}

  lemma FourDigits(a: nat, b: nat, c: nat, d: nat)
    requires a < 16 && b < 16 && c < 16 && d < 16
    ensures Fixed(((a * 16 + b) * 16 + c) * 16 + d, 4) == [Digit(a), Digit(b), Digit(c), Digit(d)]
  {
    hide Digit, Fixed;
    NoDigits();
    OneMoreDigit(0, a, 0);
    assert Fixed(a, 1) == [Digit(a)];
    var ab := a * 16 + b;
    OneMoreDigit(a, b, 1);
    assert Fixed(ab, 2) == [Digit(a), Digit(b)];
    var abc := ab * 16 + c;
    OneMoreDigit(ab, c, 2);
    assert Fixed(abc, 3) == [Digit(a), Digit(b), Digit(c)];
    OneMoreDigit(abc, d, 3);
  }
}
