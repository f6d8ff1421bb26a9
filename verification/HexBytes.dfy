/** Bytes as hexadecimal text (src/io/bytes.ts). */
module HexBytes {
  import opened Bytes
  import Hex

  /** n.toString(16).padStart(2, "0"): two digits for a byte, more for larger numbers. */
  function TwoDigits(n: nat): (s: string)
    ensures |s| >= 2
  {
    Hex.PadStart(Hex.ToHex(n), 2)
  }

  function ToText(bytes: seq<byte>): (s: string) {
    if bytes == [] then "" else ToText(bytes[..|bytes| - 1]) + TwoDigits(bytes[|bytes| - 1])
  }

  /** The characters that \s matches. */
  predicate IsSpace(c: char) {
    var n := c as int;
    || 9 <= n <= 13 || n == 0x20 || n == 0xA0 || n == 0x1680 || 0x2000 <= n <= 0x200A
    || n == 0x2028 || n == 0x2029 || n == 0x202F || n == 0x205F || n == 0x3000 || n == 0xFEFF
  }

  function Strip(s: string): string {
    if s == "" then "" else if IsSpace(s[0]) then Strip(s[1..]) else [s[0]] + Strip(s[1..])
  }

  /** parseInt of two characters, stored in a byte: the digits before the first character that is none, with
      an optional sign; not a number counts as zero. */
  function PairValue(a: char, b: char): byte {
    var x := Hex.DigitValue(a);
    var y := Hex.DigitValue(b);
    if x.Some? then (if y.Some? then 16 * x.value + y.value else x.value)
    else if y == None then 0
    else if a == '+' then y.value
    else if a == '-' then (256 - y.value) % 256
    else 0
  }

  function Pairs(s: string): (r: seq<byte>)
    requires |s| % 2 == 0
    ensures |r| == |s| / 2
  {
    if s == "" then [] else [PairValue(s[0], s[1])] + Pairs(s[2..])
  }

  /** hexToBytes; None stands for the error thrown on an odd number of digits. */
  function ToBytes(hex: string): Option<seq<byte>> {
    var s := Strip(hex);
    if |s| % 2 != 0 then None else Some(Pairs(s))
  }

  // ---------- Round trip ----------

  predicate AllDigits(s: string) {
    forall c :: c in s ==> Hex.DigitValue(c).Some?
  }

  lemma {:induction false} StripDigits(s: string)
    requires AllDigits(s)
    ensures Strip(s) == s
  {
    if s != "" {
      assert s[0] in s;
      StripDigits(s[1..]);
    }
  }

  lemma {:induction false} ToHexDigits(n: nat)
    ensures AllDigits(Hex.ToHex(n))
  {
    Hex.DigitRoundTrip(n % 16);
    if n >= 16 { ToHexDigits(n / 16); }
  }

  lemma TwoDigitsDigits(n: nat)
    ensures AllDigits(TwoDigits(n))
  {
    hide Hex.ToHex;
    ToHexDigits(n);
  }

  lemma TwoDigitsOfByte(b: byte)
    ensures |TwoDigits(b)| == 2 && PairValue(TwoDigits(b)[0], TwoDigits(b)[1]) == b
  {
    hide Hex.ToHex;
    assert Hex.Pow16(1) == 16 && Hex.Pow16(2) == 256;
    Hex.PaddedIsFixed(b, 2);
    assert Hex.Fixed(b, 2) == Hex.Fixed(b / 16, 1) + [Hex.Digit(b % 16)];
    assert Hex.Fixed(b / 16, 1) == Hex.Fixed(b / 16 / 16, 0) + [Hex.Digit(b / 16 % 16)];
    assert TwoDigits(b) == [Hex.Digit(b / 16), Hex.Digit(b % 16)];
    Hex.DigitRoundTrip(b / 16);
    Hex.DigitRoundTrip(b % 16);
  }

  lemma {:induction false} PairsAppend(a: string, b: string)
    requires |a| % 2 == 0 && |b| % 2 == 0
    ensures Pairs(a + b) == Pairs(a) + Pairs(b)
    decreases |a|
  {
    hide PairValue;
    if a == "" {
      assert a + b == b;
    } else {
      assert (a + b)[2..] == a[2..] + b;
      PairsAppend(a[2..], b);
    }
  }

  lemma {:induction false} TextOf(bytes: seq<byte>)
    ensures AllDigits(ToText(bytes)) && |ToText(bytes)| == 2 * |bytes| && Pairs(ToText(bytes)) == bytes
  {
    hide TwoDigits, PairValue;
    if bytes != [] {
      var n := |bytes| - 1;
      TextOf(bytes[..n]);
      TwoDigitsDigits(bytes[n]);
      TwoDigitsOfByte(bytes[n]);
      var t := TwoDigits(bytes[n]);
      PairsAppend(ToText(bytes[..n]), t);
      assert Pairs(t) == [PairValue(t[0], t[1])] + Pairs(t[2..]);
    }
  }

  lemma {:induction false} ToTextAppend(a: seq<byte>, b: seq<byte>)
    ensures ToText(a + b) == ToText(a) + ToText(b)
    decreases |b|
  {
    hide TwoDigits;
    if b == [] {
      assert a + b == a;
    } else {
      var n := |b| - 1;
      assert (a + b)[..|a + b| - 1] == a + b[..n];
      ToTextAppend(a, b[..n]);
    }
  }

  /** Bytes survive being written as text. */
  lemma TextRoundTrip(bytes: seq<byte>)
    ensures ToBytes(ToText(bytes)) == Some(bytes)
  {
    TextOf(bytes);
    StripDigits(ToText(bytes));
  }

  // ---------- The loops ----------

  lemma {:induction false} PairsAt(s: string, k: nat)
    requires |s| % 2 == 0 && k < |s| / 2
    ensures Pairs(s)[k] == PairValue(s[2 * k], s[2 * k + 1])
  {
    hide PairValue;
    if k > 0 { PairsAt(s[2..], k - 1); }
  }

  method HexToBytes(hex: string) returns (r: Option<seq<byte>>)
    ensures r == ToBytes(hex)
  {
    hide PairValue, Pairs, Strip;
    var normalized := Strip(hex);
    if |normalized| % 2 != 0 { return None; }
    var out := new byte[|normalized| / 2](_ => 0);
    var index := 0;
    while index < out.Length
      invariant 0 <= index <= out.Length
      invariant forall k :: 0 <= k < index ==> out[k] == Pairs(normalized)[k]
    {
      PairsAt(normalized, index);
      out[index] := PairValue(normalized[index * 2], normalized[index * 2 + 1]);
      index := index + 1;
    }
    assert out[..] == Pairs(normalized);
    r := Some(out[..]);
  }
}
