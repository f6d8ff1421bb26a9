/** CRC-16/CCITT-FALSE (src/io/io.ts): generator polynomial x^16 + x^12 + x^5 + 1 of ITU-T
    Recommendation V.41, section 2, initial value 0xFFFF, no reflection, no final XOR. */
module Crc {
  import opened Bytes
  import opened Polynomial
  import ByteBits

  const INITIAL := Poly(0xFFFF)

  function Bits(b: byte): Poly {
    Poly(ByteBits.Wide(b))
  }

  /** The register after a whole string, from any starting value. */
  function Register(p: Poly, s: seq<byte>): Poly {
    if s == [] then p else Mix(Register(p, s[..|s| - 1]), Bits(s[|s| - 1]))
  }

  function Crc16(s: seq<byte>): (crc: nat)
    ensures crc < TWO_16
  {
    Register(INITIAL, s).bits as int
  }

  function TimesXPower(p: Poly, n: nat): Poly {
    if n == 0 then p else TimesX(TimesXPower(p, n - 1))
  }

  lemma TimesXPower8(p: Poly)
    ensures TimesXPower(p, 8) == TimesX8(p)
  {
    hide TimesX;
    assert TimesXPower(p, 1) == TimesX(p);
    assert TimesXPower(p, 3) == TimesX(TimesX(TimesXPower(p, 1)));
    assert TimesXPower(p, 5) == TimesX(TimesX(TimesXPower(p, 3)));
    assert TimesXPower(p, 7) == TimesX(TimesX(TimesXPower(p, 5)));
  }

  /** The double loop of crc16CcittFalse. */
  method Crc16CcittFalse(bytes: seq<byte>) returns (crc: bv16)
    ensures crc as int == Crc16(bytes)
  {
    hide TimesX, TimesX8;
    crc := 0xFFFF;
    for i := 0 to |bytes|
      invariant Poly(crc) == Register(INITIAL, bytes[..i])
    {
      crc := crc ^ (ByteBits.Wide(bytes[i]) << 8);
      ghost var start := Poly(crc);
      for bit := 0 to 8
        invariant Poly(crc) == TimesXPower(start, bit)
      {
        BranchIsTimesX(crc);
        crc := if crc & 0x8000 != 0 then (crc << 1) ^ 0x1021 else crc << 1;
      }
      TimesXPower8(start);
      assert bytes[..i + 1][..i] == bytes[..i];
    }
    assert bytes[..|bytes|] == bytes;
  }

  lemma {:induction false} RegisterAppend(p: Poly, s: seq<byte>, t: seq<byte>)
    ensures Register(p, s + t) == Register(Register(p, s), t)
  {
    hide Mix, Bits;
    if t == [] {
      assert s + t == s;
    } else {
      RegisterAppend(p, s, t[..|t| - 1]);
      AppendLast(s, t);
    }
  }

  lemma {:induction false} RegisterInjective(p: Poly, q: Poly, s: seq<byte>)
    requires p != q
    ensures Register(p, s) != Register(q, s)
  {
    hide Mix;
    if s != [] {
      RegisterInjective(p, q, s[..|s| - 1]);
      MixInjective(Register(p, s[..|s| - 1]), Register(q, s[..|s| - 1]), Bits(s[|s| - 1]));
    }
  }

  lemma CrcDiffers(s: seq<byte>, t: seq<byte>)
    requires Register(INITIAL, s) != Register(INITIAL, t)
    ensures Crc16(s) != Crc16(t)
  {
    ByteBits.NumberInjective(Register(INITIAL, s).bits, Register(INITIAL, t).bits);
  }

  // ---------- Error bursts ----------

  /** Bits of a string are numbered from the top bit of its first byte. */
  predicate SameBitAt(x: seq<byte>, y: seq<byte>, j: nat)
    requires |x| == |y| && j < 8 * |x|
  {
    ByteBits.SameBit(x[j / 8], y[j / 8], j % 8)
  }

  /** Two strings of the same length whose bits agree outside the n bits from number q on. */
  ghost predicate AgreeOutside(x: seq<byte>, y: seq<byte>, q: nat, n: nat) {
    |x| == |y| && forall j :: 0 <= j < 8 * |x| && !(q <= j < q + n) ==> SameBitAt(x, y, j)
  }

  lemma BitOfByte(x: seq<byte>, y: seq<byte>, q: nat, n: nat, i: nat, b: nat)
    requires AgreeOutside(x, y, q, n) && i < |x| && b < 8 && !(q <= 8 * i + b < q + n)
    ensures ByteBits.SameBit(x[i], y[i], b)
  {
    hide ByteBits.SameBit;
    assert (8 * i + b) / 8 == i && (8 * i + b) % 8 == b;
    assert SameBitAt(x, y, 8 * i + b);
  }

  lemma ByteOutside(x: seq<byte>, y: seq<byte>, q: nat, n: nat, i: nat)
    requires |x| == |y| && AgreeOutside(x, y, q, n) && i < |x| && (8 * i + 8 <= q || q + n <= 8 * i)
    ensures x[i] == y[i]
  {
    hide ByteBits.SameBit, AgreeOutside;
    forall b: nat | b < 8 ensures ByteBits.SameBit(x[i], y[i], b) { BitOfByte(x, y, q, n, i, b); }
    ByteBits.SameBits(x[i], y[i]);
  }

  function Difference(x: byte, y: byte): Poly {
    Poly(ByteBits.Diff(x, y))
  }

  lemma ByteError(x: byte, y: byte)
    ensures IsByte(Difference(x, y)) && Bits(y) == Add(Bits(x), Difference(x, y))
    ensures x != y ==> Difference(x, y) != ZERO
  {
    ByteBits.WideIsByte(x);
    ByteBits.WideIsByte(y);
    assert Difference(x, y) == Add(Bits(x), Bits(y));
    hide ByteBits.Wide, Add;
    ByteDifference(Bits(x), Bits(y));
    AddDifference(Bits(x), Bits(y));
    if x != y {
      ByteBits.WideInjective(x, y);
      DifferenceNonZero(Bits(x), Bits(y));
    }
  }

  /** Strings that agree before and after a window have the same checksum only if the windows lead to the same. */
  lemma SplitWindow(c: Poly, x: seq<byte>, y: seq<byte>, p: nat, n: nat)
    requires |x| == |y| && p + n <= |x| && x[..p] == y[..p] && x[p + n..] == y[p + n..]
    requires Register(Register(c, x[..p]), x[p..p + n]) != Register(Register(c, x[..p]), y[p..p + n])
    ensures Register(c, x) != Register(c, y)
  {
    hide Register;
    var s := Register(c, x[..p]);
    assert x == x[..p] + (x[p..p + n] + x[p + n..]);
    assert y == y[..p] + (y[p..p + n] + y[p + n..]);
    RegisterAppend(c, x[..p], x[p..p + n] + x[p + n..]);
    RegisterAppend(c, y[..p], y[p..p + n] + y[p + n..]);
    RegisterAppend(s, x[p..p + n], x[p + n..]);
    RegisterAppend(s, y[p..p + n], y[p + n..]);
    RegisterInjective(Register(s, x[p..p + n]), Register(s, y[p..p + n]), x[p + n..]);
  }

  lemma RegisterOf1(p: Poly, w: seq<byte>)
    requires |w| == 1
    ensures Register(p, w) == Mix(p, Bits(w[0]))
  {
    assert w[..0] == [];
  }

  lemma RegisterOf2(p: Poly, w: seq<byte>)
    requires |w| == 2
    ensures Register(p, w) == Mix(Mix(p, Bits(w[0])), Bits(w[1]))
  {
    RegisterOf1(p, w[..1]);
    assert w[..1][0] == w[0];
  }

  lemma RegisterOf3(p: Poly, w: seq<byte>)
    requires |w| == 3
    ensures Register(p, w) == Mix(Mix(Mix(p, Bits(w[0])), Bits(w[1])), Bits(w[2]))
  {
    RegisterOf2(p, w[..2]);
    assert w[..2][0] == w[0] && w[..2][1] == w[1];
  }

  lemma OneByteDetected(s: Poly, v: seq<byte>, w: seq<byte>)
    requires |v| == |w| == 1 && v != w
    ensures Register(s, v) != Register(s, w)
  {
    hide Mix, Difference, IsByte, Bits;
    RegisterOf1(s, v);
    RegisterOf1(s, w);
    ByteError(v[0], w[0]);
    OneByteDiffers(s, Bits(v[0]), Difference(v[0], w[0]));
  }

  lemma TwoBytesDetected(s: Poly, v: seq<byte>, w: seq<byte>)
    requires |v| == |w| == 2 && v != w
    ensures Register(s, v) != Register(s, w)
  {
    hide Mix, Bits, Difference, IsByte;
    RegisterOf2(s, v);
    RegisterOf2(s, w);
    ByteError(v[0], w[0]);
    ByteError(v[1], w[1]);
    TwoBytesDiffer(s, Bits(v[0]), Bits(v[1]), Difference(v[0], w[0]), Difference(v[1], w[1]));
  }

  lemma ThreeBytesDetected(s: Poly, v: seq<byte>, w: seq<byte>, k: nat)
    requires |v| == |w| == 3 && v != w && k < 8 && AgreeOutside(v, w, k, 16)
    ensures Register(s, v) != Register(s, w)
  {
    hide Mix, Bits, Difference, IsBurst, IsByte, AgreeOutside;
    RegisterOf3(s, v);
    RegisterOf3(s, w);
    ByteError(v[0], w[0]);
    ByteError(v[1], w[1]);
    ByteError(v[2], w[2]);
    WindowIsBurst(v, w, k);
    BurstDiffers(s, Bits(v[0]), Bits(v[1]), Bits(v[2]),
                 Difference(v[0], w[0]), Difference(v[1], w[1]), Difference(v[2], w[2]), k as bv16);
  }

  lemma WindowIsBurst(v: seq<byte>, w: seq<byte>, k: nat)
    requires |v| == |w| == 3 && v != w && k < 8 && AgreeOutside(v, w, k, 16)
    ensures IsBurst(Difference(v[0], w[0]), Difference(v[1], w[1]), Difference(v[2], w[2]), k as bv16)
  {
    hide ByteBits.SameBit, ByteBits.Misses, ByteBits.Diff, ByteBits.Top, ByteBits.Rest, Bits, AgreeOutside;
    ByteError(v[0], w[0]);
    ByteError(v[1], w[1]);
    ByteError(v[2], w[2]);
    forall b: nat | b < k ensures ByteBits.SameBit(v[0], w[0], b) { BitOfByte(v, w, k, 16, 0, b); }
    ByteBits.SameTop(v[0], w[0], k);
    forall b: nat | k <= b < 8 ensures ByteBits.SameBit(v[2], w[2], b) { BitOfByte(v, w, k, 16, 2, b); }
    ByteBits.SameRest(v[2], w[2], k);
    ByteBits.Shifts(ByteBits.Diff(v[0], w[0]), ByteBits.Diff(v[2], w[2]), k);
  }

  /** The checksum detects every burst: of two different strings of one length that agree outside sixteen adjacent
      bits, wherever those start and even if they run past the end, the checksums differ. */
  lemma BurstDetected(c: Poly, x: seq<byte>, y: seq<byte>, q: nat)
    requires x != y && AgreeOutside(x, y, q, 16)
    ensures Register(c, x) != Register(c, y)
  {
    hide Register, AgreeOutside;
    var n := |x|;
    var p := q / 8;
    assert n == |y| && 8 * p <= q < 8 * p + 8 by { AgreeLength(x, y, q); }
    forall i | 0 <= i < n && !(p <= i < p + 3) ensures x[i] == y[i] { ByteOutside(x, y, q, 16, i); }
    if p + 3 <= n {
      var s := Register(c, x[..p]);
      var v, w := x[p..p + 3], y[p..p + 3];
      WindowAgrees(x, y, q, p);
      SameOutside(x, y, p, 3);
      ThreeBytesDetected(s, v, w, q - 8 * p);
      SplitWindow(c, x, y, p, 3);
    } else if n >= 2 {
      SameOutside(x, y, n - 2, 2);
      TwoBytesDetected(Register(c, x[..n - 2]), x[n - 2..n - 2 + 2], y[n - 2..n - 2 + 2]);
      SplitWindow(c, x, y, n - 2, 2);
    } else {
      OneByteDetected(c, x, y);
    }
  }

  lemma AgreeLength(x: seq<byte>, y: seq<byte>, q: nat)
    requires AgreeOutside(x, y, q, 16)
    ensures |x| == |y|
  {}

  lemma SameOutside(x: seq<byte>, y: seq<byte>, p: nat, n: nat)
    requires |x| == |y| && p + n <= |x| && x != y && forall i :: 0 <= i < |x| && !(p <= i < p + n) ==> x[i] == y[i]
    ensures x[..p] == y[..p] && x[p + n..] == y[p + n..] && x[p..p + n] != y[p..p + n]
  {
    if x[p..p + n] == y[p..p + n] {
      forall i | 0 <= i < |x| ensures x[i] == y[i] {
        if p <= i < p + n { assert x[p..p + n][i - p] == y[p..p + n][i - p]; }
      }
    }
  }

  lemma WindowAgrees(x: seq<byte>, y: seq<byte>, q: nat, p: nat)
    requires AgreeOutside(x, y, q, 16) && 8 * p <= q < 8 * p + 8 && p + 3 <= |x|
    ensures AgreeOutside(x[p..p + 3], y[p..p + 3], q - 8 * p, 16)
  {
    hide ByteBits.SameBit;
    var v, w := x[p..p + 3], y[p..p + 3];
    forall j | 0 <= j < 24 && !(q - 8 * p <= j < q - 8 * p + 16) ensures SameBitAt(v, w, j) {
      BitOfByte(x, y, q, 16, p + j / 8, j % 8);
    }
  }

  /** In particular any change inside two adjacent bytes, or the one at the end. */
  lemma TwoByteWindowDetected(c: Poly, x: seq<byte>, y: seq<byte>, p: nat)
    requires x != y && |x| == |y| && forall i :: 0 <= i < |x| && i != p && i != p + 1 ==> x[i] == y[i]
    ensures Register(c, x) != Register(c, y)
  {
    hide Register, ByteBits.SameBit;
    forall j | 0 <= j < 8 * |x| && !(8 * p <= j < 8 * p + 16) ensures SameBitAt(x, y, j) {
      SameByteBits(x[j / 8], j % 8);
    }
    BurstDetected(c, x, y, 8 * p);
  }

  lemma SameByteBits(b: byte, i: nat)
    requires i < 8
    ensures ByteBits.SameBit(b, b, i)
  {}

  // ---------- The known answer ----------

  lemma DigitBits()
    ensures Bits(0x31) == Poly(0x31) && Bits(0x32) == Poly(0x32) && Bits(0x33) == Poly(0x33)
    ensures Bits(0x34) == Poly(0x34) && Bits(0x35) == Poly(0x35) && Bits(0x36) == Poly(0x36)
    ensures Bits(0x37) == Poly(0x37) && Bits(0x38) == Poly(0x38) && Bits(0x39) == Poly(0x39)
  {}

  lemma DigitSteps()
    ensures Mix(Poly(0xFFFF), Poly(0x31)) == Poly(0xC782)
    ensures Mix(Poly(0xC782), Poly(0x32)) == Poly(0x3DBA)
    ensures Mix(Poly(0x3DBA), Poly(0x33)) == Poly(0x5BCE)
    ensures Mix(Poly(0x5BCE), Poly(0x34)) == Poly(0x5349)
    ensures Mix(Poly(0x5349), Poly(0x35)) == Poly(0x4560)
    ensures Mix(Poly(0x4560), Poly(0x36)) == Poly(0x2EF4)
    ensures Mix(Poly(0x2EF4), Poly(0x37)) == Poly(0x7718)
    ensures Mix(Poly(0x7718), Poly(0x38)) == Poly(0xA12B)
    ensures Mix(Poly(0xA12B), Poly(0x39)) == Poly(0x29B1)
  {}

  /** The check value of CRC-16/CCITT-FALSE: the checksum of the nine characters "123456789" is 0x29B1. */
  lemma KnownAnswer()
    ensures Crc16([0x31, 0x32, 0x33, 0x34, 0x35, 0x36, 0x37, 0x38, 0x39]) == 0x29B1
  {
    hide Mix, Bits;
    DigitBits();
    DigitSteps();
    var s: seq<byte> := [0x31, 0x32, 0x33, 0x34, 0x35, 0x36, 0x37, 0x38, 0x39];
    RegisterOf3(INITIAL, s[..3]);
    RegisterOf3(Poly(0x5BCE), s[3..6]);
    RegisterOf3(Poly(0x2EF4), s[6..9]);
    RegisterAppend(INITIAL, s[..3], s[3..6]);
    RegisterAppend(INITIAL, s[..6], s[6..9]);
    assert s[..3] + s[3..6] == s[..6] && s[..6] + s[6..9] == s;
  }
}
