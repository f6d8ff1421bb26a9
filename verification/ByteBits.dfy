/** Byte values as bits. */
module ByteBits {
  import ByteValues

  function Wide(b: int): bv16
    requires 0 <= b < 256
  {
    (b as bv8) as bv16
  }

  lemma Widening(a: bv8, b: bv8)
    requires a != b
    ensures (a as bv16) != (b as bv16)
  {}

  lemma WideInjective(a: int, b: int)
    requires 0 <= a < 256 && 0 <= b < 256 && a != b
    ensures Wide(a) != Wide(b)
  {
    ByteValues.RoundTrip(a);
    ByteValues.RoundTrip(b);
    Widening(a as bv8, b as bv8);
  }

  lemma NumberRoundTrip(c: bv16)
    ensures (c as int) as bv16 == c
  {}

  lemma NumberInjective(c: bv16, d: bv16)
    requires c != d
    ensures c as int != d as int
  {
    NumberRoundTrip(c);
    NumberRoundTrip(d);
  }

  lemma WideIsByte(a: int)
    requires 0 <= a < 256
    ensures Wide(a) < 0x100
  {}

  // ---------- Single bits, counted from the top ----------

  function Mask(i: nat): bv16
    requires i < 8
  {
    match i
    case 0 => 0x80
    case 1 => 0x40
    case 2 => 0x20
    case 3 => 0x10
    case 4 => 0x08
    case 5 => 0x04
    case 6 => 0x02
    case _ => 0x01
  }

  predicate Misses(d: bv16, mask: bv16) {
    d & mask == 0
  }

  predicate SameBit(a: int, b: int, i: nat)
    requires 0 <= a < 256 && 0 <= b < 256 && i < 8
  {
    Misses(Wide(a), Mask(i)) == Misses(Wide(b), Mask(i))
  }

  function Xor(v: bv16, w: bv16): bv16 {
    v ^ w
  }

  /** Where two bytes differ. */
  function Diff(a: int, b: int): bv16
    requires 0 <= a < 256 && 0 <= b < 256
  {
    Xor(Wide(a), Wide(b))
  }

  lemma XorBit(v: bv16, w: bv16, i: nat)
    requires i < 8 && Misses(v, Mask(i)) == Misses(w, Mask(i))
    ensures Misses(Xor(v, w), Mask(i))
  {}

  lemma DiffBit(a: int, b: int, i: nat)
    requires 0 <= a < 256 && 0 <= b < 256 && i < 8 && SameBit(a, b, i)
    ensures Misses(Diff(a, b), Mask(i))
  {
    hide Wide, Mask, Misses, Xor;
    XorBit(Wide(a), Wide(b), i);
  }

  /** The first n bits of a byte, and the other ones. */
  function Top(n: nat): bv16
    requires n <= 8
  {
    if n == 0 then 0 else Top(n - 1) | Mask(n - 1)
  }

  function Rest(n: nat): bv16
    requires n <= 8
    decreases 8 - n
  {
    if n == 8 then 0 else Rest(n + 1) | Mask(n)
  }

  lemma MissesNone(d: bv16)
    ensures Misses(d, 0)
  {}

  lemma MissesBoth(d: bv16, a: bv16, b: bv16)
    requires Misses(d, a) && Misses(d, b)
    ensures Misses(d, a | b)
  {}

  lemma {:induction false} SameTop(a: int, b: int, n: nat)
    requires 0 <= a < 256 && 0 <= b < 256 && n <= 8
    requires forall i :: 0 <= i < n ==> SameBit(a, b, i)
    ensures Misses(Diff(a, b), Top(n))
  {
    hide Diff, Mask, SameBit, Misses;
    if n == 0 {
      MissesNone(Diff(a, b));
    } else {
      SameTop(a, b, n - 1);
      DiffBit(a, b, n - 1);
      MissesBoth(Diff(a, b), Top(n - 1), Mask(n - 1));
    }
  }

  lemma {:induction false} SameRest(a: int, b: int, n: nat)
    requires 0 <= a < 256 && 0 <= b < 256 && n <= 8
    requires forall i :: n <= i < 8 ==> SameBit(a, b, i)
    ensures Misses(Diff(a, b), Rest(n))
    decreases 8 - n
  {
    hide Diff, Mask, SameBit, Misses;
    if n == 8 {
      MissesNone(Diff(a, b));
    } else {
      SameRest(a, b, n + 1);
      DiffBit(a, b, n);
      MissesBoth(Diff(a, b), Rest(n + 1), Mask(n));
    }
  }

  /** Bytes with the same bits are the same. */
  lemma SameBits(a: int, b: int)
    requires 0 <= a < 256 && 0 <= b < 256
    requires forall i :: 0 <= i < 8 ==> SameBit(a, b, i)
    ensures a == b
  {
    hide Wide, Misses, Top, Mask, SameBit, Xor;
    SameTop(a, b, 8);
    WideIsByte(a);
    WideIsByte(b);
    NoDifference(Wide(a), Wide(b));
    if a != b { WideInjective(a, b); }
  }

  lemma NoDifference(v: bv16, w: bv16)
    requires v < 0x100 && w < 0x100 && Misses(Xor(v, w), Top(8))
    ensures v == w
  {
    assert Top(2) == 0xC0 && Top(5) == 0xF8 && Top(8) == 0xFF;
  }

  /** A byte that misses its first k bits is small, and one that misses the others ends in zeros. */
  lemma Shifts(d0: bv16, d2: bv16, k: nat)
    requires k < 8 && d0 < 0x100 && Misses(d0, Top(k)) && Misses(d2, Rest(k))
    ensures d0 < 0x100 >> (k as bv16) && d2 & (0xFF >> (k as bv16)) == 0
  {
    TopValues();
    RestValues();
    match k
    case 0 =>
    case 1 =>
    case 2 =>
    case 3 =>
    case 4 =>
    case 5 =>
    case 6 =>
    case 7 =>
  }

  lemma TopValues()
    ensures Top(0) == 0 && Top(1) == 0x80 && Top(2) == 0xC0 && Top(3) == 0xE0
    ensures Top(4) == 0xF0 && Top(5) == 0xF8 && Top(6) == 0xFC && Top(7) == 0xFE
  {}

  lemma RestValues()
    ensures Rest(7) == 0x01 && Rest(6) == 0x03 && Rest(5) == 0x07 && Rest(4) == 0x0F
    ensures Rest(3) == 0x1F && Rest(2) == 0x3F && Rest(1) == 0x7F && Rest(0) == 0xFF
  {}
}
