/** Single bits of a byte. */
module MaskBits {

  predicate BitOf(b: bv8, i: bv8)
    requires i < 8
  {
    b & (1 << i) != 0
  }

  function Or(b: bv8, i: bv8): bv8
    requires i < 8
  {
    b | (1 << i)
  }

  lemma OrBit(b: bv8, i: bv8, j: bv8)
    requires i < 8 && j < 8
    ensures BitOf(Or(b, i), j) <==> i == j || BitOf(b, j)
  {}

  lemma NoBit(j: bv8)
    requires j < 8
    ensures !BitOf(0, j)
  {}

  function Index(i: int): (v: bv8)
    requires 0 <= i < 8
    ensures v < 8
  {
    SmallRoundTrip(i);
    i as bv8
  }

  lemma SmallRoundTrip(i: int)
    requires 0 <= i < 8
    ensures (i as bv8) as int == i && (i as bv8) < 8
  {}

  function Number(c: bv8): (n: int)
    ensures 0 <= n < 256
  {
    c as int
  }

  function Bits(n: int): bv8
    requires 0 <= n < 256
  {
    n as bv8
  }

  lemma NumberRoundTrip(c: bv8)
    ensures Bits(Number(c)) == c
  {}

  lemma IndexInjective(i: int, j: int)
    requires 0 <= i < 8 && 0 <= j < 8
    ensures Index(i) == Index(j) <==> i == j
  {
    SmallRoundTrip(i);
    SmallRoundTrip(j);
  }

  lemma ZeroBits()
    ensures Bits(0) == 0
  {}

  /** byte | (1 << i) */
  function WithBit(b: int, i: int): (r: int)
    requires 0 <= b < 256 && 0 <= i < 8
    ensures 0 <= r < 256
  {
    Number(Or(Bits(b), Index(i)))
  }

  /** (byte & (1 << i)) !== 0 */
  predicate HasBit(b: int, i: int)
    requires 0 <= b < 256 && 0 <= i < 8
  {
    BitOf(Bits(b), Index(i))
  }

  lemma WithBitSets(b: int, i: int, j: int)
    requires 0 <= b < 256 && 0 <= i < 8 && 0 <= j < 8
    ensures HasBit(WithBit(b, i), j) <==> i == j || HasBit(b, j)
  {
    hide BitOf, Or, Number, Bits, Index;
    NumberRoundTrip(Or(Bits(b), Index(i)));
    OrBit(Bits(b), Index(i), Index(j));
    IndexInjective(i, j);
  }

  lemma ZeroHasNone(j: int)
    requires 0 <= j < 8
    ensures !HasBit(0, j)
  {
    hide BitOf, Bits, Index;
    ZeroBits();
    NoBit(Index(j));
  }
}
