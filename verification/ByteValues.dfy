/** The one fact about converting a number to bits and back, in a module of its own to keep its proof small. */
module ByteValues {

  lemma Successor(c: bv8)
    requires c != 0xFF
    ensures (c + 1) as int == c as int + 1
  {}

  lemma BitsOfNumber(c: bv8)
    ensures (c as int) as bv8 == c
  {}

  lemma Top()
    ensures (0xFF as bv8) as int == 255
  {}

  /** The bits that stand for a number, counted up from zero. */
  lemma {:induction false} Count(b: nat) returns (c: bv8)
    requires b < 256
    ensures c as int == b
  {
    if b == 0 {
      c := 0;
    } else {
      c := Count(b - 1);
      Top();
      Successor(c);
      c := c + 1;
    }
  }

  lemma RoundTrip(b: int)
    requires 0 <= b < 256
    ensures (b as bv8) as int == b
  {
    var c := Count(b);
    BitsOfNumber(c);
  }
}
