/** Bytes and the big-endian integers written and read through them (src/io/io.ts). */
module Bytes {

  /** One element of a Uint8Array. */
  type byte = x: int | 0 <= x < 256

  datatype Option<+T> = None | Some(value: T)

  const TWO_16 := 0x1_0000
  const TWO_32 := 0x1_0000_0000
  const TWO_64 := 0x1_0000_0000_0000_0000

  /** The `width` low bytes of an integer, most significant first; the shifts and masks of
      ByteWriter keep exactly these bits of a negative or over-wide value as well. */
  function BigEndian(value: int, width: nat): (s: seq<byte>)
    ensures |s| == width
    decreases width
  {
    if width == 0 then [] else BigEndian(value / 256, width - 1) + [value % 256]
  }

  /** The number that a byte string spells, most significant byte first. */
  function FromBigEndian(s: seq<byte>): nat {
    if s == [] then 0 else FromBigEndian(s[..|s| - 1]) * 256 + (s[|s| - 1] as nat)
  }

  function Pow256(n: nat): (p: nat)
    ensures p >= 1
  {
    if n == 0 then 1 else 256 * Pow256(n - 1)
  }

  lemma {:induction false} BigEndianRoundTrip(value: int, width: nat)
    requires 0 <= value < Pow256(width)
    ensures FromBigEndian(BigEndian(value, width)) == value
  {
    if width > 0 {
      BigEndianRoundTrip(value / 256, width - 1);
      assert BigEndian(value, width)[..width - 1] == BigEndian(value / 256, width - 1);
    }
  }

  lemma Pow256Values()
    ensures Pow256(1) == 256 && Pow256(2) == TWO_16 && Pow256(4) == TWO_32 && Pow256(8) == TWO_64
  {
    assert Pow256(0) == 1 && Pow256(3) == 0x100_0000;
    assert Pow256(5) == 0x100_0000_0000 && Pow256(6) == 0x1_0000_0000_0000 && Pow256(7) == 0x100_0000_0000_0000;
  }

  lemma BigEndian2(value: int)
    ensures BigEndian(value, 2) == [(value / 256) % 256, value % 256]
  {
    assert BigEndian(value / 256, 1) == BigEndian(value / 256 / 256, 0) + [(value / 256) % 256];
  }

  /** readU16 at a position. */
  function U16At(s: seq<byte>, i: nat): (v: nat)
    requires i + 2 <= |s|
    ensures v < TWO_16
  {
    var hi: int, lo: int := s[i], s[i + 1];
    hi * 256 + lo
  }

  lemma U16AtBigEndian(s: seq<byte>, i: nat, value: int)
    requires i + 2 <= |s| && s[i..i + 2] == BigEndian(value, 2)
    ensures U16At(s, i) == value % TWO_16
  {
    BigEndian2(value);
    assert s[i] == s[i..i + 2][0] && s[i + 1] == s[i..i + 2][1];
  }

  function Flatten<T>(chunks: seq<seq<T>>): seq<T> {
    if chunks == [] then [] else chunks[0] + Flatten(chunks[1..])
  }

  lemma ConsAppend<T>(x: T, xs: seq<T>, s: seq<T>, t: seq<T>)
    requires s == [x] + xs
    ensures s + t != [] && (s + t)[0] == x && (s + t)[1..] == xs + t
  {}

  lemma AppendLast<T>(s: seq<T>, t: seq<T>)
    requires t != []
    ensures (s + t)[..|s + t| - 1] == s + t[..|t| - 1] && (s + t)[|s + t| - 1] == t[|t| - 1]
  {}

  lemma Associative<T>(a: seq<T>, b: seq<T>, c: seq<T>)
    ensures a + (b + c) == a + b + c
  {}

  lemma {:induction false} FlattenAppend<T>(xs: seq<seq<T>>, ys: seq<seq<T>>)
    ensures Flatten(xs + ys) == Flatten(xs) + Flatten(ys)
  {
    if xs == [] {
      assert xs + ys == ys;
    } else {
      FlattenAppend(xs[1..], ys);
      ConsAppend(xs[0], xs[1..], xs, ys);
      Associative(xs[0], Flatten(xs[1..]), Flatten(ys));
    }
  }
}
