/** The byte writer and reader objects (src/io/io.ts). */
module Io {
  import opened Bytes

  class ByteWriter {
    var values: seq<byte>

    constructor ()
      ensures values == []
    {
      values := [];
    }

    method WriteU8(value: int)
      modifies this
      ensures values == old(values) + BigEndian(value, 1)
    {
      values := values + [value % 256];
      assert BigEndian(value, 1) == BigEndian(value / 256, 0) + [value % 256];
    }

    method WriteU16(value: int)
      modifies this
      ensures values == old(values) + BigEndian(value, 2)
    {
      BigEndian2(value);
      values := values + [(value / 256) % 256, value % 256];
    }

    method WriteU32(value: int)
      modifies this
      ensures values == old(values) + BigEndian(value, 4)
    {
      BigEndian4(value);
      values := values + [(value / 0x100_0000) % 256, (value / 0x1_0000) % 256, (value / 256) % 256, value % 256];
    }

    /** The loop over the eight shifts. */
    method WriteU64(value: int)
      modifies this
      ensures values == old(values) + BigEndian(value, 8)
    {
      var shift := 8;
      BigEndianPrefix(value, 8, 0);
      while shift > 0
        invariant 0 <= shift <= 8
        invariant values == old(values) + BigEndian(value, 8)[..8 - shift]
      {
        shift := shift - 1;
        BigEndianPrefix(value, 8, 7 - shift);
        values := values + [(value / Pow256(shift)) % 256];
      }
    }

    method WriteBytes(bytes: seq<byte>)
      modifies this
      ensures values == old(values) + bytes
    {
      for i := 0 to |bytes|
        invariant values == old(values) + bytes[..i]
      {
        values := values + [bytes[i]];
      }
    }

    method TakeBytes() returns (out: seq<byte>)
      modifies this
      ensures out == old(values) && values == []
    {
      out := values;
      values := [];
    }
  }

  lemma OneByte(value: byte)
    ensures BigEndian(value, 1) == [value]
  {
    assert BigEndian(value, 1) == BigEndian(value / 256, 0) + [value % 256];
  }

  lemma BigEndian4(value: int)
    ensures BigEndian(value, 4) ==
            [(value / 0x100_0000) % 256, (value / 0x1_0000) % 256, (value / 256) % 256, value % 256]
  {
    BigEndian2(value / 0x1_0000);
    assert BigEndian(value / 256, 3) == BigEndian(value / 256 / 256, 2) + [(value / 256) % 256];
    assert value / 256 / 256 == value / 0x1_0000;
  }

  lemma DivideTwice(value: int, d: nat)
    requires d > 0
    ensures (value / 256) / d == value / (256 * d)
  {
    var q := (value / 256) / d;
    assert value / 256 == d * q + (value / 256) % d;
    assert value == 256 * (value / 256) + value % 256;
    var r := 256 * ((value / 256) % d) + value % 256;
    assert value == (256 * d) * q + r && 0 <= r < 256 * d;
    QuotientIs(value, 256 * d, q, r);
  }

  lemma QuotientIs(a: int, d: nat, q: int, r: nat)
    requires d > 0 && r < d && a == d * q + r
    ensures a / d == q
  {
    var p := a / d;
    assert a == d * p + a % d;
    if p > q { Scale(q + 1, p, d); } else if p < q { Scale(p + 1, q, d); }
  }

  lemma Scale(a: int, b: int, d: nat)
    requires a <= b
    ensures d * a <= d * b
  {}

  /** Each position of a big-endian number is one shifted byte. */
  lemma {:induction false} BigEndianPrefix(value: int, width: nat, i: nat)
    requires i < width
    ensures BigEndian(value, width)[i] == (value / Pow256(width - 1 - i)) % 256
    decreases width
  {
    if i < width - 1 {
      BigEndianPrefix(value / 256, width - 1, i);
      DivideTwice(value, Pow256(width - 2 - i));
    }
  }

  /** Reads from the front; None when too few bytes are left. */
  class ByteReader {
    const data: seq<byte>
    var cursor: nat

    ghost predicate Valid()
      reads this
    {
      cursor <= |data|
    }

    ghost function Rest(): seq<byte>
      reads this
      requires Valid()
    {
      data[cursor..]
    }

    constructor (data: seq<byte>)
      ensures Valid() && Rest() == data && this.data == data
    {
      this.data := data;
      cursor := 0;
    }

    method Remaining() returns (n: nat)
      requires Valid()
      ensures n == |Rest()|
    {
      n := |data| - cursor;
    }

    method ReadU8() returns (v: Option<nat>)
      requires Valid()
      modifies this
      ensures Valid()
      ensures |old(Rest())| < 1 ==> v == None && Rest() == old(Rest())
      ensures |old(Rest())| >= 1 ==> v == Some(FromBigEndian(old(Rest())[..1])) && v.value == old(Rest())[0] && Rest() == old(Rest())[1..]
    {
      if 1 > |data| - cursor { return None; }
      v := Some(data[cursor]);
      ghost var was := Rest();
      cursor := cursor + 1;
      assert FromBigEndian(was[..1]) == FromBigEndian(was[..1][..0]) * 256 + was[0];
    }

    method ReadU16() returns (v: Option<nat>)
      requires Valid()
      modifies this
      ensures Valid()
      ensures |old(Rest())| < 2 ==> v == None && Rest() == old(Rest())
      ensures |old(Rest())| >= 2 ==> v == Some(FromBigEndian(old(Rest())[..2])) && Rest() == old(Rest())[2..]
      ensures |old(Rest())| >= 2 ==> v.value == U16At(old(Rest()), 0)
    {
      if 2 > |data| - cursor { return None; }
      ghost var was := Rest();
      From2(was[..2]);
      v := Some(U16At(data, cursor));
      cursor := cursor + 2;
    }

    method ReadU32() returns (v: Option<nat>)
      requires Valid()
      modifies this
      ensures Valid()
      ensures |old(Rest())| < 4 ==> v == None && Rest() == old(Rest())
      ensures |old(Rest())| >= 4 ==> v == Some(FromBigEndian(old(Rest())[..4])) && Rest() == old(Rest())[4..]
    {
      if 4 > |data| - cursor { return None; }
      ghost var was := Rest();
      From4(was[..4]);
      var b0: int, b1: int, b2: int, b3: int := data[cursor], data[cursor + 1], data[cursor + 2], data[cursor + 3];
      v := Some(b0 * 0x100_0000 + b1 * 0x1_0000 + b2 * 256 + b3);
      cursor := cursor + 4;
    }

    method ReadU64() returns (v: Option<nat>)
      requires Valid()
      modifies this
      ensures Valid()
      ensures |old(Rest())| < 8 ==> v == None && Rest() == old(Rest())
      ensures |old(Rest())| >= 8 ==> v == Some(FromBigEndian(old(Rest())[..8])) && Rest() == old(Rest())[8..]
    {
      if 8 > |data| - cursor { return None; }
      ghost var was := Rest();
      var value: nat := 0;
      for i := 0 to 8
        invariant cursor == old(cursor) + i && value == FromBigEndian(was[..i])
      {
        assert was[..i + 1][..i] == was[..i];
        value := value * 256 + (data[cursor] as nat);
        cursor := cursor + 1;
      }
      v := Some(value);
    }

    method ReadBytes(size: nat) returns (v: Option<seq<byte>>)
      requires Valid()
      modifies this
      ensures Valid()
      ensures |old(Rest())| < size ==> v == None && Rest() == old(Rest())
      ensures |old(Rest())| >= size ==> v == Some(old(Rest())[..size]) && Rest() == old(Rest())[size..]
    {
      if size > |data| - cursor { return None; }
      assert data[cursor..cursor + size] == Rest()[..size];
      v := Some(data[cursor..cursor + size]);
      cursor := cursor + size;
    }
  }

  lemma From1(s: seq<byte>)
    requires |s| == 1
    ensures FromBigEndian(s) == s[0]
  {
    assert s[..0] == [];
    assert FromBigEndian(s[..0]) == 0;
  }

  lemma From2(s: seq<byte>)
    requires |s| == 2
    ensures FromBigEndian(s) == U16At(s, 0)
  {
    From1(s[..1]);
    assert FromBigEndian(s) == FromBigEndian(s[..1]) * 256 + (s[1] as nat);
  }

  lemma From4(s: seq<byte>)
    requires |s| == 4
    ensures var b0: int, b1: int, b2: int, b3: int := s[0], s[1], s[2], s[3];
      FromBigEndian(s) == b0 * 0x100_0000 + b1 * 0x1_0000 + b2 * 256 + b3
  {
    From2(s[..2]);
    assert s[..3][..2] == s[..2];
    assert FromBigEndian(s[..3]) == FromBigEndian(s[..2]) * 256 + (s[2] as nat);
    assert FromBigEndian(s) == FromBigEndian(s[..3]) * 256 + (s[3] as nat);
  }
}
