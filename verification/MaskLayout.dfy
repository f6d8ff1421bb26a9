/** What the text of event masks spells, in numbers (src/types/registry.ts): which digits stand where, and which
    binary digit belongs to which event. Nothing here refers to the way the bits are set or asked for. */
module MaskLayout {
  import opened Bytes
  import opened MaskBits
  import opened EventMasks
  import Hex
  import HexBytes
  import ByteValues

  // ---------- Bits weigh powers of two ----------

  function Pow2(k: nat): (p: nat)
    ensures p >= 1
  {
    if k == 0 then 1 else 2 * Pow2(k - 1)
  }

  /** The binary digit of weight 2^k, counted off from the lowest. */
  function Digit(n: nat, k: nat): (d: nat)
    ensures d < 2
  {
    if k == 0 then n % 2 else Digit(n / 2, k - 1)
  }

  lemma {:induction false} DigitIs(n: nat, k: nat)
    ensures Digit(n, k) == n / Pow2(k) % 2
  {
    if k > 0 {
      DigitIs(n / 2, k - 1);
      HalfThen(n, Pow2(k - 1));
    }
  }

  lemma HalfThen(n: nat, d: nat)
    requires d > 0
    ensures n / (2 * d) == n / 2 / d
  {
    var h := n / 2;
    var q, r := h / d, h % d;
    assert n == 2 * (d * q + r) + n % 2;
    assert 2 * (d * q) == 2 * d * q;
    QuotientIs(n, 2 * d, q, 2 * r + n % 2);
  }

  lemma Times(x: nat, y: nat, a: nat)
    requires x <= y
    ensures a * x <= a * y
  {}

  lemma QuotientIs(n: nat, d: nat, q: nat, r: nat)
    requires d > 0 && n == d * q + r && r < d
    ensures n / d == q
  {
    if n / d < q { Times(n / d + 1, q, d); }
    if n / d > q { Times(q + 1, n / d, d); }
  }

  function Weight(c: bv8, i: bv8): nat
    requires i < 8
  {
    if BitOf(c, i) then 1 else 0
  }

  function WeightSum(c: bv8): nat {
    Weight(c, 0) + 2 * Weight(c, 1) + 4 * Weight(c, 2) + 8 * Weight(c, 3)
    + 16 * Weight(c, 4) + 32 * Weight(c, 5) + 64 * Weight(c, 6) + 128 * Weight(c, 7)
  }

  lemma WeightSumStep(c: bv8)
    requires c != 0xFF
    ensures WeightSum(c + 1) == WeightSum(c) + 1
  {}

  lemma WeightSumZero()
    ensures WeightSum(0) == 0
  {}

  lemma {:induction false} WeightSumIs(n: nat) returns (c: bv8)
    requires n < 256
    ensures Number(c) == n == WeightSum(c)
  {
    hide WeightSum;
    if n == 0 {
      c := 0;
      WeightSumZero();
    } else {
      c := WeightSumIs(n - 1);
      ByteValues.Top();
      ByteValues.Successor(c);
      WeightSumStep(c);
      c := c + 1;
    }
  }

  /** The number that binary digits spell, lowest first. */
  function Spelled(w: seq<nat>): nat {
    if w == [] then 0 else w[0] + 2 * Spelled(w[1..])
  }

  lemma {:induction false} SpelledDigit(w: seq<nat>, i: nat)
    requires i < |w| && forall j :: 0 <= j < |w| ==> w[j] < 2
    ensures Digit(Spelled(w), i) == w[i]
  {
    assert Spelled(w) / 2 == Spelled(w[1..]) && Spelled(w) % 2 == w[0];
    if i > 0 { SpelledDigit(w[1..], i - 1); }
  }

  function Weights(c: bv8): (w: seq<nat>)
    ensures |w| == 8
  {
    [Weight(c, 0), Weight(c, 1), Weight(c, 2), Weight(c, 3), Weight(c, 4), Weight(c, 5), Weight(c, 6), Weight(c, 7)]
  }

  lemma Spelled8(w: seq<nat>)
    requires |w| == 8
    ensures Spelled(w) == w[0] + 2 * w[1] + 4 * w[2] + 8 * w[3] + 16 * w[4] + 32 * w[5] + 64 * w[6] + 128 * w[7]
  {
    assert w[4..] == [w[4], w[5], w[6], w[7]] && w[4..][1..] == w[5..] && w[5..][1..] == w[6..] && w[6..][1..] == w[7..];
    assert Spelled(w[7..]) == w[7] + 2 * Spelled(w[8..]);
    assert Spelled(w[6..]) == w[6] + 2 * w[7];
    assert Spelled(w[4..]) == w[4] + 2 * (w[5] + 2 * Spelled(w[6..]));
    assert w[1..][1..] == w[2..] && w[2..][1..] == w[3..] && w[3..][1..] == w[4..];
    assert Spelled(w[2..]) == w[2] + 2 * (w[3] + 2 * Spelled(w[4..]));
  }

  lemma Indices()
    ensures Index(0) == 0 && Index(1) == 1 && Index(2) == 2 && Index(3) == 3
    ensures Index(4) == 4 && Index(5) == 5 && Index(6) == 6 && Index(7) == 7
  {}

  lemma HasBitIsDigit(b: byte, i: nat)
    requires i < 8
    ensures HasBit(b, i) <==> Digit(b, i) == 1
  {
    hide BitOf, Number, Index, Digit, Bits, Weights, Spelled;
    var c := WeightSumIs(b);
    NumberRoundTrip(c);
    Indices();
    WeightsSpell(c, i);
  }

  lemma WeightsSpell(c: bv8, i: nat)
    requires i < 8
    ensures Digit(WeightSum(c), i) == if BitOf(c, Index(i)) then 1 else 0
  {
    hide BitOf, Index, Digit, Spelled;
    Indices();
    Spelled8(Weights(c));
    SpelledDigit(Weights(c), i);
  }

  /** Bit i of a byte weighs 2^i: setting it makes that binary digit one and leaves the others. */
  lemma WithBitWeighs(b: byte, i: nat, j: nat)
    requires i < 8 && j < 8
    ensures Digit(WithBit(b, i), j) == if i == j then 1 else Digit(b, j)
  {
    hide WithBit, HasBit, Digit;
    WithBitSets(b, i, j);
    HasBitIsDigit(WithBit(b, i), j);
    HasBitIsDigit(b, j);
  }

  // ---------- A mask as a number ----------

  lemma HigherDigit(n: nat, k: nat)
    requires k >= 8
    ensures Digit(n, k) == Digit(n / 256, k - 8)
  {
    assert Digit(n, k) == Digit(n / 2 / 2, k - 2);
    assert Digit(n / 4, k - 2) == Digit(n / 4 / 2 / 2, k - 4);
    assert Digit(n / 16, k - 4) == Digit(n / 16 / 2 / 2, k - 6);
    assert Digit(n / 64, k - 6) == Digit(n / 64 / 2 / 2, k - 8);
  }

  lemma {:induction false} LowerDigit(high: nat, low: nat, j: nat, k: nat)
    requires k < j
    ensures Digit(high * Pow2(j) + low, k) == Digit(low, k)
  {
    assert high * Pow2(j) == 2 * (high * Pow2(j - 1));
    if k > 0 { LowerDigit(high, low / 2, j - 1, k - 1); }
  }

  lemma {:induction false} MaskDigit(m: seq<byte>, k: nat)
    ensures Digit(FromBigEndian(m), k) == if k / 8 < |m| then Digit(m[|m| - 1 - k / 8], k % 8) else 0
    decreases |m|
  {
    hide Digit;
    if m == [] {
      ZeroDigit(k);
    } else {
      var n := |m| - 1;
      var high := FromBigEndian(m[..n]);
      if k < 8 {
        EightBits();
        LowerDigit(high, m[n], 8, k);
      } else {
        HigherDigit(FromBigEndian(m), k);
        MaskDigit(m[..n], k - 8);
      }
    }
  }

  lemma {:induction false} ZeroDigit(k: nat)
    ensures Digit(0, k) == 0
  {
    if k > 0 { ZeroDigit(k - 1); }
  }

  lemma EightBits()
    ensures Pow2(8) == 256
  {
    assert Pow2(4) == 16 && Pow2(6) == 64;
  }

  /** A mask, read as one number, has the binary digits that were asked for and no others. */
  lemma MaskNumber(bits: seq<nat>, k: nat)
    requires bits != []
    ensures Digit(FromBigEndian(DomainMask(bits)), k) == if k in bits then 1 else 0
  {
    hide HasBit, Digit, Mask, MaskLength;
    var m := DomainMask(bits);
    MaskDigit(m, k);
    DomainMaskHas(bits, k);
    if k / 8 < |m| {
      HasBitIsDigit(m[|m| - 1 - k / 8], k % 8);
    }
  }

  // ---------- The printed text ----------

  /** What is printed for a domain: two digits of the domain, two of the mask's length, and two for each byte of a
      number in which every event of the domain has its own binary digit. */
  datatype Printed = Printed(domain: nat, length: nat, number: nat)

  function Print(ps: seq<Printed>): string {
    if ps == [] then ""
    else
      var p := ps[|ps| - 1];
      Print(ps[..|ps| - 1]) + Hex.Fixed(p.domain, 2) + Hex.Fixed(p.length, 2) + Hex.Fixed(p.number, 2 * p.length)
  }

  /** The event of this domain and offset is on the list. */
  ghost predicate Listed(reg: Registry, names: seq<string>, domain: nat, offset: nat) {
    exists i :: 0 <= i < |names| && names[i] in reg && reg[names[i]].id / 256 % 256 == domain && reg[names[i]].bitOffset == offset
  }

  /** Exactly the listed events of the domain, in as few bytes as hold them. */
  ghost predicate IsPrinted(p: Printed, reg: Registry, names: seq<string>) {
    && p.domain < 256 && 1 <= p.length < 256 && p.number < Hex.Pow16(2 * p.length)
    && (forall k: nat :: Digit(p.number, k) == if Listed(reg, names, p.domain, k) then 1 else 0)
    && (forall k: nat :: Listed(reg, names, p.domain, k) ==> k < 8 * p.length)
    && exists k: nat :: 8 * (p.length - 1) <= k && Listed(reg, names, p.domain, k)
  }

  lemma ListedIsWanted(reg: Registry, names: seq<string>, domain: nat, offset: nat)
    ensures Listed(reg, names, domain, offset) <==> Wanted(reg, names, domain, offset)
  {}

  lemma {:induction false} FixedAppend(n: nat, width: nat, b: byte)
    ensures Hex.Fixed(n * 256 + b, width + 2) == Hex.Fixed(n, width) + Hex.Fixed(b, 2)
  {
    hide Hex.Digit;
    assert (n * 256 + b) / 16 == n * 16 + b / 16 && (n * 256 + b) % 16 == b % 16;
    assert (n * 16 + b / 16) / 16 == n && (n * 16 + b / 16) % 16 == b / 16;
    assert Hex.Fixed(n * 16 + b / 16, width + 1) == Hex.Fixed(n, width) + [Hex.Digit(b / 16)];
    assert Hex.Fixed(b / 16, 1) == Hex.Fixed(b / 16 / 16, 0) + [Hex.Digit(b / 16 % 16)];
  }

  lemma TwoDigitsIsFixed(b: byte)
    ensures HexBytes.TwoDigits(b) == Hex.Fixed(b, 2)
  {
    assert Hex.Pow16(1) == 16;
    Hex.PaddedIsFixed(b, 2);
  }

  lemma {:induction false} ToTextIsFixed(m: seq<byte>)
    ensures HexBytes.ToText(m) == Hex.Fixed(FromBigEndian(m), 2 * |m|) && FromBigEndian(m) < Hex.Pow16(2 * |m|)
  {
    hide HexBytes.TwoDigits, Hex.Fixed;
    if m == [] {
      NoDigits();
    } else {
      var n := |m| - 1;
      ToTextIsFixed(m[..n]);
      TwoDigitsIsFixed(m[n]);
      FixedAppend(FromBigEndian(m[..n]), 2 * n, m[n]);
      assert Hex.Pow16(2 * n + 2) == 16 * Hex.Pow16(2 * n + 1);
    }
  }

  lemma NoDigits()
    ensures Hex.Fixed(0, 0) == ""
  {}

  function Domains(reg: Registry, names: seq<string>): seq<nat> {
    Ascending(Group(reg, names).Keys, 0)
  }

  function PrintedFor(d: nat, bits: seq<nat>): Printed
    requires bits != []
  {
    Printed(d, |DomainMask(bits)|, FromBigEndian(DomainMask(bits)))
  }

  lemma DomainIsPrinted(reg: Registry, names: seq<string>, d: nat)
    requires AllSmall(Group(reg, names)) && d in Group(reg, names)
    ensures var p := PrintedFor(d, Group(reg, names)[d]);
      && IsPrinted(p, reg, names)
      && DomainText(d, Group(reg, names)[d]) == Hex.Fixed(p.domain, 2) + Hex.Fixed(p.length, 2) + Hex.Fixed(p.number, 2 * p.length)
  {
    hide Hex.Fixed, HexBytes.TwoDigits, Mask, Digit, MaxBit, Group, Listed, Wanted;
    var bits := Group(reg, names)[d];
    var p := PrintedFor(d, bits);
    ToTextIsFixed(DomainMask(bits));
    TwoDigitsIsFixed(d);
    TwoDigitsIsFixed(p.length);
    forall k: nat
      ensures Listed(reg, names, d, k) <==> k in bits
      ensures Digit(p.number, k) == if k in bits then 1 else 0
    {
      GroupHas(reg, names, d, k);
      ListedIsWanted(reg, names, d, k);
      MaskNumber(bits, k);
    }
    var top := MaxBit(bits);
    assert Listed(reg, names, d, top) && 8 * (p.length - 1) <= top;
  }

  lemma {:induction false} TextIsPrinted(reg: Registry, names: seq<string>, domains: seq<nat>) returns (ps: seq<Printed>)
    requires AllSmall(Group(reg, names)) && forall d :: d in domains ==> d in Group(reg, names)
    ensures NoneEmpty(Group(reg, names)) && TextOf(Group(reg, names), domains) == Print(ps)
    ensures |ps| == |domains| && forall i :: 0 <= i < |ps| ==> ps[i].domain == domains[i] && IsPrinted(ps[i], reg, names)
    decreases |domains|
  {
    hide Group, DomainText, DomainMask, IsPrinted, Hex.Fixed, MaskLength;
    ps := [];
    if domains != [] {
      var n := |domains| - 1;
      var d := domains[n];
      assert domains == domains[..n] + [d];
      var before := TextIsPrinted(reg, names, domains[..n]);
      DomainIsPrinted(reg, names, d);
      var p := PrintedFor(d, Group(reg, names)[d]);
      ps := before + [p];
      assert ps[..n] == before;
      TextJoin(Print(before), Hex.Fixed(p.domain, 2), Hex.Fixed(p.length, 2), Hex.Fixed(p.number, 2 * p.length));
    }
  }

  lemma TextJoin(a: string, b: string, c: string, d: string)
    ensures a + (b + c + d) == a + b + c + d
  {}

  /** The text of a list of events, for a sound table: one group for every domain with an event on the list, in
      ascending order, in which the binary digit of weight 2^k is one exactly when the event at offset k is listed. */
  lemma TextSpellsTheList(reg: Registry, names: seq<string>) returns (ps: seq<Printed>)
    requires Sound(reg)
    ensures Compute(reg, names) == Print(ps)
    ensures forall i :: 0 <= i < |ps| ==> IsPrinted(ps[i], reg, names)
    ensures forall i, j :: 0 <= i < j < |ps| ==> ps[i].domain < ps[j].domain
    ensures forall domain: nat, offset: nat :: Listed(reg, names, domain, offset) ==>
      exists i :: 0 <= i < |ps| && ps[i].domain == domain
  {
    hide Group, TextOf, Ascending, IsPrinted, Listed, AllSmall, Wanted;
    GroupIsSmall(reg, names);
    GroupShape(reg, names);
    var domains := Domains(reg, names);
    ps := TextIsPrinted(reg, names, domains);
    forall domain: nat, offset: nat | Listed(reg, names, domain, offset)
      ensures exists i :: 0 <= i < |ps| && ps[i].domain == domain
    {
      ListedIsWanted(reg, names, domain, offset);
      GroupHas(reg, names, domain, offset);
      var i :| 0 <= i < |domains| && domains[i] == domain;
      assert ps[i].domain == domain;
    }
    if names == [] { NoText(reg); }
  }

  lemma {:induction false} AscendingNone(from: nat)
    requires from <= 256
    ensures Ascending({}, from) == []
    decreases 256 - from
  {
    if from < 256 { AscendingNone(from + 1); }
  }

  lemma NoText(reg: Registry)
    ensures Domains(reg, []) == [] && Print([]) == ""
  {
    hide Ascending;
    AscendingNone(0);
    assert Group(reg, []).Keys == {};
  }

  /** The first event of domain 9 alone. */
  lemma KnownText(reg: Registry, a: string)
    requires a in reg && reg[a] == Entry(0x0901, 0)
    ensures Compute(reg, [a]) == "090101"
  {
    hide Group, Ascending, DomainText;
    GroupOfOne(reg, a);
    GroupShape(reg, [a]);
    AscendingOne(9, 0);
    var g := Group(reg, [a]);
    assert g.Keys == {9};
    assert TextOf(g, [9]) == TextOf(g, []) + DomainText(9, [0]);
    FirstBitText();
  }

  lemma FirstBitText()
    ensures DomainText(9, [0]) == "090101"
  {
    hide WithBit, HexBytes.TwoDigits;
    var mask: seq<byte> := [1];
    assert Mask([0][..0], 1) == [0];
    WithBitOne();
    assert DomainMask([0]) == mask;
    assert mask[..0] == [] && HexBytes.ToText(mask) == HexBytes.ToText([]) + HexBytes.TwoDigits(1);
    ShortDigits();
  }

  lemma WithBitOne()
    ensures WithBit(0, 0) == 1
  {
    Indices();
  }

  lemma ShortDigits()
    ensures HexBytes.TwoDigits(1) == "01" && HexBytes.TwoDigits(9) == "09"
  {
    assert Hex.ToHex(1) == "1" && Hex.ToHex(9) == "9";
    assert Hex.PadStart("1", 2) == "01" && Hex.PadStart("9", 2) == "09";
  }
}
