/** Event subscriptions as a compact mask, and the question asked of it (src/types/registry.ts). */
module EventMasks {
  import opened Bytes
  import opened MaskBits
  import Hex
  import HexBytes

  datatype Entry = Entry(id: nat, bitOffset: nat)

  /** The generated event table. */
  type Registry = map<string, Entry>

  /** (id >> 8) & 0xff */
  function Domain(e: Entry): (d: nat)
    ensures d < 256
  {
    (e.id / 256) % 256
  }

  const MAX_OFFSETS := 2040

  /** No two events of a domain share a bit, and every mask has at most 255 bytes. */
  ghost predicate Sound(reg: Registry) {
    && (forall a, b :: a in reg && b in reg && Domain(reg[a]) == Domain(reg[b]) && reg[a].bitOffset == reg[b].bitOffset ==> a == b)
    && (forall a :: a in reg ==> reg[a].bitOffset < MAX_OFFSETS)
  }

  // ---------- Building ----------

  type Grouped = map<nat, seq<nat>>

  function Add(g: Grouped, e: Entry): Grouped {
    g[Domain(e) := (if Domain(e) in g then g[Domain(e)] else []) + [e.bitOffset]]
  }

  /** The bits asked for, by domain, in the order of the names; unknown names are skipped. */
  function Group(reg: Registry, names: seq<string>): Grouped {
    if names == [] then map[]
    else
      var g := Group(reg, names[..|names| - 1]);
      var name := names[|names| - 1];
      if name in reg then Add(g, reg[name]) else g
  }

  function Max(a: nat, b: nat): nat {
    if a >= b then a else b
  }

  function MaxBit(bits: seq<nat>): (m: nat)
    requires bits != []
    ensures m in bits && forall b :: b in bits ==> b <= m
  {
    if |bits| == 1 then bits[0]
    else
      assert bits == bits[..|bits| - 1] + [bits[|bits| - 1]];
      Max(MaxBit(bits[..|bits| - 1]), bits[|bits| - 1])
  }

  /** max(1, ceil((maxBit + 1) / 8)) */
  function MaskLength(bits: seq<nat>): (n: nat)
    requires bits != []
    ensures n >= 1 && n == MaxBit(bits) / 8 + 1
  {
    Max(1, (MaxBit(bits) + 1 + 7) / 8)
  }

  /** The mask with the lowest bits in its last byte. */
  function Mask(bits: seq<nat>, length: nat): (mask: seq<byte>)
    requires forall i :: 0 <= i < |bits| ==> bits[i] / 8 < length
    ensures |mask| == length
  {
    if bits == [] then seq(length, _ => 0)
    else
      var bit := bits[|bits| - 1];
      var mask := Mask(bits[..|bits| - 1], length);
      var at := length - 1 - bit / 8;
      mask[at := WithBit(mask[at], bit % 8)]
  }

  lemma BitsFit(bits: seq<nat>)
    requires bits != []
    ensures forall i :: 0 <= i < |bits| ==> bits[i] / 8 < MaskLength(bits)
  {
    forall i | 0 <= i < |bits| ensures bits[i] / 8 < MaskLength(bits) { assert bits[i] in bits; }
  }

  function DomainMask(bits: seq<nat>): (mask: seq<byte>)
    requires bits != []
    ensures |mask| == MaskLength(bits)
  {
    BitsFit(bits);
    Mask(bits, MaskLength(bits))
  }

  function DomainText(d: nat, bits: seq<nat>): string
    requires bits != []
  {
    HexBytes.TwoDigits(d) + HexBytes.TwoDigits(MaskLength(bits)) + HexBytes.ToText(DomainMask(bits))
  }

  predicate NoneEmpty(g: Grouped) {
    forall d :: d in g ==> g[d] != []
  }

  function TextOf(g: Grouped, domains: seq<nat>): string
    requires NoneEmpty(g) && forall d :: d in domains ==> d in g
  {
    if domains == [] then ""
    else
      var d := domains[|domains| - 1];
      assert d in domains && forall x :: x in domains[..|domains| - 1] ==> x in domains;
      TextOf(g, domains[..|domains| - 1]) + DomainText(d, g[d])
  }

  /** The keys in ascending order. */
  function Ascending(keys: set<nat>, from: nat): (s: seq<nat>)
    requires from <= 256
    ensures forall d :: d in s <==> (d in keys && from <= d < 256)
    ensures forall i :: 0 <= i < |s| ==> s[i] >= from
    ensures forall i, j :: 0 <= i < j < |s| ==> s[i] < s[j]
    decreases 256 - from
  {
    if from == 256 then []
    else
      var rest := Ascending(keys, from + 1);
      if from !in keys then rest
      else
        assert forall d :: d in [from] + rest <==> d == from || d in rest;
        [from] + rest
  }

  lemma {:induction false} GroupShape(reg: Registry, names: seq<string>)
    ensures NoneEmpty(Group(reg, names)) && forall d :: d in Group(reg, names) ==> d < 256
  {
    if names != [] {
      GroupShape(reg, names[..|names| - 1]);
      var g := Group(reg, names[..|names| - 1]);
      var name := names[|names| - 1];
      if name in reg {
        forall d | d in Add(g, reg[name]) ensures Add(g, reg[name])[d] != [] && d < 256 {
          assert d == Domain(reg[name]) || d in g;
        }
      }
    }
  }

  function Compute(reg: Registry, names: seq<string>): string {
    if names == [] then ""
    else
      GroupShape(reg, names);
      var g := Group(reg, names);
      TextOf(g, Ascending(g.Keys, 0))
  }

  // ---------- Asking ----------

  /** (mask[mask.length - 1 - byteIndex] ?? 0) & (1 << bitIndex) */
  predicate TestMask(mask: seq<byte>, bit: nat) {
    bit / 8 < |mask| && HasBit(mask[|mask| - 1 - bit / 8], bit % 8)
  }

  function Slice(b: seq<byte>, from: nat, length: nat): seq<byte> {
    if from >= |b| then [] else if from + length >= |b| then b[from..] else b[from..from + length]
  }

  predicate Scan(b: seq<byte>, d: nat, bit: nat)
    decreases |b|
  {
    if |b| <= 2 then false
    else
      var mask := Slice(b, 2, b[1]);
      if b[0] == d then TestMask(mask, bit)
      else if 2 + b[1] >= |b| then false
      else Scan(b[2 + b[1]..], d, bit)
  }

  /** isEventSubscribed; None stands for the error thrown on malformed text. */
  function Subscribed(reg: Registry, name: string, masks: string): Option<bool> {
    if masks == "" then Some(false)
    else
      var bytes := HexBytes.ToBytes(masks);
      if bytes == None then None
      else if name !in reg then Some(false)
      else Some(Scan(bytes.value, Domain(reg[name]), reg[name].bitOffset))
  }

  // ---------- What grouping and masking keep ----------

  /** Some name on the list stands for this bit of this domain. */
  ghost predicate Wanted(reg: Registry, names: seq<string>, d: nat, bit: nat) {
    exists i :: 0 <= i < |names| && names[i] in reg && Domain(reg[names[i]]) == d && reg[names[i]].bitOffset == bit
  }

  predicate InGroup(g: Grouped, d: nat, bit: nat) {
    d in g && bit in g[d]
  }

  lemma AddHas(g: Grouped, e: Entry, d: nat, bit: nat)
    ensures InGroup(Add(g, e), d, bit) <==> InGroup(g, d, bit) || (d == Domain(e) && bit == e.bitOffset)
  {}

  lemma WantedSnoc(reg: Registry, names: seq<string>, name: string, d: nat, bit: nat)
    ensures Wanted(reg, names + [name], d, bit) <==>
      Wanted(reg, names, d, bit) || (name in reg && Domain(reg[name]) == d && reg[name].bitOffset == bit)
  {
    var all := names + [name];
    if i :| 0 <= i < |names| && names[i] in reg && Domain(reg[names[i]]) == d && reg[names[i]].bitOffset == bit {
      assert all[i] == names[i];
    }
    assert all[|names|] == name;
  }

  lemma {:induction false} GroupHas(reg: Registry, names: seq<string>, d: nat, bit: nat)
    ensures InGroup(Group(reg, names), d, bit) <==> Wanted(reg, names, d, bit)
  {
    hide Wanted, InGroup, Add, Domain;
    if names == [] {
      assert !InGroup(map[], d, bit) && !Wanted(reg, [], d, bit) by { NothingWanted(reg, d, bit); }
    } else {
      var n := |names| - 1;
      GroupHas(reg, names[..n], d, bit);
      WantedSnoc(reg, names[..n], names[n], d, bit);
      assert names == names[..n] + [names[n]];
      if names[n] in reg { AddHas(Group(reg, names[..n]), reg[names[n]], d, bit); }
    }
  }

  lemma NothingWanted(reg: Registry, d: nat, bit: nat)
    ensures !InGroup(map[], d, bit) && !Wanted(reg, [], d, bit)
  {}

  lemma {:induction false} EmptyMask(length: nat, bit: nat)
    ensures !TestMask(seq(length, _ => 0), bit)
  {
    hide HasBit;
    ZeroHasNone(bit % 8);
  }

  /** A bit of the mask is set exactly when it was asked for. */
  lemma {:induction false} MaskHas(bits: seq<nat>, length: nat, bit: nat)
    requires forall i :: 0 <= i < |bits| ==> bits[i] / 8 < length
    requires bit / 8 < length
    ensures TestMask(Mask(bits, length), bit) <==> bit in bits
  {
    hide HasBit, WithBit;
    if bits == [] {
      EmptyMask(length, bit);
    } else {
      var n := |bits| - 1;
      var last := bits[n];
      MaskHas(bits[..n], length, bit);
      assert bits == bits[..n] + [last];
      var mask := Mask(bits[..n], length);
      var at := length - 1 - last / 8;
      if bit / 8 == last / 8 {
        WithBitSets(mask[at], last % 8, bit % 8);
      }
    }
  }

  lemma DomainMaskHas(bits: seq<nat>, bit: nat)
    requires bits != []
    ensures TestMask(DomainMask(bits), bit) <==> bit in bits
  {
    hide HasBit, Mask;
    BitsFit(bits);
    if bit / 8 < MaskLength(bits) {
      MaskHas(bits, MaskLength(bits), bit);
    } else {
      assert bit !in bits;
    }
  }

  // ---------- What the text keeps ----------

  predicate Small(bits: seq<nat>) {
    bits != [] && MaskLength(bits) < 256
  }

  function DomainBytes(d: nat, bits: seq<nat>): seq<byte>
    requires d < 256 && Small(bits)
  {
    [d, MaskLength(bits)] + DomainMask(bits)
  }

  predicate AllSmall(g: Grouped) {
    forall d :: d in g ==> d < 256 && Small(g[d])
  }

  function BytesOf(g: Grouped, domains: seq<nat>): seq<byte>
    requires AllSmall(g) && forall i :: 0 <= i < |domains| ==> domains[i] in g
  {
    if domains == [] then [] else DomainBytes(domains[0], g[domains[0]]) + BytesOf(g, domains[1..])
  }

  lemma DomainTextIs(d: nat, bits: seq<nat>)
    requires d < 256 && Small(bits)
    ensures DomainText(d, bits) == HexBytes.ToText(DomainBytes(d, bits))
  {
    hide HexBytes.TwoDigits, Mask, DomainMask;
    var head: seq<byte> := [d, MaskLength(bits)];
    HexBytes.ToTextAppend(head, DomainMask(bits));
    assert head[..1] == [d] && head[..1][..0] == [];
    assert HexBytes.ToText([d]) == HexBytes.ToText([]) + HexBytes.TwoDigits(d);
    assert HexBytes.ToText(head) == HexBytes.ToText([d]) + HexBytes.TwoDigits(MaskLength(bits));
  }

  lemma {:induction false} BytesOfSnoc(g: Grouped, domains: seq<nat>, d: nat)
    requires AllSmall(g) && d in g && forall i :: 0 <= i < |domains| ==> domains[i] in g
    ensures BytesOf(g, domains + [d]) == BytesOf(g, domains) + DomainBytes(d, g[d])
    decreases |domains|
  {
    hide DomainBytes, Small;
    if domains == [] {
      assert domains + [d] == [d] && [d][1..] == [];
      assert BytesOf(g, [d]) == DomainBytes(d, g[d]) + BytesOf(g, []);
    } else {
      assert (domains + [d])[1..] == domains[1..] + [d];
      BytesOfSnoc(g, domains[1..], d);
    }
  }

  lemma {:induction false} TextIs(g: Grouped, domains: seq<nat>)
    requires AllSmall(g) && NoneEmpty(g) && forall d :: d in domains ==> d in g
    ensures forall i :: 0 <= i < |domains| ==> domains[i] in g
    ensures TextOf(g, domains) == HexBytes.ToText(BytesOf(g, domains))
    decreases |domains|
  {
    hide DomainBytes, DomainText, Small;
    if domains != [] {
      var n := |domains| - 1;
      var d := domains[n];
      assert domains == domains[..n] + [d];
      TextIs(g, domains[..n]);
      assert Small(g[d]);
      DomainTextIs(d, g[d]);
      HexBytes.ToTextAppend(BytesOf(g, domains[..n]), DomainBytes(d, g[d]));
      BytesOfSnoc(g, domains[..n], d);
    }
  }

  // ---------- What the question finds ----------

  lemma ScanDomain(d0: nat, bits: seq<nat>, rest: seq<byte>, d: nat, bit: nat)
    requires d0 < 256 && Small(bits)
    ensures Scan(DomainBytes(d0, bits) + rest, d, bit) <==> if d0 == d then bit in bits else Scan(rest, d, bit)
  {
    hide TestMask, Mask, DomainMask, MaskLength;
    var b := DomainBytes(d0, bits) + rest;
    var mask := DomainMask(bits);
    assert b[0] == d0 && b[1] == |mask|;
    assert b[2..2 + |mask|] == mask && b[2 + |mask|..] == rest;
    assert Slice(b, 2, b[1]) == mask;
    DomainMaskHas(bits, bit);
  }

  lemma {:induction false} ScanFinds(g: Grouped, domains: seq<nat>, d: nat, bit: nat)
    requires AllSmall(g) && forall i :: 0 <= i < |domains| ==> domains[i] in g
    requires forall i, j :: 0 <= i < j < |domains| ==> domains[i] < domains[j]
    ensures Scan(BytesOf(g, domains), d, bit) <==> d in domains && InGroup(g, d, bit)
    decreases |domains|
  {
    hide DomainBytes, Small;
    if domains != [] {
      ScanDomain(domains[0], g[domains[0]], BytesOf(g, domains[1..]), d, bit);
      ScanFinds(g, domains[1..], d, bit);
      assert d in domains <==> d == domains[0] || d in domains[1..];
      assert forall j :: 0 <= j < |domains[1..]| ==> domains[1..][j] == domains[j + 1] > domains[0];
    }
  }

  lemma GroupIsSmall(reg: Registry, names: seq<string>)
    requires Sound(reg)
    ensures AllSmall(Group(reg, names))
  {
    hide MaxBit, Group, Domain;
    GroupShape(reg, names);
    var g := Group(reg, names);
    forall d | d in g ensures d < 256 && Small(g[d]) {
      var m := MaxBit(g[d]);
      GroupHas(reg, names, d, m);
    }
  }

  /** The text of a list and the bytes it stands for. */
  lemma ComputeBytes(reg: Registry, names: seq<string>)
    requires AllSmall(Group(reg, names))
    ensures var g := Group(reg, names); var domains := Ascending(g.Keys, 0);
      && (forall i :: 0 <= i < |domains| ==> domains[i] in g)
      && Compute(reg, names) == HexBytes.ToText(BytesOf(g, domains))
      && HexBytes.ToBytes(Compute(reg, names)) == Some(BytesOf(g, domains))
  {
    hide AllSmall, HexBytes.ToText, HexBytes.ToBytes, Ascending;
    GroupShape(reg, names);
    var g := Group(reg, names);
    var domains := Ascending(g.Keys, 0);
    TextIs(g, domains);
    HexBytes.TextRoundTrip(BytesOf(g, domains));
    if names == [] {
      assert domains == [];
      EmptyText();
    }
  }

  lemma EmptyText()
    ensures HexBytes.ToText([]) == ""
  {}

  /** Exactness: the mask of a list answers, for every name, whether that name is a known event on the list. */
  lemma MaskAnswersExactly(reg: Registry, names: seq<string>, name: string)
    requires Sound(reg)
    ensures Subscribed(reg, name, Compute(reg, names)) == Some(name in reg && name in names)
  {
    hide Compute, Scan, HexBytes.ToBytes, HexBytes.ToText, AllSmall, Group, BytesOf, Domain;
    GroupIsSmall(reg, names);
    ComputeBytes(reg, names);
    var g := Group(reg, names);
    var domains := Ascending(g.Keys, 0);
    if name in reg {
      var d, bit := Domain(reg[name]), reg[name].bitOffset;
      ScanFinds(g, domains, d, bit);
      assert d in domains <==> d in g;
      GroupHas(reg, names, d, bit);
      assert Wanted(reg, names, d, bit) <==> name in names;
      if Compute(reg, names) == "" {
        HexBytes.TextOf(BytesOf(g, domains));
        ScanOfNothing(d, bit);
        assert BytesOf(g, domains) == [];
      }
    }
  }

  lemma ScanOfNothing(d: nat, bit: nat)
    ensures !Scan([], d, bit)
  {}

  // ---------- Why a table must be sound ----------

  lemma GroupOfOne(reg: Registry, a: string)
    requires a in reg
    ensures Group(reg, [a]) == map[Domain(reg[a]) := [reg[a].bitOffset]]
  {
    assert [a][..0] == [];
    assert Group(reg, []) == map[];
    assert Group(reg, [a]) == Add(map[], reg[a]);
    assert [] + [reg[a].bitOffset] == [reg[a].bitOffset];
  }

  lemma {:induction false} AscendingOne(d: nat, from: nat)
    requires from <= d < 256
    ensures Ascending({d}, from) == [d]
    decreases d - from
  {
    if from == d {
      assert Ascending({d}, from + 1) == [] by {
        if Ascending({d}, from + 1) != [] { assert Ascending({d}, from + 1)[0] in Ascending({d}, from + 1); }
      }
    } else {
      AscendingOne(d, from + 1);
    }
  }

  /** Two events on one bit: subscribing to one answers yes for the other. */
  lemma SharedBitFools(reg: Registry, a: string, b: string)
    requires a in reg && b in reg && Domain(reg[a]) == Domain(reg[b]) && reg[a].bitOffset == reg[b].bitOffset
    requires reg[a].bitOffset < MAX_OFFSETS
    ensures Subscribed(reg, b, Compute(reg, [a])) == Some(true)
  {
    hide Compute, Scan, HexBytes.ToBytes, HexBytes.ToText, Group, BytesOf, Domain, Ascending;
    GroupOfOne(reg, a);
    var d, bit := Domain(reg[a]), reg[a].bitOffset;
    var g := Group(reg, [a]);
    assert AllSmall(g);
    ComputeBytes(reg, [a]);
    AscendingOne(d, 0);
    assert g.Keys == {d};
    ScanFinds(g, [d], d, bit);
    ScanOfNothing(d, bit);
    HexBytes.TextOf(BytesOf(g, [d]));
  }

  /** A mask of more than 255 bytes cannot be written with two digits: the question throws or answers no. */
  lemma LargeOffsetLost(reg: Registry, a: string)
    requires a in reg && reg[a].bitOffset >= MAX_OFFSETS
    ensures Subscribed(reg, a, Compute(reg, [a])) != Some(true)
  {
    hide Scan, HexBytes.ToText, HexBytes.ToBytes, Group, Domain, Ascending, DomainText, HexBytes.TwoDigits;
    GroupOfOne(reg, a);
    var d, bit := Domain(reg[a]), reg[a].bitOffset;
    var g := Group(reg, [a]);
    assert g.Keys == {d};
    AscendingOne(d, 0);
    assert TextOf(g, [d]) == TextOf(g, []) + DomainText(d, [bit]);
    assert Compute(reg, [a]) == DomainText(d, [bit]);
    FirstByte(d, [bit]);
    var bytes := HexBytes.ToBytes(DomainText(d, [bit]));
    if bytes.Some? { ShortMask(bytes.value, d, bit); }
  }

  lemma FirstByte(d: nat, bits: seq<nat>)
    requires d < 256 && bits != []
    ensures var bytes := HexBytes.ToBytes(DomainText(d, bits));
      bytes.Some? ==> |bytes.value| > 2 && bytes.value[0] == d
    ensures DomainText(d, bits) != ""
  {
    hide HexBytes.TwoDigits, HexBytes.ToText, HexBytes.PairValue, Mask, MaxBit, DomainMask, HexBytes.AllDigits;
    var text := DomainText(d, bits);
    HexBytes.TextOf(DomainMask(bits));
    HexBytes.TwoDigitsOfByte(d);
    AllDigits3(HexBytes.TwoDigits(d), HexBytes.TwoDigits(MaskLength(bits)), HexBytes.ToText(DomainMask(bits)), d, MaskLength(bits));
    HexBytes.StripDigits(text);
    if |text| % 2 == 0 {
      HexBytes.PairsAt(text, 0);
      assert text[0] == HexBytes.TwoDigits(d)[0] && text[1] == HexBytes.TwoDigits(d)[1];
    }
  }

  lemma AllDigits3(a: string, b: string, c: string, x: nat, y: nat)
    requires a == HexBytes.TwoDigits(x) && b == HexBytes.TwoDigits(y) && HexBytes.AllDigits(c)
    ensures HexBytes.AllDigits(a + b + c)
  {
    hide HexBytes.TwoDigits, Hex.DigitValue;
    HexBytes.TwoDigitsDigits(x);
    HexBytes.TwoDigitsDigits(y);
  }

  lemma ShortMask(b: seq<byte>, d: nat, bit: nat)
    requires |b| > 2 && b[0] == d && bit >= MAX_OFFSETS
    ensures !Scan(b, d, bit)
  {
    hide HasBit;
  }

  /** So the masks of a table answer exactly, for every list and every name, if and only if the table is sound. */
  lemma ExactIffSound(reg: Registry)
    ensures (forall names, name :: Subscribed(reg, name, Compute(reg, names)) == Some(name in reg && name in names)) <==> Sound(reg)
  {
    hide Compute, Subscribed, Domain;
    if Sound(reg) {
      forall names, name ensures Subscribed(reg, name, Compute(reg, names)) == Some(name in reg && name in names) {
        MaskAnswersExactly(reg, names, name);
      }
    } else if a :| a in reg && reg[a].bitOffset >= MAX_OFFSETS {
      LargeOffsetLost(reg, a);
      assert a in [a];
    } else {
      var a, b :| a in reg && b in reg && a != b && Domain(reg[a]) == Domain(reg[b]) && reg[a].bitOffset == reg[b].bitOffset;
      SharedBitFools(reg, a, b);
      assert b !in [a];
    }
  }

  // ---------- The loops ----------

  method ComputeEventMasks(reg: Registry, names: seq<string>) returns (text: string)
    ensures text == Compute(reg, names)
  {
    hide Add, Domain, TextOf, Ascending, DomainText;
    if names == [] { return ""; }
    var byDomain: Grouped := map[];
    for n := 0 to |names|
      invariant byDomain == Group(reg, names[..n])
    {
      assert names[..n + 1][..n] == names[..n];
      if names[n] in reg {
        var entry := reg[names[n]];
        var bits := if Domain(entry) in byDomain then byDomain[Domain(entry)] else [];
        byDomain := Put(byDomain, entry, bits);
      }
    }
    assert names[..|names|] == names;
    GroupShape(reg, names);
    var domains := Ascending(byDomain.Keys, 0);
    text := "";
    assert text == TextOf(byDomain, domains[..0]) by { TextOfNone(byDomain); }
    for n := 0 to |domains|
      invariant text == TextOf(byDomain, domains[..n])
    {
      var d := domains[n];
      assert d in domains && domains[..n + 1][..n] == domains[..n];
      assert TextOf(byDomain, domains[..n + 1]) == TextOf(byDomain, domains[..n]) + DomainText(d, byDomain[d]) by {
        TextOfOneMore(byDomain, domains[..n + 1]);
      }
      var part := WriteDomain(d, byDomain[d]);
      text := text + part;
    }
    assert domains[..|domains|] == domains;
  }

  function Put(g: Grouped, e: Entry, bits: seq<nat>): (r: Grouped)
    requires bits == if Domain(e) in g then g[Domain(e)] else []
    ensures r == Add(g, e)
  {
    g[Domain(e) := bits + [e.bitOffset]]
  }

  lemma TextOfNone(g: Grouped)
    requires NoneEmpty(g)
    ensures TextOf(g, []) == ""
  {}

  lemma TextOfOneMore(g: Grouped, domains: seq<nat>)
    requires NoneEmpty(g) && domains != [] && forall d :: d in domains ==> d in g
    ensures var n := |domains| - 1;
      && (forall d :: d in domains[..n] ==> d in g) && domains[n] in domains
      && TextOf(g, domains) == TextOf(g, domains[..n]) + DomainText(domains[n], g[domains[n]])
  {
    hide DomainText;
  }

  method WriteDomain(d: nat, bits: seq<nat>) returns (text: string)
    requires bits != []
    ensures text == DomainText(d, bits)
  {
    hide HexBytes.TwoDigits, Mask, MaxBit;
    BitsFit(bits);
    var maskLen := Max(1, (MaxBit(bits) + 1 + 7) / 8);
    var mask := FillMask(bits, maskLen);
    text := HexBytes.TwoDigits(d) + HexBytes.TwoDigits(maskLen);
    ghost var start := text;
    for n := 0 to mask.Length
      invariant text == start + HexBytes.ToText(mask[..n])
    {
      assert mask[..n + 1][..n] == mask[..n];
      text := text + HexBytes.TwoDigits(mask[n]);
    }
    assert mask[..mask.Length] == mask[..];
  }

  method FillMask(bits: seq<nat>, maskLen: nat) returns (mask: array<byte>)
    requires forall i :: 0 <= i < |bits| ==> bits[i] / 8 < maskLen
    ensures fresh(mask) && mask[..] == Mask(bits, maskLen)
  {
    hide WithBit;
    mask := new byte[maskLen](_ => 0);
    assert mask[..] == Mask(bits[..0], maskLen);
    for n := 0 to |bits|
      invariant mask[..] == Mask(bits[..n], maskLen)
    {
      assert bits[..n + 1][..n] == bits[..n];
      var byteIndex := bits[n] / 8;
      mask[maskLen - 1 - byteIndex] := WithBit(mask[maskLen - 1 - byteIndex], bits[n] % 8);
    }
    assert bits[..|bits|] == bits;
  }

  method IsEventSubscribed(reg: Registry, name: string, masks: string) returns (r: Option<bool>)
    ensures r == Subscribed(reg, name, masks)
  {
    hide TestMask, Domain, HexBytes.ToBytes;
    if masks == "" { return Some(false); }
    var decoded := HexBytes.HexToBytes(masks);
    if decoded == None { return None; }
    if name !in reg { return Some(false); }
    var bytes := decoded.value;
    var d, bit := Domain(reg[name]), reg[name].bitOffset;
    var i := 0;
    while i + 2 < |bytes|
      invariant Scan(bytes, d, bit) == if i <= |bytes| then Scan(bytes[i..], d, bit) else false
      decreases |bytes| - i
    {
      var rest := bytes[i..];
      var dom := bytes[i];
      var maskLen := bytes[i + 1];
      i := i + 2;
      var mask := Slice(bytes, i, maskLen);
      assert mask == Slice(rest, 2, maskLen);
      i := i + maskLen;
      if dom == d { return Some(TestMask(mask, bit)); }
      if i < |bytes| { assert rest[2 + maskLen..] == bytes[i..]; }
    }
    r := Some(false);
  }
}
