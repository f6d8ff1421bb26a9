/** The generator's checks that make event masks sound (devtools/generators/src/validator.ts,
    devtools/generators/src/domainRegistry.ts). */
module Validator {
  import opened Bytes
  import M = EventMasks

  /** A method or event of the specification; None stands for a bit offset that is not an integer. */
  datatype Item = Item(id: nat, name: string, domain: string, bitOffset: Option<int>)

  /** A declared range; None stands for a high byte that is not an integer. */
  datatype Range = Range(highByte: Option<int>, domain: string)

  datatype Failure = Failure(code: int, entry: string)

  const DUPLICATE := 1002
  const INVALID := 1004

  // ---------- Duplicate detection ----------

  datatype Keyed<K> = Keyed(key: K, name: string)

  /** The name under which each key was last seen. */
  function Seen<K(==)>(items: seq<Keyed<K>>): map<K, string> {
    if items == [] then map[] else Seen(items[..|items| - 1])[items[|items| - 1].key := items[|items| - 1].name]
  }

  /** The check `if (existing)`: a name that is the empty string does not count. */
  predicate Clash<K(==)>(items: seq<Keyed<K>>, n: nat)
    requires n < |items|
  {
    var seen := Seen(items[..n]);
    items[n].key in seen && seen[items[n].key] != ""
  }

  ghost predicate NoClash<K>(items: seq<Keyed<K>>) {
    forall n :: 0 <= n < |items| ==> !Clash(items, n)
  }

  ghost predicate Distinct<K(!new)>(items: seq<Keyed<K>>) {
    forall i, j :: 0 <= i < j < |items| ==> items[i].key != items[j].key
  }

  ghost predicate Named<K(!new)>(items: seq<Keyed<K>>) {
    forall i :: 0 <= i < |items| ==> items[i].name != ""
  }

  lemma {:induction false} SeenIs<K(!new)>(items: seq<Keyed<K>>, k: K)
    ensures k in Seen(items) <==> exists i :: 0 <= i < |items| && items[i].key == k
    ensures k in Seen(items) ==> exists i :: 0 <= i < |items| && items[i].key == k && items[i].name == Seen(items)[k]
  {
    if items != [] {
      var n := |items| - 1;
      SeenIs(items[..n], k);
      if k == items[n].key {
        assert items[n].key == k && items[n].name == Seen(items)[k];
      } else if k in Seen(items) {
        var i :| 0 <= i < n && items[..n][i].key == k && items[..n][i].name == Seen(items[..n])[k];
        assert items[i].key == k && items[i].name == Seen(items)[k];
      }
    }
  }

  /** When no name is empty, the check passes exactly the lists without a repeated key. */
  lemma NoClashIff<K(!new)>(items: seq<Keyed<K>>)
    requires Named(items)
    ensures NoClash(items) <==> Distinct(items)
  {
    forall n | 0 <= n < |items| ensures Clash(items, n) <==> exists i :: 0 <= i < n && items[i].key == items[n].key {
      SeenIs(items[..n], items[n].key);
      if i :| 0 <= i < n && items[i].key == items[n].key { assert items[..n][i].key == items[n].key; }
    }
  }

  /** The last item before n with a key. */
  ghost predicate LastBefore<K(!new)>(items: seq<Keyed<K>>, i: nat, n: nat, k: K)
    requires n <= |items|
  {
    i < n && items[i].key == k && forall j :: i < j < n ==> items[j].key != k
  }

  /** In general it passes a repeated key exactly when the item that bore it last has an empty name. */
  lemma ClashIff<K(!new)>(items: seq<Keyed<K>>, n: nat)
    requires n < |items|
    ensures Clash(items, n) <==> exists i: nat :: LastBefore(items, i, n, items[n].key) && items[i].name != ""
  {
    SeenLast(items, n, items[n].key);
  }

  lemma {:induction false} SeenLast<K(!new)>(items: seq<Keyed<K>>, n: nat, k: K)
    requires n <= |items|
    ensures k in Seen(items[..n]) <==> exists i: nat :: LastBefore(items, i, n, k)
    ensures forall i: nat :: LastBefore(items, i, n, k) ==> k in Seen(items[..n]) && Seen(items[..n])[k] == items[i].name
    decreases n
  {
    if n > 0 {
      var m := n - 1;
      SeenLast(items, m, k);
      assert items[..n][..m] == items[..m];
      if k == items[m].key {
        assert LastBefore(items, m, n, k);
      } else {
        forall i: nat ensures LastBefore(items, i, n, k) <==> LastBefore(items, i, m, k) {
          LastBeforeShorter(items, i, n, k);
        }
        if i: nat :| LastBefore(items, i, m, k) { assert LastBefore(items, i, n, k); }
        if i: nat :| LastBefore(items, i, n, k) { assert LastBefore(items, i, m, k); }
      }
    }
  }

  lemma LastBeforeShorter<K(!new)>(items: seq<Keyed<K>>, i: nat, n: nat, k: K)
    requires 0 < n <= |items| && items[n - 1].key != k
    ensures LastBefore(items, i, n, k) <==> LastBefore(items, i, n - 1, k)
  {
    if LastBefore(items, i, n - 1, k) {
      forall j | i < j < n ensures items[j].key != k {
        assert j == n - 1 || i < j < n - 1;
      }
    }
  }

  function Ids(items: seq<Item>): (r: seq<Keyed<nat>>)
    ensures |r| == |items|
  {
    seq(|items|, i requires 0 <= i < |items| => Keyed(items[i].id, items[i].name))
  }

  ghost predicate UniqueNames(items: seq<Item>) {
    forall i, j :: 0 <= i < j < |items| ==> items[i].name != items[j].name
  }

  method AssertUniqueIds(items: seq<Item>) returns (failure: Option<Failure>)
    ensures failure == None <==> NoClash(Ids(items))
    ensures failure.Some? ==> exists n :: 0 <= n < |items| && Clash(Ids(items), n) && failure.value == Failure(DUPLICATE, items[n].name)
  {
    hide Clash;
    var seen: map<nat, string> := map[];
    ghost var keyed := Ids(items);
    assert keyed[..0] == [];
    for n := 0 to |items|
      invariant seen == Seen(keyed[..n])
      invariant forall k :: 0 <= k < n ==> !Clash(keyed, k)
    {
      var item := items[n];
      ClashMeans(keyed, n);
      if item.id in seen && seen[item.id] != "" {
        return Some(Failure(DUPLICATE, item.name));
      }
      assert keyed[..n + 1][..n] == keyed[..n];
      seen := seen[item.id := item.name];
    }
    return None;
  }

  lemma ClashMeans<K>(items: seq<Keyed<K>>, n: nat)
    requires n < |items|
    ensures Clash(items, n) <==> items[n].key in Seen(items[..n]) && Seen(items[..n])[items[n].key] != ""
  {}

  ghost predicate Repeated(items: seq<Item>, name: string) {
    exists i, j :: 0 <= i < j < |items| && items[i].name == items[j].name == name
  }

  method AssertUniqueNames(items: seq<Item>) returns (failure: Option<Failure>)
    ensures failure == None <==> UniqueNames(items)
    ensures failure.Some? ==> failure.value.code == DUPLICATE && Repeated(items, failure.value.entry)
  {
    var seen: set<string> := {};
    for n := 0 to |items|
      invariant forall s :: s in seen <==> exists i :: 0 <= i < n && items[i].name == s
      invariant forall i, j :: 0 <= i < j < n ==> items[i].name != items[j].name
    {
      if items[n].name in seen {
        return Some(Failure(DUPLICATE, items[n].name));
      }
      assert forall i :: 0 <= i < n ==> items[i].name != items[n].name;
      seen := seen + {items[n].name};
    }
    return None;
  }

  // ---------- Bit offsets, domain by domain ----------

  predicate IsOffset(o: Option<int>) {
    o.Some? && o.value >= 0
  }

  function OffsetOf(item: Item): Keyed<nat> {
    Keyed(if IsOffset(item.bitOffset) then item.bitOffset.value else 0, item.name)
  }

  /** The items of one domain, by offset, in the order of the list. */
  function BitsOf(items: seq<Item>, domain: string): seq<Keyed<nat>> {
    if items == [] then []
    else
      var before := BitsOf(items[..|items| - 1], domain);
      var last := items[|items| - 1];
      if last.domain == domain then before + [OffsetOf(last)] else before
  }

  ghost predicate Contiguous(keys: set<nat>) {
    forall k: nat :: k in keys <==> k < |keys|
  }

  ghost predicate OffsetsOk(items: seq<Item>) {
    && (forall i :: 0 <= i < |items| ==> IsOffset(items[i].bitOffset))
    && (forall i :: 0 <= i < |items| ==> DomainOk(BitsOf(items, items[i].domain)))
  }

  ghost predicate DomainOk(bits: seq<Keyed<nat>>) {
    NoClash(bits) && Contiguous(Seen(bits).Keys)
  }

  /** Array.prototype.sort on numbers, as repeated choice of the smallest. */
  method SortAscending(keys: set<nat>) returns (s: seq<nat>)
    ensures |s| == |keys| && forall k :: k in s <==> k in keys
    ensures forall i, j :: 0 <= i < j < |s| ==> s[i] < s[j]
  {
    s := [];
    var rest := keys;
    while rest != {}
      invariant rest <= keys && |s| + |rest| == |keys|
      invariant forall k :: k in s <==> k in keys && k !in rest
      invariant forall i, j :: 0 <= i < j < |s| ==> s[i] < s[j]
      invariant forall i, k :: 0 <= i < |s| && k in rest ==> s[i] < k
      decreases |rest|
    {
      var least := Least(rest);
      rest := rest - {least};
      s := s + [least];
    }
  }

  method Least(keys: set<nat>) returns (least: nat)
    requires keys != {}
    ensures least in keys && forall k :: k in keys ==> least <= k
  {
    least :| least in keys;
    var rest := keys - {least};
    while rest != {}
      invariant rest <= keys && least in keys
      invariant forall k :: k in keys && k !in rest ==> least <= k
      decreases |rest|
    {
      var k :| k in rest;
      if k < least { least := k; }
      rest := rest - {k};
    }
  }

  predicate AllAtOwnIndex(s: seq<nat>, n: nat)
    requires n <= |s|
  {
    forall i :: 0 <= i < n ==> s[i] == i
  }

  /** Sorted keys stand at their own indices exactly when they are contiguous from zero. */
  lemma AtOwnIndexIff(keys: set<nat>, s: seq<nat>)
    requires |s| == |keys| && forall k :: k in s <==> k in keys
    requires forall i, j :: 0 <= i < j < |s| ==> s[i] < s[j]
    ensures AllAtOwnIndex(s, |s|) <==> Contiguous(keys)
  {
    if AllAtOwnIndex(s, |s|) {
      forall k: nat ensures k in keys <==> k < |keys| {
        if k < |s| { assert s[k] == k; }
      }
    } else if Contiguous(keys) {
      ContiguousAtOwnIndex(keys, s, |s|);
    }
  }

  lemma {:induction false} ContiguousAtOwnIndex(keys: set<nat>, s: seq<nat>, n: nat)
    requires n <= |s| == |keys| && Contiguous(keys) && forall k :: k in s <==> k in keys
    requires forall i, j :: 0 <= i < j < |s| ==> s[i] < s[j]
    ensures AllAtOwnIndex(s, n)
  {
    if n > 0 {
      var i := n - 1;
      ContiguousAtOwnIndex(keys, s, i);
      assert s[i] in s && i in keys;
      if i > 0 { assert s[i - 1] == i - 1; }
      var j :| 0 <= j < |s| && s[j] == i;
      assert j >= i;
    }
  }

  method AssertDomainBitOffsets(items: seq<Item>) returns (failure: Option<Failure>)
    ensures failure == None <==> OffsetsOk(items)
  {
    hide DomainOk, IsOffset, BitsOf, IsGrouped;
    var byDomain;
    failure, byDomain := GroupByDomain(items);
    if failure.Some? { return; }
    GroupedMeans(items, byDomain);
    var domains := byDomain.Keys;
    while domains != {}
      invariant domains <= byDomain.Keys
      invariant forall d :: d in byDomain && d !in domains ==> DomainOk(byDomain[d])
      decreases |domains|
    {
      var domain :| domain in domains;
      failure := CheckDomain(domain, byDomain[domain]);
      if failure.Some? { return; }
      domains := domains - {domain};
    }
    return None;
  }

  type ByDomain = map<string, seq<Keyed<nat>>>

  ghost predicate IsGrouped(items: seq<Item>, n: nat, byDomain: ByDomain)
    requires n <= |items|
  {
    forall d :: (d in byDomain <==> exists i :: 0 <= i < n && items[i].domain == d)
      && (d in byDomain ==> byDomain[d] == BitsOf(items[..n], d))
  }

  lemma GroupedMeans(items: seq<Item>, byDomain: ByDomain)
    requires IsGrouped(items, |items|, byDomain)
    ensures (forall i :: 0 <= i < |items| ==> DomainOk(BitsOf(items, items[i].domain))) <==>
            (forall d :: d in byDomain ==> DomainOk(byDomain[d]))
  {
    hide DomainOk, BitsOf;
    assert items[..|items|] == items;
    forall i | 0 <= i < |items| ensures items[i].domain in byDomain && byDomain[items[i].domain] == BitsOf(items, items[i].domain) {}
    forall d | d in byDomain ensures exists i :: 0 <= i < |items| && items[i].domain == d && byDomain[d] == BitsOf(items, items[i].domain) {
      var i :| 0 <= i < |items| && items[i].domain == d;
    }
  }

  lemma {:induction false} NoBits(items: seq<Item>, d: string)
    requires forall i :: 0 <= i < |items| ==> items[i].domain != d
    ensures BitsOf(items, d) == []
  {
    if items != [] { NoBits(items[..|items| - 1], d); }
  }

  lemma GroupedStep(items: seq<Item>, n: nat, byDomain: ByDomain)
    requires n < |items| && IsGrouped(items, n, byDomain)
    ensures var d := items[n].domain; var list := if d in byDomain then byDomain[d] else [];
      IsGrouped(items, n + 1, byDomain[d := list + [OffsetOf(items[n])]])
  {
    assert items[..n + 1][..n] == items[..n];
    var d := items[n].domain;
    if d !in byDomain { NoBits(items[..n], d); }
    var list := if d in byDomain then byDomain[d] else [];
    var next := byDomain[d := list + [OffsetOf(items[n])]];
    forall x ensures (x in next <==> exists i :: 0 <= i < n + 1 && items[i].domain == x)
      && (x in next ==> next[x] == BitsOf(items[..n + 1], x))
    {
      if x == d { assert items[n].domain == x; }
    }
  }

  method GroupByDomain(items: seq<Item>) returns (failure: Option<Failure>, byDomain: ByDomain)
    ensures failure == None <==> forall i :: 0 <= i < |items| ==> IsOffset(items[i].bitOffset)
    ensures failure == None ==> IsGrouped(items, |items|, byDomain)
  {
    hide IsOffset, IsGrouped, OffsetOf;
    byDomain := map[];
    assert IsGrouped(items, 0, byDomain) by { NothingGrouped(items); }
    for n := 0 to |items|
      invariant forall i :: 0 <= i < n ==> IsOffset(items[i].bitOffset)
      invariant IsGrouped(items, n, byDomain)
    {
      var item := items[n];
      if !IsOffset(item.bitOffset) { return Some(Failure(INVALID, item.name)), byDomain; }
      GroupedStep(items, n, byDomain);
      var list := if item.domain in byDomain then byDomain[item.domain] else [];
      byDomain := byDomain[item.domain := list + [OffsetOf(item)]];
    }
    failure := None;
  }

  lemma NothingGrouped(items: seq<Item>)
    ensures IsGrouped(items, 0, map[])
  {}

  /** One domain: no offset twice, and the sorted offsets are 0, 1, 2, ... */
  method CheckDomain(domain: string, bits: seq<Keyed<nat>>) returns (failure: Option<Failure>)
    ensures failure == None <==> DomainOk(bits)
  {
    hide Contiguous, Clash;
    var seen: map<nat, string> := map[];
    assert bits[..0] == [];
    for n := 0 to |bits|
      invariant seen == Seen(bits[..n])
      invariant forall k :: 0 <= k < n ==> !Clash(bits, k)
    {
      ClashMeans(bits, n);
      if bits[n].key in seen && seen[bits[n].key] != "" { return Some(Failure(DUPLICATE, bits[n].name)); }
      assert bits[..n + 1][..n] == bits[..n];
      seen := seen[bits[n].key := bits[n].name];
    }
    assert bits[..|bits|] == bits;
    var sorted := SortAscending(seen.Keys);
    AtOwnIndexIff(seen.Keys, sorted);
    for index := 0 to |sorted|
      invariant AllAtOwnIndex(sorted, index)
    {
      if sorted[index] != index { return Some(Failure(INVALID, domain)); }
    }
    return None;
  }

  // ---------- High bytes and domains ----------

  type DomainMap = map<int, string>

  /** id >> 8 on a number taken as a signed 32-bit integer. */
  function HighByte(id: nat): int {
    var low := id % TWO_32;
    (if low >= TWO_32 / 2 then low - TWO_32 else low) / 256
  }

  predicate IsUint8(highByte: Option<int>) {
    highByte.Some? && 0 <= highByte.value <= 255
  }

  /** addDomain; None stands for the error it throws. */
  function AddDomain(mapping: DomainMap, highByte: Option<int>, domain: string): Option<DomainMap> {
    if !IsUint8(highByte) then None
    else if highByte.value in mapping && mapping[highByte.value] != "" && mapping[highByte.value] != domain then None
    else Some(mapping[highByte.value := domain])
  }

  function FromRanges(ranges: seq<Range>): Option<DomainMap> {
    if ranges == [] then Some(map[])
    else
      var before := FromRanges(ranges[..|ranges| - 1]);
      var last := ranges[|ranges| - 1];
      if before == None then None else AddDomain(before.value, last.highByte, last.domain)
  }

  function FromItems(start: DomainMap, items: seq<Item>): Option<DomainMap> {
    if items == [] then Some(start)
    else
      var before := FromItems(start, items[..|items| - 1]);
      var last := items[|items| - 1];
      if before == None then None
      else if !(0 < HighByte(last.id) < 0x70) then before
      else AddDomain(before.value, Some(HighByte(last.id)), last.domain)
  }

  datatype Spec = Spec(ranges: seq<Range>, methods: seq<Item>, events: seq<Item>, errors: seq<Item>)

  function Build(spec: Spec): Option<DomainMap> {
    var declared := FromRanges(spec.ranges);
    if declared == None || declared.value != map[] then declared
    else FromItems(map[], spec.methods + spec.events + spec.errors)
  }

  predicate Uint8Keys(mapping: DomainMap) {
    forall k :: k in mapping ==> 0 <= k <= 255
  }

  lemma {:induction false} RangeKeys(ranges: seq<Range>)
    ensures FromRanges(ranges).Some? ==> Uint8Keys(FromRanges(ranges).value)
  {
    if ranges != [] { RangeKeys(ranges[..|ranges| - 1]); }
  }

  lemma {:induction false} ItemKeys(start: DomainMap, items: seq<Item>)
    requires Uint8Keys(start)
    ensures FromItems(start, items).Some? ==> Uint8Keys(FromItems(start, items).value)
  {
    if items != [] { ItemKeys(start, items[..|items| - 1]); }
  }

  lemma BuildKeys(spec: Spec)
    ensures Build(spec).Some? ==> Uint8Keys(Build(spec).value)
  {
    RangeKeys(spec.ranges);
    ItemKeys(map[], spec.methods + spec.events + spec.errors);
  }

  predicate InRange(item: Item, zeroByte: set<string>, mapping: DomainMap) {
    var h := HighByte(item.id);
    if h in mapping && mapping[h] != "" then item.domain == mapping[h]
    else
      || (h == 0 && item.domain in zeroByte)
      || (0x70 <= h <= 0x7e && item.domain == "vendor")
      || (h == 0x7f && item.domain == "legacy")
  }

  method AssertRegistryDomainRanges(items: seq<Item>, zeroByte: set<string>, mapping: DomainMap) returns (failure: Option<Failure>)
    ensures failure == None <==> forall i :: 0 <= i < |items| ==> InRange(items[i], zeroByte, mapping)
    ensures failure.Some? ==>
      exists n :: 0 <= n < |items| && !InRange(items[n], zeroByte, mapping) && failure.value == Failure(INVALID, items[n].name)
  {
    for n := 0 to |items|
      invariant forall i :: 0 <= i < n ==> InRange(items[i], zeroByte, mapping)
    {
      var item := items[n];
      var highByte := HighByte(item.id);
      if highByte in mapping && mapping[highByte] != "" {
        if item.domain != mapping[highByte] { return Some(Failure(INVALID, item.name)); }
        continue;
      }
      if highByte == 0 && item.domain in zeroByte { continue; }
      if 0x70 <= highByte <= 0x7e && item.domain == "vendor" { continue; }
      if highByte == 0x7f && item.domain == "legacy" { continue; }
      return Some(Failure(INVALID, item.name));
    }
    return None;
  }

  method BuildFromRanges(ranges: seq<Range>) returns (r: Option<DomainMap>)
    ensures r == FromRanges(ranges)
  {
    hide AddDomain;
    var mapping: DomainMap := map[];
    assert ranges[..0] == [];
    for n := 0 to |ranges|
      invariant FromRanges(ranges[..n]) == Some(mapping)
    {
      assert ranges[..n + 1][..n] == ranges[..n];
      var next := AddDomain(mapping, ranges[n].highByte, ranges[n].domain);
      if next == None {
        RangesStayFailed(ranges, n + 1);
        return None;
      }
      mapping := next.value;
    }
    assert ranges[..|ranges|] == ranges;
    return Some(mapping);
  }

  lemma {:induction false} RangesStayFailed(ranges: seq<Range>, n: nat)
    requires n <= |ranges| && FromRanges(ranges[..n]) == None
    ensures FromRanges(ranges) == None
    decreases |ranges| - n
  {
    if n == |ranges| {
      assert ranges[..n] == ranges;
    } else {
      assert ranges[..n + 1][..n] == ranges[..n];
      RangesStayFailed(ranges, n + 1);
    }
  }

  method BuildFromItems(start: DomainMap, items: seq<Item>) returns (r: Option<DomainMap>)
    ensures r == FromItems(start, items)
  {
    hide AddDomain, HighByte;
    var mapping := start;
    assert items[..0] == [];
    for n := 0 to |items|
      invariant FromItems(start, items[..n]) == Some(mapping)
    {
      assert items[..n + 1][..n] == items[..n];
      var highByte := HighByte(items[n].id);
      if 0 < highByte < 0x70 {
        var next := AddDomain(mapping, Some(highByte), items[n].domain);
        if next == None {
          ItemsStayFailed(start, items, n + 1);
          return None;
        }
        mapping := next.value;
      }
    }
    assert items[..|items|] == items;
    return Some(mapping);
  }

  lemma {:induction false} ItemsStayFailed(start: DomainMap, items: seq<Item>, n: nat)
    requires n <= |items| && FromItems(start, items[..n]) == None
    ensures FromItems(start, items) == None
    decreases |items| - n
  {
    if n == |items| {
      assert items[..n] == items;
    } else {
      assert items[..n + 1][..n] == items[..n];
      ItemsStayFailed(start, items, n + 1);
    }
  }

  // ---------- The whole check ----------

  ghost predicate InRanges(items: seq<Item>, mapping: DomainMap) {
    forall i :: 0 <= i < |items| ==> InRange(items[i], {}, mapping)
  }

  /** What validateSpec demands of the methods and events. */
  ghost predicate Accepted(spec: Spec) {
    && Build(spec).Some?
    && NoClash(Ids(spec.methods)) && UniqueNames(spec.methods)
    && NoClash(Ids(spec.events)) && UniqueNames(spec.events)
    && InRanges(spec.methods, Build(spec).value) && InRanges(spec.events, Build(spec).value)
    && OffsetsOk(spec.methods) && OffsetsOk(spec.events)
  }

  method BuildSource(spec: Spec) returns (r: Option<DomainMap>)
    ensures r == Build(spec)
  {
    r := BuildFromRanges(spec.ranges);
    if r == None || r.value != map[] { return; }
    r := BuildFromItems(map[], spec.methods + spec.events + spec.errors);
  }

  method ValidateTables(spec: Spec) returns (failure: Option<Failure>)
    ensures failure == None <==> Accepted(spec)
  {
    hide Build, NoClash, UniqueNames, OffsetsOk, InRange, Ids, Repeated;
    var mapping := BuildSource(spec);
    if mapping == None { return Some(Failure(INVALID, "")); }
    failure := AssertUniqueIds(spec.methods);
    if failure.Some? { return; }
    failure := AssertUniqueNames(spec.methods);
    if failure.Some? { return; }
    failure := AssertUniqueIds(spec.events);
    if failure.Some? { return; }
    failure := AssertUniqueNames(spec.events);
    if failure.Some? { return; }
    failure := AssertRegistryDomainRanges(spec.methods, {}, mapping.value);
    if failure.Some? { return; }
    failure := AssertRegistryDomainRanges(spec.events, {}, mapping.value);
    if failure.Some? { return; }
    failure := AssertDomainBitOffsets(spec.methods);
    if failure.Some? { return; }
    failure := AssertDomainBitOffsets(spec.events);
  }

  // ---------- What acceptance means ----------

  ghost predicate AllNamed(items: seq<Item>) {
    forall i :: 0 <= i < |items| ==> items[i].name != ""
  }

  lemma {:induction false} BitsNamed(items: seq<Item>, d: string)
    requires AllNamed(items)
    ensures Named(BitsOf(items, d))
  {
    if items != [] { BitsNamed(items[..|items| - 1], d); }
  }

  /** Where an item stands among the items of its domain. */
  lemma {:induction false} BitsAt(items: seq<Item>, d: string, i: nat)
    requires i < |items| && items[i].domain == d
    ensures var p := |BitsOf(items[..i], d)|;
      p < |BitsOf(items, d)| && BitsOf(items, d)[p] == OffsetOf(items[i])
    decreases |items|
  {
    hide OffsetOf;
    var n := |items| - 1;
    if i < n {
      assert items[..n][..i] == items[..i];
      BitsAt(items[..n], d, i);
    }
  }

  lemma {:induction false} BitsGrow(items: seq<Item>, d: string, n: nat)
    requires n <= |items|
    ensures |BitsOf(items[..n], d)| <= |BitsOf(items, d)|
    decreases |items| - n
  {
    hide OffsetOf;
    if n == |items| {
      assert items[..n] == items;
    } else {
      assert items[..n + 1][..n] == items[..n];
      BitsGrow(items, d, n + 1);
    }
  }

  lemma {:induction false} BitsFrom(items: seq<Item>, d: string, p: nat) returns (i: nat)
    requires p < |BitsOf(items, d)|
    ensures i < |items| && items[i].domain == d && BitsOf(items, d)[p] == OffsetOf(items[i])
  {
    hide OffsetOf;
    var n := |items| - 1;
    if p < |BitsOf(items[..n], d)| {
      i := BitsFrom(items[..n], d, p);
    } else {
      i := n;
    }
  }

  lemma {:induction false} SeenSize(bits: seq<Keyed<nat>>)
    requires Distinct(bits)
    ensures |Seen(bits).Keys| == |bits|
  {
    if bits != [] {
      var n := |bits| - 1;
      SeenSize(bits[..n]);
      SeenIs(bits[..n], bits[n].key);
      assert Seen(bits).Keys == Seen(bits[..n]).Keys + {bits[n].key};
    }
  }

  ghost predicate HasKey(bits: seq<Keyed<nat>>, k: nat) {
    exists p :: 0 <= p < |bits| && bits[p].key == k
  }

  /** An accepted list has, in each domain, every offset from 0 up to the number of its events exactly once. */
  lemma OffsetsArePermutation(items: seq<Item>, i: nat)
    requires OffsetsOk(items) && AllNamed(items) && i < |items|
    ensures var bits := BitsOf(items, items[i].domain);
      && Distinct(bits)
      && forall k: nat :: k < |bits| <==> HasKey(bits, k)
  {
    hide BitsOf, IsOffset;
    var bits := BitsOf(items, items[i].domain);
    BitsNamed(items, items[i].domain);
    NoClashIff(bits);
    SeenSize(bits);
    forall k: nat ensures k < |bits| <==> HasKey(bits, k) {
      SeenIs(bits, k);
    }
  }

  /** Two accepted events whose ids have one high byte are in one domain. */
  lemma SameByteSameDomain(a: Item, b: Item, mapping: DomainMap)
    requires InRange(a, {}, mapping) && InRange(b, {}, mapping) && HighByte(a.id) == HighByte(b.id)
    ensures a.domain == b.domain
  {
    hide HighByte;
  }

  lemma AcceptedByte(item: Item, mapping: DomainMap)
    requires InRange(item, {}, mapping) && Uint8Keys(mapping)
    ensures M.Domain(M.Entry(item.id, 0)) == HighByte(item.id)
  {
    hide HighByte;
    assert 0 <= HighByte(item.id) <= 255;
    SmallHighByte(item.id);
  }

  /** Where the signed 32-bit shift gives a byte, it is the second byte of the id. */
  lemma SmallHighByte(id: nat)
    requires 0 <= HighByte(id) <= 255
    ensures (id / 256) % 256 == HighByte(id)
  {
    var q, low := id / TWO_32, id % TWO_32;
    var h, r := low / 256, low % 256;
    SplitDivision(id, q * 0x100_0000 + h, r);
    SplitRemainder(q * 0x1_0000, h);
  }

  lemma SplitDivision(n: nat, d: nat, r: nat)
    requires n == 256 * d + r && r < 256
    ensures n / 256 == d
  {}

  lemma SplitRemainder(m: nat, h: nat)
    requires h < 256
    ensures (m * 256 + h) % 256 == h
  {}

  /** The generated event table. */
  function Table(events: seq<Item>): M.Registry {
    if events == [] then map[]
    else
      var last := events[|events| - 1];
      Table(events[..|events| - 1])[last.name := M.Entry(last.id, OffsetOf(last).key)]
  }

  lemma {:induction false} TableIs(events: seq<Item>, name: string)
    requires UniqueNames(events)
    ensures name in Table(events) <==> exists i :: 0 <= i < |events| && events[i].name == name
    ensures forall i :: 0 <= i < |events| && events[i].name == name ==>
      (name in Table(events) && Table(events)[name] == M.Entry(events[i].id, OffsetOf(events[i]).key))
  {
    hide OffsetOf;
    if events != [] {
      var n := |events| - 1;
      TableIs(events[..n], name);
      if i :| 0 <= i < |events| && events[i].name == name && i < n { assert events[..n][i].name == name; }
      if events[n].name == name { assert name in Table(events); }
    }
  }

  lemma FromTable(events: seq<Item>, name: string) returns (i: nat)
    requires UniqueNames(events) && name in Table(events)
    ensures i < |events| && events[i].name == name
    ensures Table(events)[name] == M.Entry(events[i].id, OffsetOf(events[i]).key)
  {
    hide OffsetOf;
    TableIs(events, name);
    i :| 0 <= i < |events| && events[i].name == name;
  }

  /** No domain has more events than a mask of 255 bytes has bits. */
  ghost predicate DomainsFit(events: seq<Item>) {
    forall i :: 0 <= i < |events| ==> |BitsOf(events, events[i].domain)| <= M.MAX_OFFSETS
  }

  ghost predicate UniqueKeyNames(bits: seq<Keyed<nat>>) {
    forall p, q :: 0 <= p < q < |bits| ==> bits[p].name != bits[q].name
  }

  lemma {:induction false} BitsUnique(items: seq<Item>, d: string)
    requires UniqueNames(items)
    ensures UniqueKeyNames(BitsOf(items, d))
  {
    if items != [] {
      var n := |items| - 1;
      BitsUnique(items[..n], d);
      var before := BitsOf(items[..n], d);
      forall p | 0 <= p < |before| ensures before[p].name != items[n].name {
        var i := BitsFrom(items[..n], d, p);
        assert items[..n][i] == items[i];
      }
    }
  }

  /** Where names differ, the check passes a repeated key only right after an item without a name. */
  lemma TwoAtMost(bits: seq<Keyed<nat>>, p: nat, q: nat)
    requires NoClash(bits) && UniqueKeyNames(bits) && p < q < |bits| && bits[p].key == bits[q].key
    ensures bits[p].name == ""
  {
    var r := LastNameless(bits, p, q);
    if r != p {
      var r2 := LastNameless(bits, p, r);
    }
  }

  lemma LastNameless(bits: seq<Keyed<nat>>, p: nat, q: nat) returns (r: nat)
    requires NoClash(bits) && p < q < |bits| && bits[p].key == bits[q].key
    ensures p <= r < q && bits[r].key == bits[q].key && bits[r].name == ""
  {
    hide Seen;
    var k := bits[q].key;
    SeenIs(bits[..q], k);
    assert bits[..q][p].key == k;
    SeenLast(bits, q, k);
    r :| LastBefore(bits, r, q, k);
    assert !Clash(bits, q);
  }

  /** An event without a name, and after it one with the same high byte and the same offset. */
  ghost predicate NamelessTwin(events: seq<Item>) {
    exists i, j :: 0 <= i < j < |events| && Twins(events[i], events[j])
  }

  predicate Twins(a: Item, b: Item) {
    a.name == "" && HighByte(a.id) == HighByte(b.id) && OffsetOf(a).key == OffsetOf(b).key
  }

  /** No domain has more different offsets than a mask of 255 bytes has bits. */
  ghost predicate OffsetsFit(events: seq<Item>) {
    forall i :: 0 <= i < |events| ==> |Seen(BitsOf(events, events[i].domain)).Keys| <= M.MAX_OFFSETS
  }

  /** In an accepted specification two events share a bit only if the first of them has no name. */
  lemma SameBit(spec: Spec, i: nat, j: nat)
    requires Accepted(spec) && i < j < |spec.events|
    requires HighByte(spec.events[i].id) == HighByte(spec.events[j].id)
    requires OffsetOf(spec.events[i]).key == OffsetOf(spec.events[j]).key
    ensures Twins(spec.events[i], spec.events[j])
  {
    hide BitsOf, HighByte, Build, NoClash, UniqueNames, Contiguous, IsOffset;
    var events := spec.events;
    var d := events[i].domain;
    SameByteSameDomain(events[i], events[j], Build(spec).value);
    BitsUnique(events, d);
    BitsAt(events, d, i);
    BitsAt(events, d, j);
    Ahead(events, i, j);
    assert DomainOk(BitsOf(events, d));
    TwoAtMost(BitsOf(events, d), |BitsOf(events[..i], d)|, |BitsOf(events[..j], d)|);
  }

  /** Two named items of one accepted list have different names and ids, and under one high byte different offsets. */
  lemma NamedDiffer(items: seq<Item>, mapping: DomainMap, i: nat, j: nat)
    requires NoClash(Ids(items)) && UniqueNames(items) && InRanges(items, mapping) && OffsetsOk(items) && AllNamed(items)
    requires i < j < |items|
    ensures items[i].name != items[j].name && items[i].id != items[j].id
    ensures HighByte(items[i].id) == HighByte(items[j].id) ==> OffsetOf(items[i]).key != OffsetOf(items[j]).key
  {
    hide BitsOf, HighByte, NoClash, Contiguous, IsOffset, InRange;
    NoClashIff(Ids(items));
    assert Ids(items)[i].key != Ids(items)[j].key;
    if HighByte(items[i].id) == HighByte(items[j].id) && OffsetOf(items[i]).key == OffsetOf(items[j]).key {
      var d := items[i].domain;
      SameByteSameDomain(items[i], items[j], mapping);
      BitsUnique(items, d);
      BitsAt(items, d, i);
      BitsAt(items, d, j);
      Ahead(items, i, j);
      assert DomainOk(BitsOf(items, d));
      TwoAtMost(BitsOf(items, d), |BitsOf(items[..i], d)|, |BitsOf(items[..j], d)|);
    }
  }

  /** So it is with the methods of an accepted specification, and with its events. */
  lemma AcceptedDiffer(spec: Spec, i: nat, j: nat)
    requires Accepted(spec)
    ensures AllNamed(spec.methods) && i < j < |spec.methods| ==>
      var a, b := spec.methods[i], spec.methods[j];
      a.name != b.name && a.id != b.id && (HighByte(a.id) == HighByte(b.id) ==> OffsetOf(a).key != OffsetOf(b).key)
    ensures AllNamed(spec.events) && i < j < |spec.events| ==>
      var a, b := spec.events[i], spec.events[j];
      a.name != b.name && a.id != b.id && (HighByte(a.id) == HighByte(b.id) ==> OffsetOf(a).key != OffsetOf(b).key)
  {
    hide NoClash, UniqueNames, InRanges, OffsetsOk, AllNamed, HighByte, OffsetOf, Build;
    if AllNamed(spec.methods) && i < j < |spec.methods| { NamedDiffer(spec.methods, Build(spec).value, i, j); }
    if AllNamed(spec.events) && i < j < |spec.events| { NamedDiffer(spec.events, Build(spec).value, i, j); }
  }

  lemma Ahead(items: seq<Item>, i: nat, j: nat)
    requires i < j < |items| && items[i].domain == items[j].domain
    ensures |BitsOf(items[..i], items[i].domain)| < |BitsOf(items[..j], items[i].domain)|
  {
    hide OffsetOf;
    var d := items[i].domain;
    assert items[..i + 1][..i] == items[..i] && items[..j][..i + 1] == items[..i + 1];
    BitsGrow(items[..j], d, i + 1);
  }

  /** The byte of an event's id that its mask goes under. */
  lemma TableByte(spec: Spec, name: string) returns (i: nat)
    requires Accepted(spec) && name in Table(spec.events)
    ensures i < |spec.events| && spec.events[i].name == name
    ensures var e := Table(spec.events)[name];
      M.Domain(e) == HighByte(spec.events[i].id) && e.bitOffset == OffsetOf(spec.events[i]).key
  {
    hide HighByte, Build, NoClash, UniqueNames, OffsetsOk, OffsetOf, InRange, Table, Uint8Keys, M.Domain;
    i := FromTable(spec.events, name);
    BuildKeys(spec);
    AcceptedByte(spec.events[i], Build(spec).value);
    DomainOfId(spec.events[i].id, OffsetOf(spec.events[i]).key);
  }

  lemma DomainOfId(id: nat, bit: nat)
    ensures M.Domain(M.Entry(id, bit)) == M.Domain(M.Entry(id, 0))
  {}

  lemma EventInTable(spec: Spec, i: nat)
    requires Accepted(spec) && i < |spec.events|
    ensures var name := spec.events[i].name; name in Table(spec.events) && var e := Table(spec.events)[name];
      M.Domain(e) == HighByte(spec.events[i].id) && e.bitOffset == OffsetOf(spec.events[i]).key
  {
    hide HighByte, Build, NoClash, OffsetsOk, OffsetOf, InRange, Table, Uint8Keys, M.Domain;
    TableIs(spec.events, spec.events[i].name);
    BuildKeys(spec);
    AcceptedByte(spec.events[i], Build(spec).value);
    DomainOfId(spec.events[i].id, OffsetOf(spec.events[i]).key);
  }

  /** Accepted offsets are those below the number of different ones. */
  lemma OffsetBelow(events: seq<Item>, i: nat)
    requires OffsetsOk(events) && i < |events|
    ensures OffsetOf(events[i]).key < |Seen(BitsOf(events, events[i].domain)).Keys|
  {
    hide BitsOf, Seen, NoClash, IsOffset, OffsetOf;
    var bits := BitsOf(events, events[i].domain);
    BitsAt(events, events[i].domain, i);
    SeenIs(bits, OffsetOf(events[i]).key);
    assert DomainOk(bits);
  }

  lemma SomeOffset(events: seq<Item>, i: nat, k: nat) returns (j: nat)
    requires OffsetsOk(events) && i < |events| && k < |Seen(BitsOf(events, events[i].domain)).Keys|
    ensures j < |events| && OffsetOf(events[j]).key == k
  {
    hide BitsOf, Seen, NoClash, IsOffset, OffsetOf;
    var bits := BitsOf(events, events[i].domain);
    assert DomainOk(bits);
    SeenIs(bits, k);
    var p :| 0 <= p < |bits| && bits[p].key == k;
    j := BitsFrom(events, events[i].domain, p);
  }

  lemma AcceptedNames(spec: Spec)
    requires Accepted(spec)
    ensures UniqueNames(spec.events)
  {
    hide NoClash, OffsetsOk, InRange, Build;
  }

  /** The bits of an accepted table are all different exactly when no nameless event has a twin. */
  lemma SharesIff(spec: Spec)
    requires Accepted(spec)
    ensures var reg := Table(spec.events);
      NamelessTwin(spec.events) <==>
        exists a, b :: a in reg && b in reg && a != b && M.Domain(reg[a]) == M.Domain(reg[b]) && reg[a].bitOffset == reg[b].bitOffset
  {
    hide Accepted, HighByte, OffsetOf, M.Domain, Table;
    var events := spec.events;
    var reg := Table(events);
    if NamelessTwin(events) {
      var i, j :| 0 <= i < j < |events| && Twins(events[i], events[j]);
      EventInTable(spec, i);
      EventInTable(spec, j);
      AcceptedNames(spec);
    }
    if a, b :| a in reg && b in reg && a != b && M.Domain(reg[a]) == M.Domain(reg[b]) && reg[a].bitOffset == reg[b].bitOffset {
      var i := TableByte(spec, a);
      var j := TableByte(spec, b);
      if i < j { SameBit(spec, i, j); } else { SameBit(spec, j, i); }
    }
  }

  lemma LargeIff(spec: Spec)
    requires Accepted(spec)
    ensures var reg := Table(spec.events);
      OffsetsFit(spec.events) <==> forall a :: a in reg ==> reg[a].bitOffset < M.MAX_OFFSETS
  {
    hide HighByte, OffsetOf, M.Domain, Table, Seen, BitsOf, OffsetsOk, NoClash, UniqueNames, InRange, Build;
    var events := spec.events;
    var reg := Table(events);
    if OffsetsFit(events) {
      forall a | a in reg ensures reg[a].bitOffset < M.MAX_OFFSETS {
        var i := TableByte(spec, a);
        OffsetBelow(events, i);
      }
    } else {
      var i :| 0 <= i < |events| && |Seen(BitsOf(events, events[i].domain)).Keys| > M.MAX_OFFSETS;
      var j := SomeOffset(events, i, M.MAX_OFFSETS);
      EventInTable(spec, j);
    }
  }

  /** An accepted specification, whatever its events are called, gives a sound event table exactly when no event
      without a name is followed by one with its high byte and its offset, and no domain has too many offsets. */
  lemma AcceptedSoundIff(spec: Spec)
    requires Accepted(spec)
    ensures M.Sound(Table(spec.events)) <==> !NamelessTwin(spec.events) && OffsetsFit(spec.events)
  {
    hide Accepted, NamelessTwin, OffsetsFit, Table, M.Domain;
    SharesIff(spec);
    LargeIff(spec);
  }

  /** With names, the offsets are as many as the events. */
  lemma NamedFitIff(events: seq<Item>)
    requires OffsetsOk(events) && AllNamed(events)
    ensures !NamelessTwin(events) && (OffsetsFit(events) <==> DomainsFit(events))
  {
    hide BitsOf, Seen, NoClash, HighByte, OffsetOf, IsOffset, Contiguous;
    forall i | 0 <= i < |events|
      ensures |Seen(BitsOf(events, events[i].domain)).Keys| == |BitsOf(events, events[i].domain)|
    {
      var bits := BitsOf(events, events[i].domain);
      BitsNamed(events, events[i].domain);
      assert DomainOk(bits);
      NoClashIff(bits);
      SeenSize(bits);
    }
  }

  /** When every event has a name, that is when no domain has too many events. */
  lemma AcceptedIsSound(spec: Spec)
    requires Accepted(spec) && AllNamed(spec.events)
    ensures M.Sound(Table(spec.events)) <==> DomainsFit(spec.events)
  {
    hide NamelessTwin, OffsetsFit, Table, M.Domain, AllNamed, DomainsFit;
    AcceptedSoundIff(spec);
    NamedFitIff(spec.events);
  }

  /** So for every specification the generator accepts: the mask of every list answers exactly for every name if
      and only if no nameless event has a twin and no domain has more than 2040 offsets. */
  lemma AcceptedMasksAreExact(spec: Spec)
    requires Accepted(spec)
    ensures var reg := Table(spec.events);
      (forall names, name :: M.Subscribed(reg, name, M.Compute(reg, names)) == Some(name in reg && name in names)) <==>
      !NamelessTwin(spec.events) && OffsetsFit(spec.events)
  {
    hide Accepted, NamelessTwin, OffsetsFit, Table, M.Compute, M.Subscribed, M.Sound;
    AcceptedSoundIff(spec);
    M.ExactIffSound(Table(spec.events));
  }

  // ---------- An empty name slips through ----------

  const NAMELESS := Item(0x0101, "", "d", Some(0))
  const NAMED := Item(0x0102, "e", "d", Some(0))

  /** The duplicate checks do not see an item whose name is empty: here two events share a bit. */
  lemma EmptyNameSlipsThrough()
    ensures var spec := Spec([], [], [NAMELESS, NAMED], []);
      Accepted(spec) && !M.Sound(Table(spec.events))
  {
    hide M.Domain, HighByte, Seen;
    var events := [NAMELESS, NAMED];
    var spec := Spec([], [], events, []);
    assert HighByte(0x0101) == 1 && HighByte(0x0102) == 1 by { SmallIds(); }
    assert M.Domain(M.Entry(0x0101, 0)) == 1 && M.Domain(M.Entry(0x0102, 0)) == 1 by { SmallIds(); }
    NamelessMapping(spec);
    NamelessChecks();
    NamelessTable();
  }

  lemma SmallIds()
    ensures HighByte(0x0101) == 1 && HighByte(0x0102) == 1
    ensures M.Domain(M.Entry(0x0101, 0)) == 1 && M.Domain(M.Entry(0x0102, 0)) == 1
  {}

  lemma NamelessMapping(spec: Spec)
    requires spec == Spec([], [], [NAMELESS, NAMED], [])
    ensures Build(spec) == Some(map[1 := "d"])
  {
    hide HighByte;
    SmallIds();
    assert [] + [NAMELESS, NAMED] + [] == [NAMELESS, NAMED];
    assert [NAMELESS, NAMED][..1] == [NAMELESS] && [NAMELESS][..0] == [];
    assert FromItems(map[], []) == Some(map[]);
    assert FromItems(map[], [NAMELESS]) == Some(map[1 := "d"]);
    assert map[1 := "d"][1 := "d"] == map[1 := "d"];
    assert spec.methods + spec.events + spec.errors == [NAMELESS, NAMED];
    assert FromItems(map[], [NAMELESS, NAMED]) == Some(map[1 := "d"]);
  }

  lemma NamelessChecks()
    ensures var events := [NAMELESS, NAMED];
      NoClash(Ids(events)) && UniqueNames(events) && OffsetsOk(events)
  {
    hide NoClash, DomainOk;
    var events := [NAMELESS, NAMED];
    assert Ids(events) == [Keyed(0x0101, ""), Keyed(0x0102, "e")];
    NamelessPair(0x0101, 0x0102);
    NamelessBits();
    NamelessPair(0, 0);
    assert DomainOk(BitsOf(events, "d")) by { OneOffset(); }
  }

  /** A first item with an empty name never clashes with the second. */
  lemma NamelessPair(k: nat, l: nat)
    ensures NoClash([Keyed(k, ""), Keyed(l, "e")])
  {
    var items := [Keyed(k, ""), Keyed(l, "e")];
    assert items[..0] == [] && items[..1] == [Keyed(k, "")] && [Keyed(k, "")][..0] == [];
    assert Seen(items[..0]) == map[];
    assert Seen(items[..1]) == map[k := ""];
  }

  lemma NamelessBits()
    ensures BitsOf([NAMELESS, NAMED], "d") == [Keyed(0, ""), Keyed(0, "e")]
  {
    assert [NAMELESS, NAMED][..1] == [NAMELESS] && [NAMELESS][..0] == [];
    assert BitsOf([], "d") == [] && BitsOf([NAMELESS], "d") == [Keyed(0, "")];
  }

  lemma OneOffset()
    ensures DomainOk(BitsOf([NAMELESS, NAMED], "d"))
  {
    hide NoClash;
    NamelessBits();
    NamelessPair(0, 0);
    var bits := [Keyed(0, ""), Keyed(0, "e")];
    assert bits[..1] == [Keyed(0, "")] && [Keyed(0, "")][..0] == [];
    assert Seen(bits[..1]) == map[0 := ""] && Seen(bits) == map[0 := "e"];
    assert Seen(bits).Keys == {0};
  }

  lemma NamelessTable()
    ensures !M.Sound(Table([NAMELESS, NAMED]))
  {
    hide M.Domain;
    SmallIds();
    var events := [NAMELESS, NAMED];
    assert events[..1] == [NAMELESS] && [NAMELESS][..0] == [];
    assert Table([]) == map[] && Table([NAMELESS]) == map["" := M.Entry(0x0101, 0)];
    var reg := Table(events);
    assert reg["" ] == M.Entry(0x0101, 0) && reg["e"] == M.Entry(0x0102, 0);
    assert "" != "e";
  }
}
