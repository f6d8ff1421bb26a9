/** Which specifications get a map from high bytes to domains, and which (devtools/generators/src/domainRegistry.ts,
    devtools/generators/src/validator.ts). */
module DomainClaims {
  import opened Bytes
  import opened Validator

  /** A declaration that a high byte belongs to a domain. */
  datatype Claim = Claim(highByte: Option<int>, domain: string)

  function OfRanges(ranges: seq<Range>): (r: seq<Claim>)
    ensures |r| == |ranges|
  {
    seq(|ranges|, i requires 0 <= i < |ranges| => Claim(ranges[i].highByte, ranges[i].domain))
  }

  /** The items of the registry's own range, 0x01 to 0x6F, claim the high byte of their id. */
  function OfItems(items: seq<Item>): seq<Claim> {
    if items == [] then []
    else
      var last := items[|items| - 1];
      OfItems(items[..|items| - 1]) +
        if 1 <= HighByte(last.id) <= 0x6F then [Claim(Some(HighByte(last.id)), last.domain)] else []
  }

  /** Claim i is the last before n for its high byte. */
  predicate LastFor(claims: seq<Claim>, i: nat, n: nat, b: int)
    requires n <= |claims|
  {
    i < n && claims[i].highByte == Some(b) && forall j :: i < j < n ==> claims[j].highByte != Some(b)
  }

  /** Every high byte is a byte, and no claim contradicts the one before it for its byte, unless that has no name. */
  ghost predicate Consistent(claims: seq<Claim>) {
    forall n :: 0 <= n < |claims| ==> Follows(claims, n)
  }

  ghost predicate Follows(claims: seq<Claim>, n: nat)
    requires n < |claims|
  {
    && claims[n].highByte.Some? && 0 <= claims[n].highByte.value <= 255
    && forall i: nat :: LastFor(claims, i, n, claims[n].highByte.value) ==>
         claims[i].domain == "" || claims[i].domain == claims[n].domain
  }

  /** The map holds the last claim for each byte. */
  ghost predicate Holds(mapping: DomainMap, claims: seq<Claim>) {
    && (forall b :: b in mapping <==> exists i: nat :: LastFor(claims, i, |claims|, b))
    && (forall b, i: nat :: LastFor(claims, i, |claims|, b) ==> b in mapping && mapping[b] == claims[i].domain)
  }

  function Fold(claims: seq<Claim>): Option<DomainMap> {
    if claims == [] then Some(map[])
    else
      var before := Fold(claims[..|claims| - 1]);
      var last := claims[|claims| - 1];
      if before == None then None else AddDomain(before.value, last.highByte, last.domain)
  }

  lemma LastForSnoc(claims: seq<Claim>, c: Claim, i: nat, b: int)
    ensures LastFor(claims + [c], i, |claims| + 1, b) <==>
      if c.highByte == Some(b) then i == |claims| else LastFor(claims, i, |claims|, b)
  {
    var all := claims + [c];
    assert all[|claims|] == c;
    if LastFor(claims, i, |claims|, b) && c.highByte != Some(b) {
      forall j | i < j < |all| ensures all[j].highByte != Some(b) { if j < |claims| { assert all[j] == claims[j]; } }
    }
    if LastFor(all, i, |all|, b) && c.highByte != Some(b) {
      assert all[i] == claims[i];
      forall j | i < j < |claims| ensures claims[j].highByte != Some(b) { assert all[j] == claims[j]; }
    }
  }

  lemma LastForPrefix(claims: seq<Claim>, c: Claim, i: nat, n: nat, b: int)
    requires n <= |claims|
    ensures LastFor(claims + [c], i, n, b) <==> LastFor(claims, i, n, b)
  {
    assert forall j :: 0 <= j < n ==> (claims + [c])[j] == claims[j];
  }

  lemma ConsistentSnoc(claims: seq<Claim>, c: Claim)
    ensures Consistent(claims + [c]) <==> Consistent(claims) && Follows(claims + [c], |claims|)
  {
    var all := claims + [c];
    forall n | 0 <= n < |claims| ensures Follows(all, n) <==> Follows(claims, n) {
      assert all[n] == claims[n];
      if claims[n].highByte.Some? {
        forall i: nat ensures LastFor(all, i, n, claims[n].highByte.value) <==> LastFor(claims, i, n, claims[n].highByte.value) {
          LastForPrefix(claims, c, i, n, claims[n].highByte.value);
        }
        assert forall i: nat :: i < n ==> all[i] == claims[i];
      }
    }
  }

  lemma HoldsSnoc(mapping: DomainMap, claims: seq<Claim>, c: Claim)
    requires Holds(mapping, claims) && c.highByte.Some?
    ensures Holds(mapping[c.highByte.value := c.domain], claims + [c])
  {
    var all := claims + [c];
    var next := mapping[c.highByte.value := c.domain];
    forall b, i: nat ensures LastFor(all, i, |all|, b) <==> if c.highByte == Some(b) then i == |claims| else LastFor(claims, i, |claims|, b) {
      LastForSnoc(claims, c, i, b);
    }
    forall b ensures b in next <==> exists i: nat :: LastFor(all, i, |all|, b) {
      if b == c.highByte.value { assert LastFor(all, |claims|, |all|, b); }
    }
  }

  /** A list of claims gives a map exactly when they are consistent, and it is theirs. */
  lemma {:induction false} FoldIff(claims: seq<Claim>)
    ensures Fold(claims).Some? <==> Consistent(claims)
    ensures Fold(claims).Some? ==> Holds(Fold(claims).value, claims)
  {
    hide LastFor;
    if claims == [] {
      assert Holds(map[], []) by { NoClaims(); }
    } else {
      var n := |claims| - 1;
      var h, c := claims[..n], claims[n];
      assert claims == h + [c];
      FoldIff(h);
      ConsistentSnoc(h, c);
      if Fold(h).Some? {
        FollowsIff(Fold(h).value, h, c);
        if c.highByte.Some? { HoldsSnoc(Fold(h).value, h, c); }
      }
    }
  }

  lemma NoClaims()
    ensures Holds(map[], [])
  {}

  lemma FollowsIff(mapping: DomainMap, claims: seq<Claim>, c: Claim)
    requires Holds(mapping, claims)
    ensures AddDomain(mapping, c.highByte, c.domain).Some? <==> Follows(claims + [c], |claims|)
  {
    hide LastFor;
    var all := claims + [c];
    assert all[|claims|] == c;
    if c.highByte.Some? {
      var b := c.highByte.value;
      forall i: nat ensures LastFor(all, i, |claims|, b) <==> LastFor(claims, i, |claims|, b) { LastForPrefix(claims, c, i, |claims|, b); }
      forall i: nat | LastFor(claims, i, |claims|, b) ensures i < |claims| && all[i] == claims[i] { LastForBelow(claims, i, b); }
    }
  }

  lemma LastForBelow(claims: seq<Claim>, i: nat, b: int)
    requires LastFor(claims, i, |claims|, b)
    ensures i < |claims|
  {}

  lemma {:induction false} RangesFold(ranges: seq<Range>)
    ensures FromRanges(ranges) == Fold(OfRanges(ranges))
  {
    hide AddDomain;
    if ranges != [] {
      var n := |ranges| - 1;
      RangesFold(ranges[..n]);
      assert OfRanges(ranges)[..n] == OfRanges(ranges[..n]);
    }
  }

  lemma {:induction false} ItemsFold(items: seq<Item>)
    ensures FromItems(map[], items) == Fold(OfItems(items))
  {
    hide AddDomain, HighByte;
    if items != [] {
      var n := |items| - 1;
      ItemsFold(items[..n]);
      var before := OfItems(items[..n]);
      var c := Claim(Some(HighByte(items[n].id)), items[n].domain);
      assert (before + [c])[..|before|] == before;
      assert before + [] == before;
    }
  }

  /** The claims a specification makes: its declared ranges, or else its items. */
  function ClaimsOf(spec: Spec): seq<Claim> {
    if spec.ranges != [] then OfRanges(spec.ranges) else OfItems(spec.methods + spec.events + spec.errors)
  }

  lemma NonemptyFold(claims: seq<Claim>)
    requires claims != [] && Fold(claims).Some?
    ensures Fold(claims).value != map[]
  {
    var c := claims[|claims| - 1];
    assert c.highByte.value in Fold(claims).value;
  }

  /** A specification gets its map exactly when its claims are consistent, and then the map is theirs. */
  lemma BuildIff(spec: Spec)
    ensures Build(spec).Some? <==> Consistent(ClaimsOf(spec))
    ensures Build(spec).Some? ==> Holds(Build(spec).value, ClaimsOf(spec))
  {
    hide Consistent, Holds, FromRanges, FromItems;
    RangesFold(spec.ranges);
    ItemsFold(spec.methods + spec.events + spec.errors);
    FoldIff(ClaimsOf(spec));
    if spec.ranges == [] {
      assert OfRanges([]) == [];
    } else if Fold(OfRanges(spec.ranges)).Some? {
      NonemptyFold(OfRanges(spec.ranges));
    }
  }

  /** Where an accepted item may stand: under a named byte only in that domain, otherwise among vendor ids 0x70 to 0x7E or
      legacy ids 0x7F. */
  lemma InRangeIff(item: Item, mapping: DomainMap)
    ensures var b := HighByte(item.id);
      InRange(item, {}, mapping) <==>
        || (b in mapping && mapping[b] != "" && item.domain == mapping[b])
        || ((b !in mapping || mapping[b] == "") && 112 <= b < 127 && item.domain == "vendor")
        || ((b !in mapping || mapping[b] == "") && b == 127 && item.domain == "legacy")
  {
    hide HighByte;
  }

  /** The high byte of an id below 2^31; a larger one is read as a negative number of 32 bits. */
  lemma HighByteOfSmall(id: nat)
    requires id < 0x8000_0000
    ensures HighByte(id) == id / 256
  {}
}
