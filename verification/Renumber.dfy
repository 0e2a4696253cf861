// Dictionary compaction: which ids survivors use, the compacted dictionaries, and the
// monotone old-to-new remap.
module Renumber {
  import Bits
  import opened Bitmap
  import opened Packing
  import opened Table
  import Dictionary
  import opened Zip

  // ---- What a remap must satisfy ----

  // In one dimension: the used ids keep their values and their order, and every id,
  // used or not, still fits the new width.
  ghost predicate DimOK(src: seq<Value>, dst: seq<Value>, remap: seq<seq<nat>>, d: nat, used: set<nat>) {
    && (forall id: nat :: id < |src| ==> MapId(remap, d, id) < Bits.Pow2(DictBits(|dst|)))
    && (forall id :: id in used ==> id < |src| && MapId(remap, d, id) < |dst| && dst[MapId(remap, d, id)] == src[id])
    && (forall a, b :: a in used && b in used && a < b ==> MapId(remap, d, a) < MapId(remap, d, b))
  }

  ghost predicate Renumbers(src: Dicts, dst: Dicts, remap: seq<seq<nat>>, used: seq<set<nat>>) {
    && |src| == |dst| == |used|
    && forall d :: 0 <= d < |src| ==> DimOK(src[d], dst[d], remap, d, used[d])
  }

  ghost predicate UsesOnly(used: seq<set<nat>>, ids: seq<nat>) {
    |ids| == |used| && forall d :: 0 <= d < |ids| ==> ids[d] in used[d]
  }

  lemma NewIdsDecode(src: Dicts, dst: Dicts, remap: seq<seq<nat>>, used: seq<set<nat>>, ids: seq<nat>)
    requires Renumbers(src, dst, remap, used) && UsesOnly(used, ids)
    ensures InRange(dst, NewIds(remap, ids))
    ensures Decode(dst, NewIds(remap, ids)) == Decode(src, ids)
  {
    forall d | 0 <= d < |ids|
      ensures NewIds(remap, ids)[d] < |dst[d]| && ValueAt(dst, d, NewIds(remap, ids)[d]) == ValueAt(src, d, ids[d])
    {
      assert DimOK(src[d], dst[d], remap, d, used[d]);
    }
  }

  lemma NewIdsFit(sc: Schema, src: Dicts, dst: Dicts, remap: seq<seq<nat>>, used: seq<set<nat>>, ids: seq<nat>)
    requires Renumbers(src, dst, remap, used) && InRange(src, ids) && sc.indexDims <= |src|
    ensures Fits(IndexCards(sc, dst), NewIds(remap, ids)[..sc.indexDims])
  {
    forall d | 0 <= d < sc.indexDims
      ensures NewIds(remap, ids)[..sc.indexDims][d] < Bits.Pow2(DictBits(IndexCards(sc, dst)[d]))
    {
      assert DimOK(src[d], dst[d], remap, d, used[d]);
    }
  }

  // Dimension by dimension, used ids compare as their new ids do.
  lemma NewIdsOrder(src: Dicts, dst: Dicts, remap: seq<seq<nat>>, used: seq<set<nat>>, a: seq<nat>, b: seq<nat>, d: nat)
    requires Renumbers(src, dst, remap, used) && UsesOnly(used, a) && UsesOnly(used, b) && d < |a|
    ensures a[d] < b[d] <==> NewIds(remap, a)[d] < NewIds(remap, b)[d]
    ensures a[d] == b[d] <==> NewIds(remap, a)[d] == NewIds(remap, b)[d]
  {
    assert DimOK(src[d], dst[d], remap, d, used[d]);
    assert a[d] in used[d] && b[d] in used[d];
  }

  // ---- The identity remap ----

  ghost function AllIds(n: nat): (s: set<nat>)
    ensures forall id: nat :: id in s <==> id < n
  {
    if n == 0 then {} else AllIds(n - 1) + {n - 1}
  }

  ghost function AllUsed(ds: Dicts): seq<set<nat>> {
    seq(|ds|, d requires 0 <= d < |ds| => AllIds(|ds[d]|))
  }

  lemma IdentityRenumbers(ds: Dicts)
    ensures Renumbers(ds, ds, [], AllUsed(ds))
    ensures forall ids :: InRange(ds, ids) ==> UsesOnly(AllUsed(ds), ids)
  {
    forall d, id: nat | 0 <= d < |ds| && id < |ds[d]| ensures MapId([], d, id) < Bits.Pow2(DictBits(|ds[d]|)) {
      DictBitsLeast(|ds[d]|, 1);
    }
  }

  // ---- Compaction of one dictionary ----

  // The used values below n, in their old order.
  function Compacted(vals: seq<Value>, bits: seq<nat>, n: nat): seq<Value>
    requires n <= |vals|
  {
    if n == 0 then []
    else if BitGet(bits, n - 1) then Compacted(vals, bits, n - 1) + [vals[n - 1]]
    else Compacted(vals, bits, n - 1)
  }

  lemma {:induction false} CompactedFrom(vals: seq<Value>, bits: seq<nat>, n: nat)
    requires n <= |vals|
    ensures forall v :: v in Compacted(vals, bits, n) <==> exists id :: 0 <= id < n && BitGet(bits, id) && vals[id] == v
  {
    if n == 0 {
    } else {
      CompactedFrom(vals, bits, n - 1);
      var (c, c') := (Compacted(vals, bits, n - 1), Compacted(vals, bits, n));
      forall v ensures v in c' <==> exists id :: 0 <= id < n && BitGet(bits, id) && vals[id] == v {
        if v in c' {
          if v in c {
            var id :| 0 <= id < n - 1 && BitGet(bits, id) && vals[id] == v;
          } else {
            assert BitGet(bits, n - 1) && vals[n - 1] == v;
          }
        }
        if id :| 0 <= id < n && BitGet(bits, id) && vals[id] == v {
          if id < n - 1 {
            assert v in c;
          }
        }
      }
    }
  }

  lemma {:induction false} CompactedPrefix(vals: seq<Value>, bits: seq<nat>, m: nat, n: nat)
    requires m <= n <= |vals|
    ensures Compacted(vals, bits, m) <= Compacted(vals, bits, n)
    decreases n
  {
    if m == n {
    } else {
      CompactedPrefix(vals, bits, m, n - 1);
    }
  }

  // A used id's new number: how many used ids lie below it.
  function Rank(vals: seq<Value>, bits: seq<nat>, id: nat): nat
    requires id <= |vals|
  {
    |Compacted(vals, bits, id)|
  }

  lemma RankFinds(vals: seq<Value>, bits: seq<nat>, id: nat, n: nat)
    requires id < n <= |vals| && BitGet(bits, id)
    ensures Rank(vals, bits, id) < Rank(vals, bits, id + 1) <= Rank(vals, bits, n)
    ensures Compacted(vals, bits, n)[Rank(vals, bits, id)] == vals[id]
  {
    CompactedPrefix(vals, bits, id + 1, n);
  }

  lemma RankMono(vals: seq<Value>, bits: seq<nat>, a: nat, b: nat)
    requires a < b <= |vals| && BitGet(bits, a)
    ensures Rank(vals, bits, a) < Rank(vals, bits, b)
  {
    RankFinds(vals, bits, a, b);
  }

  ghost predicate RemapOf(vals: seq<Value>, bits: seq<nat>, renum: seq<nat>, n: nat)
    requires n <= |vals|
  {
    && |renum| == |vals|
    && (forall id :: 0 <= id < n && BitGet(bits, id) ==> renum[id] == Rank(vals, bits, id))
    && (forall id :: 0 <= id < |vals| && (id >= n || !BitGet(bits, id)) ==> renum[id] == 0)
  }

  lemma CompactedDim(vals: seq<Value>, bits: seq<nat>, remap: seq<seq<nat>>, d: nat, used: set<nat>)
    requires d < |remap| && RemapOf(vals, bits, remap[d], |vals|)
    requires forall id: nat :: id in used <==> id < |vals| && BitGet(bits, id)
    ensures DimOK(vals, Compacted(vals, bits, |vals|), remap, d, used)
  {
    var n := |vals|;
    var dst := Compacted(vals, bits, n);
    DictBitsLeast(|dst|, 1);
    forall id: nat | id < n
      ensures MapId(remap, d, id) < Bits.Pow2(DictBits(|dst|))
      ensures BitGet(bits, id) ==> MapId(remap, d, id) < |dst| && dst[MapId(remap, d, id)] == vals[id]
    {
      if BitGet(bits, id) {
        RankFinds(vals, bits, id, n);
      }
    }
    forall a, b | a in used && b in used && a < b ensures MapId(remap, d, a) < MapId(remap, d, b) {
      RankMono(vals, bits, a, b);
    }
  }

  lemma CompactedFresh(vals: seq<Value>, bits: seq<nat>, n: nat)
    requires n < |vals| && Distinct(vals)
    ensures vals[n] !in Compacted(vals, bits, n)
  {
    CompactedFrom(vals, bits, n);
  }

  // Copies the used entries of one dimension's combined dictionary, in id order.
  method CompactDict(isInt: bool, base: Dictionary.Dict, extra: Dictionary.Dict, bits: seq<nat>)
    returns (dict: Dictionary.Dict, renum: seq<nat>)
    requires base.Valid() && extra.Valid() && base.numeric == extra.numeric == isInt
    requires Distinct(base.vals + extra.vals)
    ensures fresh(dict) && dict.Valid() && dict.numeric == isInt
    ensures dict.vals == Compacted(base.vals + extra.vals, bits, |base.vals| + |extra.vals|)
    ensures RemapOf(base.vals + extra.vals, bits, renum, |base.vals| + |extra.vals|)
  {
    hide Distinct, BitGet;
    dict := new Dictionary.Dict(isInt);
    var baseLen := |base.vals|;
    var card := baseLen + |extra.vals|;
    renum := seq(card, (_: nat) => 0);
    ghost var comb := base.vals + extra.vals;
    for was := 0 to card
      invariant fresh(dict) && dict.Valid() && dict.numeric == isInt
      invariant dict.vals == Compacted(comb, bits, was)
      invariant RemapOf(comb, bits, renum, was)
    {
      if BitGet(bits, was) {
        CompactedFresh(comb, bits, was);
        var id;
        if was < baseLen {
          id := dict.AddFrom(base, was);
        } else {
          id := dict.AddFrom(extra, was - baseLen);
        }
        LastIndex(dict.vals, id);
        renum := renum[was := id];
      }
    }
  }

  lemma LastIndex(vals: seq<Value>, id: nat)
    requires |vals| > 0 && id < |vals| && vals[id] == vals[|vals| - 1]
    requires Distinct(vals)
    ensures id == |vals| - 1
  {
  }
}
