// mergeView: the id-stable and the renumbering merge, and when either overflows.
module Compaction {
  import opened Bitmap
  import Packing
  import opened Table
  import opened Dictionary
  import opened Engine
  import opened Oracle
  import opened Live
  import opened Upsert
  import opened Zip
  import opened Renumber
  import Merge

  // ---- The mark pass ----

  predicate Before(s: Src, bi: nat, di: nat) {
    match s
    case B(r) => r < bi
    case D(r) => r < di
  }

  // Survivor s carries id in dimension d.
  ghost predicate Uses(j: Job, s: Src, d: nat, id: nat) {
    Survives(j, s) && d < |RowOf(j.view, s).ids| && RowOf(j.view, s).ids[d] == id
  }

  ghost predicate UsedBy(j: Job, bi: nat, di: nat, d: nat, id: nat) {
    exists s :: Uses(j, s, d, id) && Before(s, bi, di)
  }

  // Bit id of dimension d is set exactly when a survivor seen so far uses it.
  ghost predicate Marked(j: Job, used: seq<seq<nat>>, bi: nat, di: nat) {
    forall d: nat, id: nat :: d < |used| ==> (BitGet(used[d], id) <==> UsedBy(j, bi, di, d, id))
  }

  ghost predicate Roomy(used: seq<seq<nat>>, ds: Dicts) {
    |used| == |ds| && forall d :: 0 <= d < |ds| ==> |ds[d]| <= 64 * |used[d]|
  }

  method MarkRow(used: seq<seq<nat>>, ds: Dicts, ids: seq<nat>) returns (used': seq<seq<nat>>)
    requires Roomy(used, ds) && InRange(ds, ids)
    ensures Roomy(used', ds)
    ensures forall d: nat, id: nat :: d < |used| ==> (BitGet(used'[d], id) <==> BitGet(used[d], id) || id == ids[d])
  {
    hide BitGet;
    used' := used;
    for i := 0 to |ids|
      invariant |used'| == |used|
      invariant forall d :: 0 <= d < |used| ==> |used'[d]| == |used[d]|
      invariant forall d :: i <= d < |used| ==> used'[d] == used[d]
      invariant forall d: nat, id: nat :: d < i ==> (BitGet(used'[d], id) <==> BitGet(used[d], id) || id == ids[d])
    {
      used' := used'[i := BitSet(used'[i], ids[i])];
    }
  }

  // A source that does not survive leaves no mark; one that does leaves its ids.
  lemma MarkStep(j: Job, used: seq<seq<nat>>, used': seq<seq<nat>>, bi: nat, di: nat, s: Src, bi': nat, di': nat)
    requires Marked(j, used, bi, di) && |used'| == |used|
    requires forall t :: Before(t, bi', di') <==> t == s || Before(t, bi, di)
    requires forall d: nat, id: nat :: d < |used| ==>
               (BitGet(used'[d], id) <==> BitGet(used[d], id) || Uses(j, s, d, id))
    ensures Marked(j, used', bi', di')
  {
    hide Uses, BitGet, Before;
    forall d: nat, id: nat | d < |used| ensures BitGet(used'[d], id) <==> UsedBy(j, bi', di', d, id) {
      if UsedBy(j, bi, di, d, id) {
        var t :| Uses(j, t, d, id) && Before(t, bi, di);
        assert Before(t, bi', di');
      }
      if UsedBy(j, bi', di', d, id) {
        var t :| Uses(j, t, d, id) && Before(t, bi', di');
        assert t == s || Before(t, bi, di);
      }
      if Uses(j, s, d, id) {
        assert Before(s, bi', di');
      }
    }
  }

  lemma BeforeBase(r: nat, di: nat)
    ensures forall t :: Before(t, r + 1, di) <==> t == B(r) || Before(t, r, di)
  {
    forall t ensures Before(t, r + 1, di) <==> t == B(r) || Before(t, r, di) {
      match t
      case B(x) =>
      case D(x) =>
    }
  }

  lemma BeforeDelta(bi: nat, r: nat)
    ensures forall t :: Before(t, bi, r + 1) <==> t == D(r) || Before(t, bi, r)
  {
    forall t ensures Before(t, bi, r + 1) <==> t == D(r) || Before(t, bi, r) {
      match t
      case B(x) =>
      case D(x) =>
    }
  }

  method MarkOne(sc: Schema, j: Job, used: seq<seq<nat>>, ghost bi: nat, ghost di: nat, s: Src, ghost bi': nat,
          ghost di': nat)
    returns (used': seq<seq<nat>>)
    requires ViewOK(sc, j.view) && Roomy(used, CombOf(j.view)) && Marked(j, used, bi, di)
    requires forall t :: Before(t, bi', di') <==> t == s || Before(t, bi, di)
    ensures Roomy(used', CombOf(j.view)) && Marked(j, used', bi', di')
  {
    hide Marked, BitGet, Before, ViewOK, RowOf;
    used' := used;
    if Survives(j, s) {
      LiveInRange(sc, j.view, s);
      used' := MarkRow(used, CombOf(j.view), RowOf(j.view, s).ids);
    }
    MarkStep(j, used, used', bi, di, s, bi', di');
  }

  method MarkUsed(sc: Schema, j: Job) returns (used: seq<seq<nat>>)
    requires ViewOK(sc, j.view)
    ensures Roomy(used, CombOf(j.view))
    ensures Marked(j, used, |j.view.base.rows|, |j.view.delta.rows|)
  {
    hide Marked, BitGet, ViewOK;
    var ds := CombOf(j.view);
    used := seq(|ds|, d requires 0 <= d < |ds| => Zeros(|ds[d]|));
    MarkNothing(j, used, ds);
    for r := 0 to |j.view.base.rows|
      invariant Roomy(used, ds) && Marked(j, used, r, 0)
    {
      BeforeBase(r, 0);
      used := MarkOne(sc, j, used, r, 0, B(r), r + 1, 0);
    }
    for r := 0 to |j.view.delta.rows|
      invariant Roomy(used, ds) && Marked(j, used, |j.view.base.rows|, r)
    {
      BeforeDelta(|j.view.base.rows|, r);
      used := MarkOne(sc, j, used, |j.view.base.rows|, r, D(r), |j.view.base.rows|, r + 1);
    }
  }

  lemma MarkNothing(j: Job, used: seq<seq<nat>>, ds: Dicts)
    requires used == seq(|ds|, d requires 0 <= d < |ds| => Zeros(|ds[d]|))
    ensures Roomy(used, ds) && Marked(j, used, 0, 0)
  {
    forall t ensures !Before(t, 0, 0) {
      match t
      case B(x) =>
      case D(x) =>
    }
  }

  // ---- The compacted dictionaries ----

  ghost predicate Subsequence(a: seq<Value>, b: seq<Value>) {
    if |a| == 0 then true
    else if |b| == 0 then false
    else if a[|a| - 1] == b[|b| - 1] then Subsequence(a[..|a| - 1], b[..|b| - 1])
    else Subsequence(a, b[..|b| - 1])
  }

  lemma {:induction false} CompactedSub(vals: seq<Value>, bits: seq<nat>, n: nat)
    requires n <= |vals| && Distinct(vals)
    ensures Subsequence(Compacted(vals, bits, n), vals[..n])
  {
    if n == 0 {
    } else {
      CompactedSub(vals, bits, n - 1);
      assert vals[..n][..n - 1] == vals[..n - 1];
      var c := Compacted(vals, bits, n);
      if BitGet(bits, n - 1) {
        assert c[..|c| - 1] == Compacted(vals, bits, n - 1);
      } else if |c| > 0 {
        CompactedFresh(vals, bits, n - 1);
        assert c[|c| - 1] in Compacted(vals, bits, n - 1);
      }
    }
  }

  // The values of surviving rows and nothing else, once each, in their old order.
  ghost predicate LiveDicts(v: ViewV, cutoff: int, now: int, ds: Dicts) {
    && |ds| == |v.base.dicts|
    && forall d :: 0 <= d < |ds| ==>
         && Subsequence(ds[d], CombOf(v)[d])
         && (forall x :: x in ds[d] <==> x in ValuesOf(Retain(Abs(v), cutoff, now), d))
  }

  ghost predicate CompactedBy(sc: Schema, comb: Dicts, used: seq<seq<nat>>, ds: Dicts, remap: seq<seq<nat>>) {
    && |ds| == |comb| == |used| == |remap| == |sc.dims|
    && forall d :: 0 <= d < |ds| ==>
         ds[d] == Compacted(comb[d], used[d], |comb[d]|) && RemapOf(comb[d], used[d], remap[d], |comb[d]|)
  }

  ghost function UsedSets(comb: Dicts, used: seq<seq<nat>>): seq<set<nat>>
    requires |used| == |comb|
  {
    seq(|comb|, d requires 0 <= d < |comb| => set id: nat | id in AllIds(|comb[d]|) && BitGet(used[d], id))
  }

  lemma CompactedRenumbers(sc: Schema, comb: Dicts, used: seq<seq<nat>>, ds: Dicts, remap: seq<seq<nat>>)
    requires CompactedBy(sc, comb, used, ds, remap)
    ensures Renumbers(comb, ds, remap, UsedSets(comb, used))
  {
    hide DimOK, BitGet, RemapOf;
    var sets := UsedSets(comb, used);
    forall d | 0 <= d < |comb| ensures DimOK(comb[d], ds[d], remap, d, sets[d]) {
      CompactedDim(comb[d], used[d], remap, d, sets[d]);
    }
  }

  lemma MarkedCovers(sc: Schema, j: Job, used: seq<seq<nat>>, s: Src)
    requires ViewOK(sc, j.view) && Survives(j, s) && |used| == |CombOf(j.view)|
    requires Marked(j, used, |j.view.base.rows|, |j.view.delta.rows|)
    ensures UsesOnly(UsedSets(CombOf(j.view), used), RowOf(j.view, s).ids)
  {
    hide ViewOK, BitGet, RowOf;
    var ds := CombOf(j.view);
    LiveInRange(sc, j.view, s);
    assert Before(s, |j.view.base.rows|, |j.view.delta.rows|);
    var ids := RowOf(j.view, s).ids;
    forall d | 0 <= d < |ids| ensures ids[d] in UsedSets(ds, used)[d] {
      assert Uses(j, s, d, ids[d]);
      assert UsedBy(j, |j.view.base.rows|, |j.view.delta.rows|, d, ids[d]);
      assert BitGet(used[d], ids[d]);
    }
  }

  // A value is kept in dimension d exactly when some surviving entry carries it.
  lemma CompactedLive(sc: Schema, j: Job, used: seq<seq<nat>>, d: nat, x: Value)
    requires ViewOK(sc, j.view) && d < |used| == |CombOf(j.view)|
    requires Marked(j, used, |j.view.base.rows|, |j.view.delta.rows|)
    ensures x in Compacted(CombOf(j.view)[d], used[d], |CombOf(j.view)[d]|)
            <==> x in ValuesOf(Retain(Abs(j.view), j.cutoff, j.now), d)
  {
    hide ViewOK, BitGet, RowOf, IsLive, Abs;
    var ds := CombOf(j.view);
    var (m, c) := (Retain(Abs(j.view), j.cutoff, j.now), Compacted(ds[d], used[d], |ds[d]|));
    CompactedFrom(ds[d], used[d], |ds[d]|);
    if x in c {
      var id :| 0 <= id < |ds[d]| && BitGet(used[d], id) && ds[d][id] == x;
      assert UsedBy(j, |j.view.base.rows|, |j.view.delta.rows|, d, id);
      var s :| Uses(j, s, d, id) && Before(s, |j.view.base.rows|, |j.view.delta.rows|);
      LiveAbs(sc, j.view, s);
      var t := Decode(ds, RowOf(j.view, s).ids);
      assert t in m && t[d] == x;
    }
    if x in ValuesOf(m, d) {
      var t :| t in m && d < |t| && t[d] == x;
      var s := LiveFind(sc, j.view, t);
      LiveAbs(sc, j.view, s);
      LiveInRange(sc, j.view, s);
      MarkedCovers(sc, j, used, s);
      var id := RowOf(j.view, s).ids[d];
      assert id in UsedSets(ds, used)[d];
      assert ds[d][id] == x;
    }
  }

  lemma CompactedLiveDicts(sc: Schema, j: Job, used: seq<seq<nat>>, ds: Dicts, remap: seq<seq<nat>>)
    requires ViewOK(sc, j.view) && CompactedBy(sc, CombOf(j.view), used, ds, remap)
    requires Marked(j, used, |j.view.base.rows|, |j.view.delta.rows|)
    ensures LiveDicts(j.view, j.cutoff, j.now, ds)
  {
    hide Marked, Subsequence, Retain, Abs, ValuesOf, RemapOf, Keyed, Scalars, Shadowing, DeltaOK;
    forall d, x | 0 <= d < |ds| ensures x in ds[d] <==> x in ValuesOf(Retain(Abs(j.view), j.cutoff, j.now), d) {
      CompactedLive(sc, j, used, d, x);
    }
    forall d | 0 <= d < |ds| ensures Subsequence(ds[d], CombOf(j.view)[d]) {
      var vals := CombOf(j.view)[d];
      assert DictOK(vals, sc.dims[d].isInt);
      CompactedSub(vals, used[d], |vals|);
      assert vals[..|vals|] == vals;
    }
  }

  // ---- Key width of live data ----

  // Bits the index dimensions need for exactly the values stored.
  ghost function LiveWidth(sc: Schema, m: Contents): nat {
    Packing.Width(seq(sc.indexDims, (d: nat) => |ValuesOf(m, d)|))
  }

  lemma {:induction false} DistinctCard(s: seq<Value>, x: set<Value>)
    requires Distinct(s) && forall v :: v in s <==> v in x
    ensures |x| == |s|
  {
    if |s| == 0 {
      assert x == {};
    } else {
      var (init, last) := (s[..|s| - 1], s[|s| - 1]);
      assert forall v :: v in s <==> v in init || v == last;
      assert last !in init by {
        assert forall i :: 0 <= i < |init| ==> init[i] == s[i];
      }
      DistinctCard(init, x - {last});
    }
  }

  lemma LiveDictsWidth(sc: Schema, v: ViewV, cutoff: int, now: int, ds: Dicts)
    requires DictsOK(sc, ds) && LiveDicts(v, cutoff, now, ds) && sc.indexDims <= |ds|
    ensures Packing.Width(IndexCards(sc, ds)) == LiveWidth(sc, Retain(Abs(v), cutoff, now))
  {
    hide Subsequence, Retain, Abs, ValuesOf, Packing.Width;
    var m := Retain(Abs(v), cutoff, now);
    forall d | 0 <= d < sc.indexDims ensures |ds[d]| == |ValuesOf(m, d)| {
      assert DictOK(ds[d], sc.dims[d].isInt);
      DistinctCard(ds[d], ValuesOf(m, d));
    }
    assert IndexCards(sc, ds) == seq(sc.indexDims, (d: nat) => |ValuesOf(m, d)|);
  }

  // Stored values all have dictionary entries, so live data never needs more bits than
  // the dictionaries reserve.
  lemma LiveFitsDicts(sc: Schema, v: ViewV, cutoff: int, now: int)
    requires ViewOK(sc, v)
    ensures LiveWidth(sc, Retain(Abs(v), cutoff, now)) <= Packing.Width(IndexCards(sc, CombOf(v)))
  {
    hide Keyed, Scalars, Shadowing, DeltaOK, Packing.Width, Abs;
    var (m, ds) := (Retain(Abs(v), cutoff, now), CombOf(v));
    forall d | 0 <= d < sc.indexDims ensures |ValuesOf(m, d)| <= |ds[d]| {
      var all := set x | x in ds[d];
      forall x | x in ValuesOf(m, d) ensures x in all {
        var t :| t in m && d < |t| && t[d] == x;
        var s := LiveFind(sc, v, t);
        LiveInRange(sc, v, s);
        assert ds[d][RowOf(v, s).ids[d]] == x;
      }
      assert DictOK(ds[d], sc.dims[d].isInt);
      DistinctCard(ds[d], all);
      SubsetCard(ValuesOf(m, d), all);
    }
    Packing.WidthMono(seq(sc.indexDims, (d: nat) => |ValuesOf(m, d)|), IndexCards(sc, ds));
  }

  lemma {:induction false} SubsetCard(a: set<Value>, b: set<Value>)
    requires a <= b
    ensures |a| <= |b|
  {
    if a == {} {
    } else {
      var x :| x in a;
      SubsetCard(a - {x}, b - {x});
    }
  }

  // ---- mergeView ----

  // One dimension of the id-stable path: an unmutated dictionary is shared as it is.
  method StableDict(base: Dict, extra: Dict) returns (dict: Dict)
    requires base.Valid() && extra.Valid() && base.numeric == extra.numeric && Distinct(base.vals + extra.vals)
    ensures dict.Valid() && dict.numeric == base.numeric && dict.vals == base.vals + extra.vals
    ensures dict == base || fresh(dict)
    ensures extra.vals == [] ==> dict == base
  {
    hide Distinct, Dict.Valid;
    if |extra.vals| == 0 {
      return base;
    }
    dict := base.Clone();
    for id := 0 to |extra.vals|
      invariant fresh(dict) && dict.Valid() && dict.numeric == base.numeric
      invariant dict.vals == base.vals + extra.vals[..id]
    {
      NotYet(base.vals, extra.vals, id);
      assert base.vals + extra.vals[..id] + [extra.vals[id]] == base.vals + extra.vals[..id + 1];
      var r := dict.AddFrom(extra, id);
    }
  }

  lemma NotYet(a: seq<Value>, b: seq<Value>, i: nat)
    requires i < |b| && Distinct(a + b)
    ensures b[i] !in a + b[..i]
  {
    var s := a + b;
    assert s[|a| + i] == b[i];
    assert forall k :: 0 <= k < |a| + i ==> (a + b[..i])[k] == s[k];
  }

  method StableDicts(sc: Schema, v: View) returns (dicts: seq<Dict>)
    requires v.Valid(sc)
    ensures AllValid(sc, dicts) && Entries(dicts) == CombOf(v.Model())
  {
    hide SnapOK, DeltaOK, Shadowing, RowsIn, Dict.Valid;
    dicts := [];
    ghost var comb := CombOf(v.Model());
    for i := 0 to |sc.dims|
      invariant |dicts| == i
      invariant forall k :: 0 <= k < i ==>
                  dicts[k].Valid() && dicts[k].numeric == sc.dims[k].isInt && dicts[k].vals == comb[k]
    {
      CombAt(sc, v.Model().base.dicts, v.Model().extras, i);
      var d := StableDict(v.base.dicts[i], v.extras[i]);
      dicts := dicts + [d];
    }
  }

  // Dimension i is compacted: its new dictionary and its remap.
  ghost predicate DimDone(isInt: bool, dict: Dict, vals: seq<Value>, bits: seq<nat>, renum: seq<nat>)
    reads dict
  {
    && dict.Valid() && dict.numeric == isInt
    && dict.vals == Compacted(vals, bits, |vals|)
    && RemapOf(vals, bits, renum, |vals|)
  }

  method CompactDim(sc: Schema, v: View, i: nat, bits: seq<nat>) returns (dict: Dict, renum: seq<nat>)
    requires v.Valid(sc) && i < |sc.dims|
    ensures fresh(dict) && DimDone(sc.dims[i].isInt, dict, CombOf(v.Model())[i], bits, renum)
  {
    hide SnapOK, DeltaOK, Shadowing, RowsIn, Dict.Valid, RemapOf, Compacted;
    CombAt(sc, v.Model().base.dicts, v.Model().extras, i);
    dict, renum := CompactDict(sc.dims[i].isInt, v.base.dicts[i], v.extras[i], bits);
  }

  method CompactDicts(sc: Schema, v: View, used: seq<seq<nat>>) returns (dicts: seq<Dict>, remap: seq<seq<nat>>)
    requires v.Valid(sc) && |used| == |sc.dims|
    ensures AllValid(sc, dicts) && CompactedBy(sc, CombOf(v.Model()), used, Entries(dicts), remap)
  {
    hide ViewOK, Snapshot.Valid, DimDone;
    dicts, remap := [], [];
    ghost var comb := CombOf(v.Model());
    CombLen(sc, v);
    for i := 0 to |sc.dims|
      invariant |dicts| == |remap| == i
      invariant forall k :: 0 <= k < i ==> DimDone(sc.dims[k].isInt, dicts[k], comb[k], used[k], remap[k])
    {
      var d, m := CompactDim(sc, v, i, used[i]);
      dicts, remap := dicts + [d], remap + [m];
    }
    AllDone(sc, comb, used, dicts, remap);
  }

  lemma AllDone(sc: Schema, comb: Dicts, used: seq<seq<nat>>, dicts: seq<Dict>, remap: seq<seq<nat>>)
    requires |dicts| == |comb| == |used| == |remap| == |sc.dims|
    requires forall k :: 0 <= k < |dicts| ==> DimDone(sc.dims[k].isInt, dicts[k], comb[k], used[k], remap[k])
    ensures AllValid(sc, dicts) && CompactedBy(sc, comb, used, Entries(dicts), remap)
  {
    hide Dict.Valid, RemapOf, Compacted;
  }

  // Merges a view into a fresh snapshot. Both paths denote the same map; they differ in
  // the dictionaries, and so in when the packed key overflows.
  method MergeView(sc: Schema, v: View, cutoff: int, now: int, renumber: bool) returns (r: Merge.Outcome)
    requires v.Valid(sc)
    ensures r.KeyOverflow? <==>
              (if renumber then LiveWidth(sc, Retain(v.Contents(), cutoff, now))
               else Packing.Width(IndexCards(sc, CombOf(v.Model())))) > 64
    ensures r.Merged? ==> fresh(r.snap) && Merge.MergeOK(sc, v.Model(), cutoff, now, r.snap)
    ensures r.Merged? && renumber ==> LiveDicts(v.Model(), cutoff, now, Entries(r.snap.dicts))
    ensures r.Merged? && !renumber ==> Entries(r.snap.dicts) == CombOf(v.Model())
  {
    if !renumber {
      r := MergeStable(sc, v, cutoff, now);
    } else {
      r := MergeCompacting(sc, v, cutoff, now);
    }
  }

  method MergeStable(sc: Schema, v: View, cutoff: int, now: int) returns (r: Merge.Outcome)
    requires v.Valid(sc)
    ensures r.KeyOverflow? <==> Packing.Width(IndexCards(sc, CombOf(v.Model()))) > 64
    ensures r.Merged? ==> fresh(r.snap) && Merge.MergeOK(sc, v.Model(), cutoff, now, r.snap)
    ensures r.Merged? ==> Entries(r.snap.dicts) == CombOf(v.Model())
  {
    hide SnapOK, DeltaOK, Shadowing, RowsIn, Renumbers, UsesOnly, Merge.MergeOK, RowOf, DictsOK, AllValid, Cards;
    var dicts := StableDicts(sc, v);
    ghost var (m, ds) := (v.Model(), CombOf(v.Model()));
    IdentityRenumbers(ds);
    forall s | Survives(Job(m, cutoff, now, [], []), s) ensures UsesOnly(AllUsed(ds), RowOf(m, s).ids) {
      SurvivorLive(Job(m, cutoff, now, [], []), s);
      LiveInRange(sc, m, s);
    }
    r := Merge.ZipMerge(sc, v, cutoff, now, dicts, [], AllUsed(ds));
  }

  lemma SurvivorLive(j: Job, s: Src)
    requires Survives(j, s)
    ensures IsLive(j.view, s)
  {
  }

  method MergeCompacting(sc: Schema, v: View, cutoff: int, now: int) returns (r: Merge.Outcome)
    requires v.Valid(sc)
    ensures r.KeyOverflow? <==> LiveWidth(sc, Retain(v.Contents(), cutoff, now)) > 64
    ensures r.Merged? ==> fresh(r.snap) && Merge.MergeOK(sc, v.Model(), cutoff, now, r.snap)
    ensures r.Merged? ==> LiveDicts(v.Model(), cutoff, now, Entries(r.snap.dicts))
  {
    hide SnapOK, DeltaOK, Shadowing, RowsIn, Renumbers, UsesOnly, Merge.MergeOK, RowOf, DictsOK, Marked, CompactedBy,
      LiveDicts, LiveWidth, Retain;
    var j := Job(v.Model(), cutoff, now, [], []);
    var used := MarkUsed(sc, j);
    var dicts, remap := CompactDicts(sc, v, used);
    ghost var (ds, comb) := (Entries(dicts), CombOf(j.view));
    CompactedRenumbers(sc, comb, used, ds, remap);
    ghost var sets := UsedSets(comb, used);
    forall s | Survives(Job(j.view, cutoff, now, remap, []), s) ensures UsesOnly(sets, RowOf(j.view, s).ids) {
      SurvivorLive(Job(j.view, cutoff, now, remap, []), s);
      SurvivesAnyRemap(j, Job(j.view, cutoff, now, remap, []), s);
      MarkedCovers(sc, j, used, s);
    }
    CompactedLiveDicts(sc, j, used, ds, remap);
    EntriesOK(sc, dicts);
    IndexInRange(sc, j.view);
    LiveDictsWidth(sc, j.view, cutoff, now, ds);
    r := Merge.ZipMerge(sc, v, cutoff, now, dicts, remap, sets);
  }

  lemma IndexInRange(sc: Schema, v: ViewV)
    requires ViewOK(sc, v)
    ensures sc.indexDims <= |sc.dims|
  {
  }

  lemma SurvivesAnyRemap(j: Job, k: Job, s: Src)
    requires j.view == k.view && j.cutoff == k.cutoff && j.now == k.now && Survives(k, s)
    ensures Survives(j, s)
  {
  }
}
