// Compaction: merging base and delta into a fresh base, with or without renumbering.
module Merge {
  import opened Packing
  import opened Table
  import opened Dictionary
  import opened Engine
  import Oracle
  import opened Live
  import opened Upsert
  import opened Zip
  import opened Insertion
  import opened Renumber

  // ---- From a zipped order to the map it denotes ----

  // Everything the zip relies on: the new dictionaries and layout, and a remap that is
  // faithful and monotone on the ids survivors use.
  ghost predicate Ready(sc: Schema, j: Job, ds: Dicts, used: seq<set<nat>>) {
    && ViewOK(sc, j.view)
    && DictsOK(sc, ds)
    && Renumbers(CombOf(j.view), ds, j.remap, used)
    && Layout(j.shifts, IndexCards(sc, ds))
    && (forall s :: Survives(j, s) ==> UsesOnly(used, RowOf(j.view, s).ids))
  }

  lemma SurvivorDecode(sc: Schema, j: Job, ds: Dicts, used: seq<set<nat>>, s: Src)
    requires Ready(sc, j, ds, used) && Survives(j, s)
    ensures var ids := RowOf(j.view, s).ids;
            && InRange(ds, NewIds(j.remap, ids))
            && Decode(ds, NewIds(j.remap, ids)) == Decode(CombOf(j.view), ids)
            && |RowOf(j.view, s).mets| == |sc.metrics|
  {
    hide Decode, InRange, Renumbers, UsesOnly, ViewOK, Layout, DictsOK, RowOf, IsLive;
    LiveInRange(sc, j.view, s);
    NewIdsDecode(CombOf(j.view), ds, j.remap, used, RowOf(j.view, s).ids);
  }

  lemma SurvivorFits(sc: Schema, j: Job, ds: Dicts, used: seq<set<nat>>, s: Src)
    requires Ready(sc, j, ds, used) && IsLive(j.view, s)
    ensures Fits(IndexCards(sc, ds), NewIds(j.remap, RowOf(j.view, s).ids)[..sc.indexDims])
    ensures Nested(j.shifts, NewIds(j.remap, RowOf(j.view, s).ids))
    ensures |j.shifts| == sc.indexDims <= |RowOf(j.view, s).ids|
  {
    hide Decode, Renumbers, Keyed, Scalars, Shadowing, DeltaOK, Fits, RowOf, Survives, IsLive, Nested;
    LiveInRange(sc, j.view, s);
    var ids := NewIds(j.remap, RowOf(j.view, s).ids);
    NewIdsFit(sc, CombOf(j.view), ds, j.remap, used, RowOf(j.view, s).ids);
    LayoutNested(j.shifts, IndexCards(sc, ds), ids[..sc.indexDims]);
    NestedTake(j.shifts, ids, sc.indexDims);
  }

  lemma KeyPrefix(shifts: seq<nat>, ids: seq<nat>, n: nat)
    requires |shifts| == n <= |ids|
    ensures KeyOf(shifts, ids) == KeyOf(shifts, ids[..n])
  {
    KeyTake(shifts, ids);
  }

  // Base survivors stay sorted under the new ids: their old keys ascend, the remap is
  // monotone in every dimension, and packing is an order isomorphism.
  lemma BaseStaysSorted(sc: Schema, j: Job, ds: Dicts, used: seq<set<nat>>, a: nat, b: nat)
    requires Ready(sc, j, ds, used) && a < b && Survives(j, B(a)) && Survives(j, B(b))
    ensures SrcKey(j, B(a)) <= SrcKey(j, B(b))
  {
    hide Decode, Scalars, Shadowing, DeltaOK, Fits, Nested, KeyOf, LexLess, Renumbers, DimOK, UsesOnly;
    var (base, k) := (j.view.base, sc.indexDims);
    var (x, y) := (base.rows[a].ids, base.rows[b].ids);
    KeyFits(sc, base, x);
    KeyFits(sc, base, y);
    SurvivorFits(sc, j, ds, used, B(a));
    SurvivorFits(sc, j, ds, used, B(b));
    var (x', y') := (NewIds(j.remap, x), NewIds(j.remap, y));
    forall d | 0 <= d < k
      ensures (x[..k][d] < y[..k][d] <==> x'[..k][d] < y'[..k][d])
                && (x[..k][d] == y[..k][d] <==> x'[..k][d] == y'[..k][d])
    {
      NewIdsOrder(CombOf(j.view), ds, j.remap, used, x, y, d);
    }
    KeyRemap(base.shifts, IndexCards(sc, base.dicts), j.shifts, IndexCards(sc, ds), x[..k], y[..k], x'[..k], y'[..k]);
    KeyPrefix(base.shifts, x, k);
    KeyPrefix(base.shifts, y, k);
    KeyPrefix(j.shifts, x', k);
    KeyPrefix(j.shifts, y', k);
    assert base.keys[a] <= base.keys[b];
  }

  lemma ReadyZips(sc: Schema, j: Job, ds: Dicts, used: seq<set<nat>>)
    requires Ready(sc, j, ds, used)
    ensures Packable(j) && BaseAscends(j)
  {
    hide Ready, Nested, Fits, SrcKey;
    forall s | Survives(j, s) ensures Nested(j.shifts, NewIds(j.remap, RowOf(j.view, s).ids)) {
      SurvivorFits(sc, j, ds, used, s);
    }
    forall a, b | 0 <= a < b && Survives(j, B(a)) && Survives(j, B(b)) ensures SrcKey(j, B(a)) <= SrcKey(j, B(b)) {
      BaseStaysSorted(sc, j, ds, used, a, b);
    }
  }

  lemma IdentityIds(ids: seq<nat>)
    ensures NewIds([], ids) == ids
  {
    assert forall d :: 0 <= d < |ids| ==> NewIds([], ids)[d] == ids[d];
  }

  // When no id and no shift moves, the stored keys are already right.
  lemma IdentityKeys(sc: Schema, j: Job)
    requires ViewOK(sc, j.view) && j.remap == [] && j.shifts == j.view.base.shifts
    ensures KeysStable(j)
  {
    forall r | 0 <= r < |j.view.base.rows| && Survives(j, B(r)) ensures j.view.base.keys[r] == SrcKey(j, B(r)) {
      IdentityIds(j.view.base.rows[r].ids);
      KeyFits(sc, j.view.base, j.view.base.rows[r].ids);
    }
  }

  lemma ZipRowsOK(sc: Schema, j: Job, ds: Dicts, used: seq<set<nat>>, rows: seq<Row>, keys: seq<nat>, order: seq<Src>)
    requires Ready(sc, j, ds, used) && Zipped(j, rows, keys, order)
    ensures RowsIn(sc, ds, rows) && UniqueIds(rows)
    ensures forall i :: 0 <= i < |rows| ==>
              Decode(ds, rows[i].ids) == Decode(CombOf(j.view), RowOf(j.view, order[i]).ids)
  {
    hide Decode, Ready, RowOf, NewIds, SrcKey, InRange, Ascending;
    forall i | 0 <= i < |rows|
      ensures InRange(ds, rows[i].ids) && |rows[i].mets| == |sc.metrics|
      ensures Decode(ds, rows[i].ids) == Decode(CombOf(j.view), RowOf(j.view, order[i]).ids)
    {
      SurvivorDecode(sc, j, ds, used, order[i]);
    }
    ViewOf(sc, j, ds, used);
    forall i, k | 0 <= i < k < |rows| ensures rows[i].ids != rows[k].ids {
      LiveDistinct(sc, j.view, order[i], order[k]);
    }
  }

  lemma ViewOf(sc: Schema, j: Job, ds: Dicts, used: seq<set<nat>>)
    requires Ready(sc, j, ds, used)
    ensures ViewOK(sc, j.view) && DictsOK(sc, ds)
  {
  }

  // The zipped rows denote the old view's map minus TTL-old and expired entries.
  lemma ZipDenotes(sc: Schema, j: Job, ds: Dicts, used: seq<set<nat>>, rows: seq<Row>, keys: seq<nat>, order: seq<Src>)
    requires Ready(sc, j, ds, used) && Zipped(j, rows, keys, order)
    ensures MapOf(ds, rows) == Oracle.Retain(Abs(j.view), j.cutoff, j.now)
  {
    hide Decode, Ready, NewIds, SrcKey, InRange, Ascending, Abs, MapOf, Distinct, IsLive, RowOf;
    ViewOf(sc, j, ds, used);
    ZipRowsOK(sc, j, ds, used, rows, keys, order);
    var m := Oracle.Retain(Abs(j.view), j.cutoff, j.now);
    forall i | 0 <= i < |rows| ensures Decode(ds, rows[i].ids) in m && m[Decode(ds, rows[i].ids)] == EntryOf(rows[i]) {
      LiveAbs(sc, j.view, order[i]);
    }
    forall t | t in m ensures exists i :: 0 <= i < |rows| && Decode(ds, rows[i].ids) == t {
      var s := LiveFind(sc, j.view, t);
      LiveAbs(sc, j.view, s);
      assert Survives(j, s);
      var i :| 0 <= i < |order| && order[i] == s;
      assert Decode(ds, rows[i].ids) == t;
    }
    assert Lists(ds, rows, m);
    MapOfLists(sc, ds, rows);
    ListsUnique(ds, rows, m, MapOf(ds, rows));
  }

  // ---- Building the output snapshot ----

  // slices.SortFunc over row numbers, by key; the order among equal keys is not part of
  // the contract.
  method SortPerm(keys: seq<nat>) returns (perm: seq<nat>)
    ensures Permutes(perm, |keys|) && SortedBy(perm, keys)
  {
    hide InsertAt;
    perm := [];
    for i := 0 to |keys|
      invariant Permutes(perm, i) && SortedBy(perm, keys)
    {
      var p := |perm|;
      while p > 0 && keys[perm[p - 1]] > keys[i]
        invariant 0 <= p <= |perm|
        invariant forall k :: p <= k < |perm| ==> keys[perm[k]] > keys[i]
      {
        p := p - 1;
      }
      InsertPermutes(perm, i, p);
      InsertSorted(perm, i, p, keys);
      perm := InsertAt<nat>(perm, p, i);
    }
  }

  lemma InsertSorted(perm: seq<nat>, i: nat, p: nat, keys: seq<nat>)
    requires SortedBy(perm, keys) && p <= |perm| && i < |keys|
    requires p > 0 ==> keys[perm[p - 1]] <= keys[i]
    requires forall k :: p <= k < |perm| ==> keys[perm[k]] > keys[i]
    ensures SortedBy(InsertAt(perm, p, i), keys)
  {
    hide InsertAt;
    assert forall k :: 0 <= k < p ==> keys[perm[k]] <= keys[i];
  }

  // Packed keys of the delta rows under the new layout. Rows about to be dropped get a
  // key too, possibly meaningless; the zip never looks at it.
  method DeltaKeys(sc: Schema, j: Job, ghost ds: Dicts, ghost used: seq<set<nat>>) returns (dKeys: seq<nat>)
    requires Ready(sc, j, ds, used)
    ensures DeltaKeyed(j, dKeys)
  {
    hide Ready;
    dKeys := [];
    for r := 0 to |j.view.delta.rows|
      invariant |dKeys| == r
      invariant forall i :: 0 <= i < r ==> dKeys[i] == SrcKey(j, D(i))
    {
      SurvivorFits(sc, j, ds, used, D(r));
      var k := PackKey(j.shifts, NewIds(j.remap, j.view.delta.rows[r].ids));
      dKeys := dKeys + [k];
    }
  }

  // maxUpdated, minUpdated and minExpire of the kept rows.
  method FoldScalars(out: Snapshot)
    requires out.maxUpdated == out.minUpdated == out.minExpire == 0
    modifies out`maxUpdated, out`minUpdated, out`minExpire
    ensures out.maxUpdated == MaxUpdated(out.rows)
    ensures out.minUpdated == MinUpdated(out.rows) && out.minExpire == MinExpire(out.rows)
  {
    for r := 0 to |out.rows|
      invariant out.maxUpdated == MaxUpdated(out.rows[..r])
      invariant out.minUpdated == MinUpdated(out.rows[..r]) && out.minExpire == MinExpire(out.rows[..r])
    {
      assert out.rows[..r + 1][..r] == out.rows[..r];
      if out.rows[r].updated > out.maxUpdated {
        out.maxUpdated := out.rows[r].updated;
      }
      out.TrackMin(out.rows[r].updated, out.rows[r].expire);
    }
    assert out.rows[..|out.rows|] == out.rows;
  }

  datatype Outcome = KeyOverflow | Merged(snap: Snapshot)

  // What a successful merge hands back.
  ghost predicate MergeOK(sc: Schema, v: ViewV, cutoff: int, now: int, snap: Snapshot)
    reads snap, snap.dicts
  {
    && snap.Valid(sc)
    && MapOf(Entries(snap.dicts), snap.rows) == Oracle.Retain(Abs(v), cutoff, now)
  }

  lemma KeysFollow(sc: Schema, j: Job, ds: Dicts, used: seq<set<nat>>, rows: seq<Row>, keys: seq<nat>, order: seq<Src>)
    requires Ready(sc, j, ds, used) && Zipped(j, rows, keys, order)
    ensures |keys| == |rows| && Ascending(keys) && |j.shifts| == sc.indexDims
    ensures forall r :: 0 <= r < |rows| ==> |j.shifts| <= |rows[r].ids| && keys[r] == KeyOf(j.shifts, rows[r].ids)
  {
    hide Ready, NewIds, KeyOf, IsLive, RowOf;
    forall r | 0 <= r < |rows| ensures |j.shifts| <= |rows[r].ids| && keys[r] == KeyOf(j.shifts, rows[r].ids) {
      SurvivorFits(sc, j, ds, used, order[r]);
      NewIdsLen(j.remap, RowOf(j.view, order[r]).ids);
    }
    ShiftCount(sc, j, ds, used);
  }

  lemma NewIdsLen(remap: seq<seq<nat>>, ids: seq<nat>)
    ensures |NewIds(remap, ids)| == |ids|
  {
  }

  lemma ShiftCount(sc: Schema, j: Job, ds: Dicts, used: seq<set<nat>>)
    requires Ready(sc, j, ds, used)
    ensures |j.shifts| == sc.indexDims
  {
  }

  lemma SnapParts(sc: Schema, j: Job, ds: Dicts, used: seq<set<nat>>, rows: seq<Row>, keys: seq<nat>,
          order: seq<Src>, s: SnapV)
    requires Ready(sc, j, ds, used) && Zipped(j, rows, keys, order)
    requires s.dicts == ds && s.shifts == j.shifts && s.rows == rows && s.keys == keys && Scalars(s)
    ensures SnapOK(sc, s)
  {
    hide Zipped, Scalars, Layout, KeyOf, Shadowing, DeltaOK, Renumbers, Ascending, DictsOK;
    ZipRowsOK(sc, j, ds, used, rows, keys, order);
    KeysFollow(sc, j, ds, used, rows, keys, order);
  }

  // dicts and remap must satisfy Ready once shifts are known; ErrKeyOverflow otherwise.
  method ZipMerge(sc: Schema, v: View, cutoff: int, now: int, dicts: seq<Dict>, remap: seq<seq<nat>>,
          ghost used: seq<set<nat>>)
    returns (r: Outcome)
    requires v.Valid(sc) && AllValid(sc, dicts)
    requires Renumbers(CombOf(v.Model()), Entries(dicts), remap, used)
    requires forall s :: Survives(Job(v.Model(), cutoff, now, remap, []), s) ==> UsesOnly(used, RowOf(v.Model(), s).ids)
    ensures r.KeyOverflow? <==> Width(IndexCards(sc, Entries(dicts))) > 64
    ensures r.Merged? ==> fresh(r.snap) && r.snap.dicts == dicts && MergeOK(sc, v.Model(), cutoff, now, r.snap)
  {
    hide Ready, Renumbers, UsesOnly, Survives, MergeOK, Layout;
    ghost var ds := Entries(dicts);
    var sh := ComputeShifts(Cards(Entries(dicts)), sc.indexDims);
    if sh.Overflow? {
      return KeyOverflow;
    }
    var j := Job(v.Model(), cutoff, now, remap, sh.shifts);
    EntriesOK(sc, dicts);
    MakeReady(sc, j, ds, used);
    var out := ZipOut(sc, j, dicts, ds, used);
    r := Merged(out);
  }

  method ZipOut(sc: Schema, j: Job, dicts: seq<Dict>, ghost ds: Dicts, ghost used: seq<set<nat>>)
    returns (out: Snapshot)
    requires AllValid(sc, dicts) && ds == Entries(dicts) && Ready(sc, j, ds, used)
    ensures fresh(out) && out.dicts == dicts && MergeOK(sc, j.view, j.cutoff, j.now, out)
  {
    hide Ready, Zipped, Packable, BaseAscends, DeltaKeyed, Permutes, SortedBy, Oracle.Retain, Abs, MapOf, KeysStable,
      Scalars, AllValid, SnapOK;
    ReadyZips(sc, j, ds, used);
    var dKeys := DeltaKeys(sc, j, ds, used);
    var dPerm := SortPerm(dKeys);
    // nothing moved: the old keys are the new ones
    var keysStable := j.remap == [] && j.shifts == j.view.base.shifts;
    if keysStable {
      ViewOf(sc, j, ds, used);
      IdentityKeys(sc, j);
    }
    var rows, keys;
    ghost var order;
    DeltaCount(j, dKeys);
    rows, keys, order := ZipRows(j, keysStable, dKeys, dPerm);
    out := Assemble(dicts, j.shifts, rows, keys);
    SnapParts(sc, j, ds, used, rows, keys, order, out.Model());
    ZipDenotes(sc, j, ds, used, rows, keys, order);
  }

  lemma DeltaCount(j: Job, dKeys: seq<nat>)
    requires DeltaKeyed(j, dKeys)
    ensures |dKeys| == |j.view.delta.rows|
  {
  }

  method Assemble(dicts: seq<Dict>, shifts: seq<nat>, rows: seq<Row>, keys: seq<nat>) returns (out: Snapshot)
    ensures fresh(out) && out.dicts == dicts && out.shifts == shifts && out.rows == rows && out.keys == keys
    ensures Scalars(out.Model())
  {
    out := new Snapshot(dicts, shifts);
    out.rows, out.keys := rows, keys;
    FoldScalars(out);
  }

  lemma MakeReady(sc: Schema, j: Job, ds: Dicts, used: seq<set<nat>>)
    requires ViewOK(sc, j.view) && DictsOK(sc, ds) && Renumbers(CombOf(j.view), ds, j.remap, used)
    requires Layout(j.shifts, IndexCards(sc, ds))
    requires forall s :: Survives(Job(j.view, j.cutoff, j.now, j.remap, []), s) ==> UsesOnly(used, RowOf(j.view, s).ids)
    ensures Ready(sc, j, ds, used)
  {
    hide ViewOK, DictsOK, Renumbers, Layout, UsesOnly;
    assert forall s :: Survives(j, s) ==> Survives(Job(j.view, j.cutoff, j.now, j.remap, []), s);
  }
}
