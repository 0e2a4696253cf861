// Two sorted runs, base rows and delta rows in key order, joined in one pass.
module Zip {
  import opened Packing
  import opened Bitmap
  import opened Table
  import opened Live
  import opened Insertion

  // ---- Renumbered ids ----

  // remap translates ids dimension by dimension; the empty remap is the identity.
  function MapId(remap: seq<seq<nat>>, d: nat, id: nat): nat {
    if d < |remap| && id < |remap[d]| then remap[d][id] else id
  }

  function NewIds(remap: seq<seq<nat>>, ids: seq<nat>): seq<nat> {
    seq(|ids|, d requires 0 <= d < |ids| => MapId(remap, d, ids[d]))
  }

  function KeyUnder(shifts: seq<nat>, remap: seq<seq<nat>>, ids: seq<nat>): nat {
    if |shifts| <= |ids| then KeyOf(shifts, NewIds(remap, ids)) else 0
  }

  predicate KeptRow(r: Row, cutoff: int, now: int) {
    r.updated >= cutoff && !Expired(r.expire, now)
  }

  // The merge's parameters, fixed for one run.
  datatype Job = Job(view: ViewV, cutoff: int, now: int, remap: seq<seq<nat>>, shifts: seq<nat>)

  predicate Survives(j: Job, s: Src) {
    IsLive(j.view, s) && KeptRow(RowOf(j.view, s), j.cutoff, j.now)
  }

  function SrcKey(j: Job, s: Src): nat
    requires IsLive(j.view, s)
  {
    KeyUnder(j.shifts, j.remap, RowOf(j.view, s).ids)
  }

  function NewRow(remap: seq<seq<nat>>, r: Row): Row {
    r.(ids := NewIds(remap, r.ids))
  }

  // The output: every survivor once, translated, in ascending key order.
  ghost predicate Zipped(j: Job, rows: seq<Row>, keys: seq<nat>, order: seq<Src>) {
    && Emits(j, rows, keys, order)
    && (forall s :: Survives(j, s) ==> s in order)
  }

  ghost predicate Emits(j: Job, rows: seq<Row>, keys: seq<nat>, order: seq<Src>) {
    && |rows| == |keys| == |order|
    && (forall i :: 0 <= i < |order| ==> Survives(j, order[i])
                                         && rows[i] == NewRow(j.remap, RowOf(j.view, order[i]))
                                         && keys[i] == SrcKey(j, order[i]))
    && Ascending(keys)
    && Distinct(order)
  }

  // ---- Progress of the two cursors ----

  ghost predicate SortedBy(p: seq<nat>, keys: seq<nat>) {
    && (forall i :: 0 <= i < |p| ==> p[i] < |keys|)
    && (forall i, k :: 0 <= i < k < |p| ==> keys[p[i]] <= keys[p[k]])
  }

  predicate Passed(s: Src, bi: nat, di: nat, perm: seq<nat>)
    requires di <= |perm|
  {
    match s
    case B(r) => r < bi
    case D(r) => r in perm[..di]
  }

  ghost predicate Progress(j: Job, rows: seq<Row>, keys: seq<nat>, order: seq<Src>, bi: nat, di: nat, perm: seq<nat>)
    requires di <= |perm|
  {
    && Emits(j, rows, keys, order)
    && (forall s :: s in order ==> Passed(s, bi, di, perm))
    && (forall s :: Survives(j, s) && Passed(s, bi, di, perm) ==> s in order)
    && (forall i, s :: 0 <= i < |keys| && Survives(j, s) && !Passed(s, bi, di, perm) ==> keys[i] <= SrcKey(j, s))
  }

  // Moving past sources that do not survive changes nothing.
  lemma ProgressSkip(j: Job, rows: seq<Row>, keys: seq<nat>, order: seq<Src>, bi: nat, di: nat, bi': nat, di': nat,
          perm: seq<nat>)
    requires di <= di' <= |perm| && bi <= bi' && Progress(j, rows, keys, order, bi, di, perm)
    requires forall r :: bi <= r < bi' ==> !Survives(j, B(r))
    requires forall i :: di <= i < di' ==> !Survives(j, D(perm[i]))
    ensures Progress(j, rows, keys, order, bi', di', perm)
  {
    forall s | Survives(j, s) ensures Passed(s, bi, di, perm) <==> Passed(s, bi', di', perm) {
      match s
      case B(r) =>
      case D(r) =>
        if r in perm[..di'] {
          var i :| 0 <= i < di' && perm[i] == r;
          assert i < di;
          assert perm[..di][i] == r;
        }
    }
    forall s | s in order ensures Passed(s, bi', di', perm) {
      var i :| 0 <= i < |order| && order[i] == s;
    }
  }

  // Emitting s, the least survivor still ahead.
  lemma ProgressTake(j: Job, rows: seq<Row>, keys: seq<nat>, order: seq<Src>, bi: nat, di: nat, bi': nat, di': nat,
          perm: seq<nat>, s: Src)
    requires di <= di' <= |perm| && Progress(j, rows, keys, order, bi, di, perm)
    requires Survives(j, s) && !Passed(s, bi, di, perm)
    requires forall t :: Passed(t, bi', di', perm) <==> t == s || Passed(t, bi, di, perm)
    requires forall t :: Survives(j, t) && !Passed(t, bi, di, perm) ==> SrcKey(j, s) <= SrcKey(j, t)
    ensures Progress(j, rows + [NewRow(j.remap, RowOf(j.view, s))], keys + [SrcKey(j, s)], order + [s], bi', di', perm)
  {
    var order' := order + [s];
    assert s !in order;
    assert Distinct(order');
    assert forall t :: t in order' <==> t == s || t in order;
  }

  lemma PassedBase(bi: nat, di: nat, perm: seq<nat>)
    requires di <= |perm|
    ensures forall t :: Passed(t, bi + 1, di, perm) <==> t == B(bi) || Passed(t, bi, di, perm)
  {
    forall t ensures Passed(t, bi + 1, di, perm) <==> t == B(bi) || Passed(t, bi, di, perm) {
      match t
      case B(r) =>
      case D(r) =>
    }
  }

  lemma PassedDelta(bi: nat, di: nat, perm: seq<nat>)
    requires di < |perm|
    ensures forall t :: Passed(t, bi, di + 1, perm) <==> t == D(perm[di]) || Passed(t, bi, di, perm)
  {
    assert perm[..di + 1] == perm[..di] + [perm[di]];
    forall t ensures Passed(t, bi, di + 1, perm) <==> t == D(perm[di]) || Passed(t, bi, di, perm) {
      match t
      case B(r) =>
      case D(r) =>
    }
  }

  // The base survivors' new keys ascend with their row numbers.
  ghost predicate BaseAscends(j: Job) {
    forall a, b :: 0 <= a < b && Survives(j, B(a)) && Survives(j, B(b)) ==> SrcKey(j, B(a)) <= SrcKey(j, B(b))
  }

  ghost predicate DeltaKeyed(j: Job, dKeys: seq<nat>) {
    && |dKeys| == |j.view.delta.rows|
    && forall r :: 0 <= r < |dKeys| ==> dKeys[r] == SrcKey(j, D(r))
  }

  // A base row whose key is at most the next delta key is the least survivor ahead.
  lemma BaseLeast(j: Job, bi: nat, di: nat, perm: seq<nat>, dKeys: seq<nat>)
    requires BaseAscends(j) && DeltaKeyed(j, dKeys) && Permutes(perm, |dKeys|) && SortedBy(perm, dKeys)
    requires di <= |perm| && Survives(j, B(bi))
    requires di == |perm| || SrcKey(j, B(bi)) <= dKeys[perm[di]]
    ensures forall t :: Survives(j, t) && !Passed(t, bi, di, perm) ==> SrcKey(j, B(bi)) <= SrcKey(j, t)
  {
    forall t | Survives(j, t) && !Passed(t, bi, di, perm) ensures SrcKey(j, B(bi)) <= SrcKey(j, t) {
      match t
      case B(r) =>
      case D(r) =>
        var i := Ahead(perm, di, r);
        assert dKeys[perm[di]] <= dKeys[perm[i]];
    }
  }

  lemma DeltaLeast(j: Job, bi: nat, di: nat, perm: seq<nat>, dKeys: seq<nat>)
    requires BaseAscends(j) && DeltaKeyed(j, dKeys) && Permutes(perm, |dKeys|) && SortedBy(perm, dKeys)
    requires di < |perm| && Survives(j, D(perm[di]))
    requires bi >= |j.view.base.rows| || (Survives(j, B(bi)) && dKeys[perm[di]] < SrcKey(j, B(bi)))
    ensures forall t :: Survives(j, t) && !Passed(t, bi, di, perm) ==> SrcKey(j, D(perm[di])) <= SrcKey(j, t)
  {
    forall t | Survives(j, t) && !Passed(t, bi, di, perm) ensures SrcKey(j, D(perm[di])) <= SrcKey(j, t) {
      match t
      case B(r) =>
        assert r >= bi;
        if r > bi {
          assert SrcKey(j, B(bi)) <= SrcKey(j, B(r));
        }
      case D(r) =>
        var i := Ahead(perm, di, r);
        assert dKeys[perm[di]] <= dKeys[perm[i]];
    }
  }

  lemma Ahead(perm: seq<nat>, di: nat, r: nat) returns (i: nat)
    requires di <= |perm| && r in perm && r !in perm[..di]
    ensures di <= i < |perm| && perm[i] == r
  {
    assert perm == perm[..di] + perm[di..];
    var k :| 0 <= k < |perm[di..]| && perm[di..][k] == r;
    i := di + k;
  }

  // ---- The loop ----

  // The next base row that survives, or the end.
  method SkipBase(j: Job, bi: nat) returns (b: nat)
    requires bi <= |j.view.base.rows|
    ensures bi <= b <= |j.view.base.rows|
    ensures forall r :: bi <= r < b ==> !Survives(j, B(r))
    ensures b < |j.view.base.rows| ==> Survives(j, B(b))
  {
    b := bi;
    while b < |j.view.base.rows| && (BitGet(j.view.overridden, b) || j.view.base.rows[b].updated < j.cutoff
                                     || Expired(j.view.base.rows[b].expire, j.now))
      invariant bi <= b <= |j.view.base.rows|
      invariant forall r :: bi <= r < b ==> !Survives(j, B(r))
    {
      b := b + 1;
    }
  }

  // The next delta row, in key order, that survives, or the end.
  method SkipDelta(j: Job, perm: seq<nat>, di: nat) returns (d: nat)
    requires di <= |perm| && forall i :: 0 <= i < |perm| ==> perm[i] < |j.view.delta.rows|
    ensures di <= d <= |perm|
    ensures forall i :: di <= i < d ==> !Survives(j, D(perm[i]))
    ensures d < |perm| ==> Survives(j, D(perm[d]))
  {
    d := di;
    while d < |perm|
      && (j.view.delta.rows[perm[d]].updated < j.cutoff || Expired(j.view.delta.rows[perm[d]].expire, j.now))
      invariant di <= d <= |perm|
      invariant forall i :: di <= i < d ==> !Survives(j, D(perm[i]))
    {
      d := d + 1;
    }
  }

  // Ids that pack under the new layout, for every survivor.
  ghost predicate Packable(j: Job) {
    forall s :: Survives(j, s) ==> Nested(j.shifts, NewIds(j.remap, RowOf(j.view, s).ids))
  }

  // The stored keys may be carried over verbatim.
  ghost predicate KeysStable(j: Job) {
    && |j.view.base.keys| == |j.view.base.rows|
    && forall r :: 0 <= r < |j.view.base.rows| && Survives(j, B(r)) ==> j.view.base.keys[r] == SrcKey(j, B(r))
  }

  method BaseKey(j: Job, stable: bool, r: nat) returns (k: nat)
    requires Survives(j, B(r)) && Packable(j) && (stable ==> KeysStable(j))
    ensures k == SrcKey(j, B(r))
  {
    if stable {
      return j.view.base.keys[r];
    }
    k := PackKey(j.shifts, NewIds(j.remap, j.view.base.rows[r].ids));
  }

  method ZipRows(j: Job, stable: bool, dKeys: seq<nat>, perm: seq<nat>)
    returns (rows: seq<Row>, keys: seq<nat>, ghost order: seq<Src>)
    requires Packable(j) && (stable ==> KeysStable(j))
    requires BaseAscends(j) && DeltaKeyed(j, dKeys) && Permutes(perm, |dKeys|) && SortedBy(perm, dKeys)
    ensures Zipped(j, rows, keys, order)
  {
    hide Progress, Survives, SrcKey, Passed, NewRow, Packable, KeysStable, BaseAscends, Zipped;
    var base := j.view.base.rows;
    rows, keys, order := [], [], [];
    var bi, di := 0, 0;
    var bk, bkValid := 0, false;
    ProgressStart(j, perm);
    while bi < |base| || di < |perm|
      invariant bi <= |base| && di <= |perm|
      invariant Progress(j, rows, keys, order, bi, di, perm)
      invariant bkValid ==> bi < |base| && IsLive(j.view, B(bi)) && Survives(j, B(bi)) && bk == SrcKey(j, B(bi))
      decreases |base| - bi + |perm| - di
    {
      var b := SkipBase(j, bi);
      if b != bi {
        bkValid := false;
      }
      var d := SkipDelta(j, perm, di);
      ProgressSkip(j, rows, keys, order, bi, di, b, d, perm);
      bi, di := b, d;
      if bi >= |base| && di >= |perm| {
        break;
      }
      if bi < |base| && !bkValid {
        bk := BaseKey(j, stable, bi);
        bkValid := true;
      }
      if bi < |base| && (di >= |perm| || bk <= dKeys[perm[di]]) {
        TakeBase(j, rows, keys, order, bi, di, perm, dKeys);
        rows, keys, order := rows + [NewRow(j.remap, base[bi])], keys + [bk], order + [B(bi)];
        bi, bkValid := bi + 1, false;
      } else {
        TakeDelta(j, rows, keys, order, bi, di, perm, dKeys);
        rows := rows + [NewRow(j.remap, j.view.delta.rows[perm[di]])];
        keys, order := keys + [dKeys[perm[di]]], order + [D(perm[di])];
        di := di + 1;
      }
    }
    ProgressEnd(j, rows, keys, order, bi, di, perm);
  }

  lemma ProgressStart(j: Job, perm: seq<nat>)
    ensures Progress(j, [], [], [], 0, 0, perm)
  {
    forall s ensures !Passed(s, 0, 0, perm) {
      match s
      case B(r) =>
      case D(r) =>
    }
  }

  lemma ProgressEnd(j: Job, rows: seq<Row>, keys: seq<nat>, order: seq<Src>, bi: nat, di: nat, perm: seq<nat>)
    requires di == |perm| && bi >= |j.view.base.rows| && Permutes(perm, |j.view.delta.rows|)
    requires Progress(j, rows, keys, order, bi, di, perm)
    ensures Zipped(j, rows, keys, order)
  {
    assert perm[..di] == perm;
    forall s | Survives(j, s) ensures s in order {
      assert Passed(s, bi, di, perm);
    }
  }

  lemma TakeBase(j: Job, rows: seq<Row>, keys: seq<nat>, order: seq<Src>, bi: nat, di: nat, perm: seq<nat>,
          dKeys: seq<nat>)
    requires BaseAscends(j) && DeltaKeyed(j, dKeys) && Permutes(perm, |dKeys|) && SortedBy(perm, dKeys)
    requires di <= |perm| && Progress(j, rows, keys, order, bi, di, perm) && Survives(j, B(bi))
    requires di == |perm| || SrcKey(j, B(bi)) <= dKeys[perm[di]]
    ensures Progress(j, rows + [NewRow(j.remap, j.view.base.rows[bi])], keys + [SrcKey(j, B(bi))], order + [B(bi)],
              bi + 1, di, perm)
  {
    hide Progress, SrcKey, NewRow;
    PassedBase(bi, di, perm);
    BaseLeast(j, bi, di, perm, dKeys);
    ProgressTake(j, rows, keys, order, bi, di, bi + 1, di, perm, B(bi));
  }

  lemma TakeDelta(j: Job, rows: seq<Row>, keys: seq<nat>, order: seq<Src>, bi: nat, di: nat, perm: seq<nat>,
          dKeys: seq<nat>)
    requires BaseAscends(j) && DeltaKeyed(j, dKeys) && Permutes(perm, |dKeys|) && SortedBy(perm, dKeys)
    requires di < |perm| && Progress(j, rows, keys, order, bi, di, perm) && Survives(j, D(perm[di]))
    requires bi >= |j.view.base.rows| || (Survives(j, B(bi)) && dKeys[perm[di]] < SrcKey(j, B(bi)))
    ensures Progress(j, rows + [NewRow(j.remap, j.view.delta.rows[perm[di]])], keys + [dKeys[perm[di]]],
              order + [D(perm[di])], bi, di + 1, perm)
  {
    hide Progress, SrcKey, NewRow;
    PassedDelta(bi, di, perm);
    DeltaLeast(j, bi, di, perm, dKeys);
    FreshDelta(di, perm, bi);
    ProgressTake(j, rows, keys, order, bi, di, bi, di + 1, perm, D(perm[di]));
  }

  lemma FreshDelta(di: nat, perm: seq<nat>, bi: nat)
    requires di < |perm| && Distinct(perm)
    ensures !Passed(D(perm[di]), bi, di, perm)
  {
    assert forall i :: 0 <= i < di ==> perm[..di][i] == perm[i];
  }
}
