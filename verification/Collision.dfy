// Distinct columns that share a byte of the seen set: exactly then some table makes a
// grouped query miscount.
module Collision {
  import Packing
  import opened Decimal
  import opened Table
  import opened Oracle
  import opened Upsert
  import opened Query
  import opened Aggregate
  import opened GroupBy
  import Unmerged

  // What a grouped query over a valid view returned.
  ghost predicate Reports(sc: Schema, m: ViewV, cols: seq<Column>, bys: seq<nat>, groups: seq<Group>, now: int,
          out: seq<GroupOut>)
  {
    ViewOK(sc, m) && Computed(CombOf(m), cols, bys, AllHits(sc, m, groups, now), out)
  }

  // ---- Two rows ----

  // The victim of a shared byte.
  lemma Victim(cols: seq<Column>, bys: seq<nat>) returns (a: nat, b: nat)
    requires Collides(cols, bys)
    ensures a < |cols| && b < |cols| && a != b && cols[a].ddim >= 0 && cols[b].ddim >= 0
    ensures a % COLUMN_BITS == b % COLUMN_BITS && (cols[b].ddim as nat) !in bys
              && (cols[a].ddim == cols[b].ddim ==> a < b)
  {
    var j, k :| 0 <= j < k < |cols| && cols[j].ddim >= 0 && cols[k].ddim >= 0 && k % COLUMN_BITS == j % COLUMN_BITS
                && (cols[j].ddim !in bys || cols[k].ddim !in bys);
    if cols[k].ddim !in bys {
      a, b := j, k;
    } else {
      a, b := k, j;
    }
  }

  function LoneRow(nd: nat, nm: nat, d: int, id: nat): Row {
    Row(seq(nd, (i: nat) => if i == d then id else 0), seq(nm, (_: nat) => 0), 0, 0)
  }

  // Two rows of one group whose ids in column b differ, and whose visits count them as one.
  lemma TwoRows(sc: Schema, ds: Dicts, cols: seq<Column>, bys: seq<nat>) returns (x: Row, y: Row, b: nat, d: nat)
    requires Collides(cols, bys) && ColumnsOK(sc, cols) && forall i :: 0 <= i < |bys| ==> bys[i] < |sc.dims|
    ensures b < |cols| && cols[b].ddim == d && d < |sc.dims| && cols[b].op.CountDistinct?
    ensures KeyIds(x, bys) == KeyIds(y, bys) && |x.ids| == |y.ids| == |sc.dims| && x.ids[d] != y.ids[d]
    ensures {x, y} == {LoneRow(|sc.dims|, |sc.metrics|, d, 0), LoneRow(|sc.dims|, |sc.metrics|, d, 1)}
    ensures |FoldAll(ds, cols, bys, [x, y]).saggs| == 1 && |FoldAll(ds, cols, bys, [x, y]).saggs[0]| == |cols|
    ensures FoldAll(ds, cols, bys, [x, y]).saggs[0][b] == 1
  {
    hide Collides, ColumnsOK, FoldAll, KeyIds;
    var a;
    a, b := Victim(cols, bys);
    ColumnAt(sc, cols, a);
    ColumnAt(sc, cols, b);
    d := cols[b].ddim;
    x, y := LoneRow(|sc.dims|, |sc.metrics|, d, 1), LoneRow(|sc.dims|, |sc.metrics|, d, 0);
    if cols[a].ddim == d {
      x, y := y, x;
    }
    PlainKeys(|sc.dims|, |sc.metrics|, bys, d);
    PairMissed(ds, cols, bys, x, y, a, b);
  }

  lemma ColumnAt(sc: Schema, cols: seq<Column>, j: nat)
    requires ColumnsOK(sc, cols) && j < |cols| && cols[j].ddim >= 0
    ensures cols[j].ddim < |sc.dims| && cols[j].op.CountDistinct?
  {
    assert ColumnOK(sc, cols[j]);
  }

  // Rows that differ in a dimension no group is made by fall into one group.
  lemma PlainKeys(nd: nat, nm: nat, bys: seq<nat>, d: nat)
    requires d !in bys
    ensures KeyIds(LoneRow(nd, nm, d, 0), bys) == KeyIds(LoneRow(nd, nm, d, 1), bys)
  {
  }

  lemma PairMissed(ds: Dicts, cols: seq<Column>, bys: seq<nat>, x: Row, y: Row, a: nat, b: nat)
    requires a < |cols| && b < |cols| && cols[a].ddim >= 0 && cols[b].ddim >= 0 && a % COLUMN_BITS == b % COLUMN_BITS
    requires KeyIds(x, bys) == KeyIds(y, bys)
    requires if cols[a].ddim == cols[b].ddim then a < b else IdAt(x, cols[a].ddim) == IdAt(y, cols[b].ddim)
    ensures var st := FoldAll(ds, cols, bys, [x, y]);
            |st.saggs| == 1 && |st.saggs[0]| == |cols| && st.saggs[0][b] == 1
  {
    hide KeyIds, Visited;
    SecondMissed(ds, cols, bys, x, y, a, b);
    assert [x, y] == [] + [x] + [y];
    FoldAdd(ds, cols, bys, [], x);
    FoldAdd(ds, cols, bys, [] + [x], y);
  }

  // The second row's id in column b is already in the set, left there by column a.
  lemma SecondMissed(ds: Dicts, cols: seq<Column>, bys: seq<nat>, x: Row, y: Row, a: nat, b: nat)
    requires a < |cols| && b < |cols| && cols[a].ddim >= 0 && cols[b].ddim >= 0 && a % COLUMN_BITS == b % COLUMN_BITS
    requires KeyIds(x, bys) == KeyIds(y, bys)
    requires if cols[a].ddim == cols[b].ddim then a < b else IdAt(x, cols[a].ddim) == IdAt(y, cols[b].ddim)
    ensures var st := Visited(ds, cols, bys, NO_GROUPS, x);
            && (forall k :: k in st.idx ==> st.idx[k] < |st.cnt| && |st.saggs[st.idx[k]]| == |cols|)
            && var st' := Visited(ds, cols, bys, st, y);
            |st'.saggs| == 1 && |st'.saggs[0]| == |cols| && st'.saggs[0][b] == 1
  {
    hide KeyIds, SpellIds;
    var st := Visited(ds, cols, bys, NO_GROUPS, x);
    var st' := Visited(ds, cols, bys, st, y);
    assert KeyFor(cols, b, 0, y) in st.dset + RowKeys(cols, b, 0, y) by {
      if cols[a].ddim == cols[b].ddim {
        assert KeyFor(cols, a, 0, y) in RowKeys(cols, b, 0, y);
      } else {
        assert KeyFor(cols, a, 0, x) in RowKeys(cols, |cols|, 0, x);
      }
    }
    assert st'.saggs[0] == NextRow(cols, st.dset, 0, FirstRow(cols, x), y);
  }

  lemma TwoIds(x: Row, y: Row, d: nat)
    requires d < |x.ids| && d < |y.ids| && x.ids[d] != y.ids[d]
    ensures |IdSet([x, y], d)| == 2
  {
    IdSetAdd([], x, d);
    IdSetAdd([x], y, d);
    NoIds(d);
    assert [] + [x] == [x] && [x] + [y] == [x, y];
  }

  // ---- A table holding them ----

  function TwoValues(isInt: bool): seq<Value> {
    if isInt then [Num(0), Num(1)] else [Str([0]), Str([1])]
  }

  // Two values in every dictionary, two rows.
  function PairView(sc: Schema, x: Row, y: Row): ViewV {
    Unmerged.RowsView(sc, TwoEach(sc), [x, y])
  }

  function TwoEach(sc: Schema): Dicts {
    seq(|sc.dims|, d requires 0 <= d < |sc.dims| => TwoValues(sc.dims[d].isInt))
  }

  lemma PairViewOK(sc: Schema, d: nat, x: Row, y: Row)
    requires sc.Valid() && d < |sc.dims| && x.ids != y.ids
    requires {x, y} == {LoneRow(|sc.dims|, |sc.metrics|, d, 0), LoneRow(|sc.dims|, |sc.metrics|, d, 1)}
    ensures ViewOK(sc, PairView(sc, x, y)) && CombOf(PairView(sc, x, y)) == TwoEach(sc)
    ensures Abs(PairView(sc, x, y)) == MapOf(TwoEach(sc), [x, y]) && |Abs(PairView(sc, x, y))| == 2
  {
    hide ViewOK, Plain, TwoEach, MapOf, Abs, CombOf;
    TwoEachOK(sc);
    TwoRowsIn(sc, d, x, y);
    Unmerged.RowsViewOK(sc, TwoEach(sc), [x, y]);
    MapOfCard(sc, TwoEach(sc), [x, y]);
  }

  lemma TwoEachOK(sc: Schema)
    ensures DictsOK(sc, TwoEach(sc)) && |TwoEach(sc)| == |sc.dims|
  {
  }

  lemma TwoRowsIn(sc: Schema, d: nat, x: Row, y: Row)
    requires {x, y} == {LoneRow(|sc.dims|, |sc.metrics|, d, 0), LoneRow(|sc.dims|, |sc.metrics|, d, 1)}
    ensures RowsIn(sc, TwoEach(sc), [x, y]) && Unmerged.Unstamped([x, y])
  {
    assert x in {x, y} && y in {x, y};
  }

  // With no condition the whole table is selected.
  lemma PairHits(sc: Schema, d: nat, x: Row, y: Row, now: int)
    requires {x, y} == {LoneRow(|sc.dims|, |sc.metrics|, d, 0), LoneRow(|sc.dims|, |sc.metrics|, d, 1)}
    ensures AllHits(sc, PairView(sc, x, y), [[]], now) == [x, y]
  {
    hide Decode, MatchesAny, TwoEach, CombOf;
    var m := PairView(sc, x, y);
    assert x in {x, y} && y in {x, y};
    assert x.expire == 0 && y.expire == 0;
    forall t: Tuple ensures MatchesAny(sc, t, [[]]) {
      AnyRow(sc, t);
    }
    assert m.base.rows == [] && m.delta.rows == [x, y];
    assert Hits(sc, m, [[]], now, 0) == BaseHits(sc, m, [[]], now, 0) == [];
    assert DeltaHit(sc, m, [[]], now, 0) && DeltaHit(sc, m, [[]], now, 1);
    assert Hits(sc, m, [[]], now, 1) == [] + [x];
    assert Hits(sc, m, [[]], now, 2) == [] + [x] + [y];
  }

  lemma AnyRow(sc: Schema, t: Tuple)
    ensures MatchesAny(sc, t, [[]])
  {
    assert Matches(sc, t, [[]][0]);
  }

  // ---- The miscount ----

  // The selection holds two values of column b in one share, and every result says one.
  ghost predicate Miscounted(sc: Schema, m: ViewV, cols: seq<Column>, bys: seq<nat>, now: int, b: nat,
          out: seq<GroupOut>) {
    && b < |cols| && cols[b].op.CountDistinct? && cols[b].ddim >= 0 && |out| == 1 && b < |out[0].aggs|
    && out[0].aggs[b] == Some(1.0)
    && |ValuesOf(Share(Selected(sc, Abs(m), [[]], now), bys, out[0].key), cols[b].ddim)| == 2
  }

  // Whenever two distinct columns collide, a valid view of two rows makes the query
  // without conditions miscount.
  lemma CollisionMiscounts(sc: Schema, cols: seq<Column>, bys: seq<nat>, now: int)
    returns (m: ViewV, b: nat, some: seq<GroupOut>)
    requires sc.Valid() && Collides(cols, bys) && ColumnsOK(sc, cols) && forall i :: 0 <= i < |bys| ==>
               bys[i] < |sc.dims|
    ensures Reports(sc, m, cols, bys, [[]], now, some)
    ensures forall out :: Reports(sc, m, cols, bys, [[]], now, out) ==> Miscounted(sc, m, cols, bys, now, b, out)
  {
    hide ViewOK, FoldAll, Collides, Packing.Layout, AllHits, Computed, Miscounted, CombOf, ColumnsOK, PairView, KeyIds;
    var x, y, d;
    var ds := TwoEach(sc);
    x, y, b, d := TwoRows(sc, ds, cols, bys);
    assert x.ids != y.ids;
    m := PairView(sc, x, y);
    PairViewOK(sc, d, x, y);
    PairHits(sc, d, x, y, now);
    some := OneGroup(ds, cols, bys, [x, y]);
    forall out | Reports(sc, m, cols, bys, [[]], now, out) ensures Miscounted(sc, m, cols, bys, now, b, out) {
      OneCounted(sc, m, cols, bys, now, b, x, y, out);
    }
  }

  lemma OneGroup(ds: Dicts, cols: seq<Column>, bys: seq<nat>, rows: seq<Row>) returns (out: seq<GroupOut>)
    requires var st := FoldAll(ds, cols, bys, rows);
             |st.saggs| == 1 && |st.saggs[0]| == |cols|
    ensures Computed(ds, cols, bys, rows, out)
  {
    hide FoldAll;
    var st := FoldAll(ds, cols, bys, rows);
    var aggs := seq(|cols|, j requires 0 <= j < |cols| => Output(cols[j], st.saggs[0][j], st.cnt[0]));
    out := [GroupOut(st.skeys[0], aggs)];
    var ord: seq<nat> := [0];
    assert FinishedRow(cols, st, ord[0], out[0]);
    assert 0 in ord;
    assert Finished(cols, st, ord, out) && KeysAscend(st.skeys, ord);
  }

  lemma OneCounted(sc: Schema, m: ViewV, cols: seq<Column>, bys: seq<nat>, now: int, b: nat, x: Row, y: Row,
          out: seq<GroupOut>)
    requires Reports(sc, m, cols, bys, [[]], now, out) && AllHits(sc, m, [[]], now) == [x, y]
    requires ColumnsOK(sc, cols) && forall i :: 0 <= i < |bys| ==> bys[i] < |sc.dims|
    requires b < |cols| && cols[b].op.CountDistinct? && 0 <= cols[b].ddim < |sc.dims|
    requires KeyIds(x, bys) == KeyIds(y, bys) && IdAt(x, cols[b].ddim) != IdAt(y, cols[b].ddim)
    requires var st := FoldAll(CombOf(m), cols, bys, [x, y]);
             |st.saggs| == 1 && |st.saggs[0]| == |cols| && st.saggs[0][b] == 1
    ensures Miscounted(sc, m, cols, bys, now, b, out)
  {
    hide *;
    var (ds, d) := (CombOf(m), cols[b].ddim);
    ReportParts(sc, m, cols, bys, [[]], now, out);
    CombOK(sc, m);
    HitsAreSelected(sc, m, [[]], now);
    ComputedIsPartition(sc, m, [[]], now, cols, bys, out);
    OneShown(ds, cols, bys, [x, y], b, out);
    TwoSelected(sc, ds, x, y, d);
    OneShare(Selected(sc, Abs(m), [[]], now), cols, bys, out);
    MiscountedBy(sc, m, cols, bys, now, b, out);
  }

  lemma MiscountedBy(sc: Schema, m: ViewV, cols: seq<Column>, bys: seq<nat>, now: int, b: nat, out: seq<GroupOut>)
    requires b < |cols| && cols[b].op.CountDistinct? && cols[b].ddim >= 0 && |out| == 1 && b < |out[0].aggs|
    requires out[0].aggs[b] == Some(1.0)
    requires Share(Selected(sc, Abs(m), [[]], now), bys, out[0].key) == Selected(sc, Abs(m), [[]], now)
    requires |ValuesOf(Selected(sc, Abs(m), [[]], now), cols[b].ddim)| == 2
    ensures Miscounted(sc, m, cols, bys, now, b, out)
  {
    hide Selected, Abs, Share, ValuesOf;
  }

  lemma OneShown(ds: Dicts, cols: seq<Column>, bys: seq<nat>, rows: seq<Row>, b: nat, out: seq<GroupOut>)
    requires Computed(ds, cols, bys, rows, out) && b < |cols| && cols[b].op.CountDistinct?
    requires var st := FoldAll(ds, cols, bys, rows);
             |st.saggs| == 1 && |st.saggs[0]| == |cols| && st.saggs[0][b] == 1
    ensures |out| == 1 && b < |out[0].aggs| && out[0].aggs[b] == Some(1.0)
  {
    hide FoldAll, KeysAscend;
    var st := FoldAll(ds, cols, bys, rows);
    var ord :| Finished(cols, st, ord, out) && KeysAscend(st.skeys, ord);
    assert FinishedRow(cols, st, ord[0], out[0]);
  }

  lemma TwoSelected(sc: Schema, ds: Dicts, x: Row, y: Row, d: nat)
    requires DictsOK(sc, ds) && RowsIn(sc, ds, [x, y]) && UniqueIds([x, y]) && d < |sc.dims| && IdAt(x, d) != IdAt(y, d)
    ensures |ValuesOf(MapOf(ds, [x, y]), d)| == 2
  {
    hide DictsOK, MapOf, RowsIn, UniqueIds, IdSet, ValuesOf;
    assert x in [x, y] && y in [x, y];
    RowsAll(sc, ds, [x, y]);
    CombWidth(sc, ds);
    TwoIds(x, y, d);
    MapOfLists(sc, ds, [x, y]);
    DistinctIsValues(sc, ds, [x, y], MapOf(ds, [x, y]), d);
  }

  lemma CombWidth(sc: Schema, ds: Dicts)
    requires DictsOK(sc, ds)
    ensures |ds| == |sc.dims|
  {
  }

  // One output row: its share is the whole selection.
  lemma OneShare(sel: Contents, cols: seq<Column>, bys: seq<nat>, out: seq<GroupOut>)
    requires Partition(sel, cols, bys, out) && |out| == 1
    ensures Share(sel, bys, out[0].key) == sel
  {
    hide KeysStrict, ShareMeans, TupleKey, KeyNames;
    forall t | t in sel ensures TupleKey(t, bys) == out[0].key {
    }
  }

  // A result means what it says on every view, group and clock exactly when no two
  // distinct columns collide.
  lemma MeansUnlessCollides(sc: Schema, cols: seq<Column>, bys: seq<nat>)
    requires sc.Valid() && ColumnsOK(sc, cols) && forall i :: 0 <= i < |bys| ==> bys[i] < |sc.dims|
    ensures (forall m, groups, now, out :: Reports(sc, m, cols, bys, groups, now, out) ==>
              AllColumnsMean(Selected(sc, Abs(m), groups, now), cols, bys, out))
            <==> !Collides(cols, bys)
  {
    hide Reports, AllColumnsMean, Collides, Selected, Abs, ColumnsOK;
    if Collides(cols, bys) {
      var m, b, out := CollisionMiscounts(sc, cols, bys, 0);
      NotMeant(sc, m, cols, bys, 0, b, out);
      assert Reports(sc, m, cols, bys, [[]], 0, out) && !AllColumnsMean(Selected(sc, Abs(m), [[]], 0), cols, bys, out);
    } else {
      forall m, groups, now, out | Reports(sc, m, cols, bys, groups, now, out)
        ensures AllColumnsMean(Selected(sc, Abs(m), groups, now), cols, bys, out)
      {
        ReportMeans(sc, m, cols, bys, groups, now, out);
      }
    }
  }

  lemma NotMeant(sc: Schema, m: ViewV, cols: seq<Column>, bys: seq<nat>, now: int, b: nat, out: seq<GroupOut>)
    requires Miscounted(sc, m, cols, bys, now, b, out)
    ensures !AllColumnsMean(Selected(sc, Abs(m), [[]], now), cols, bys, out)
  {
    hide Share, ValuesOf, Selected, Abs;
    assert !ColumnMeans(Selected(sc, Abs(m), [[]], now), cols, bys, out, 0, b);
  }

  lemma ReportMeans(sc: Schema, m: ViewV, cols: seq<Column>, bys: seq<nat>, groups: seq<Group>, now: int,
          out: seq<GroupOut>)
    requires Reports(sc, m, cols, bys, groups, now, out) && !Collides(cols, bys)
    requires ColumnsOK(sc, cols) && forall i :: 0 <= i < |bys| ==> bys[i] < |sc.dims|
    ensures AllColumnsMean(Selected(sc, Abs(m), groups, now), cols, bys, out)
  {
    hide *;
    ReportParts(sc, m, cols, bys, groups, now, out);
    ComputedIsPartition(sc, m, groups, now, cols, bys, out);
    NoCollisionMeans(Selected(sc, Abs(m), groups, now), cols, bys, out);
  }

  lemma ReportParts(sc: Schema, m: ViewV, cols: seq<Column>, bys: seq<nat>, groups: seq<Group>, now: int,
          out: seq<GroupOut>)
    requires Reports(sc, m, cols, bys, groups, now, out)
    ensures ViewOK(sc, m) && Computed(CombOf(m), cols, bys, AllHits(sc, m, groups, now), out)
  {
  }
}
