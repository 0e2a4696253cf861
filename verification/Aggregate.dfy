// Aggregates: column resolution, the per-row fold with its distinct bitmaps, and the
// aggregate query.
module Aggregate {
  import opened Decimal
  import opened Bitmap
  import opened Table
  import Dictionary
  import opened Engine
  import opened Oracle
  import opened Upsert
  import opened Scratch
  import Planner
  import Expand
  import Match
  import opened PlanAll
  import opened Query
  import Live

  datatype Op = Sum | Count | Min | Max | Avg | CountDistinct

  datatype Agg = Agg(metric: string, dim: string, op: Op)

  // A resolved column: metric index (-1 for count and distinct), distinct dimension
  // (-1 for everything but distinct).
  datatype Column = Column(op: Op, met: int, ddim: int)

  predicate ColumnOK(sc: Schema, c: Column) {
    && -1 <= c.met < |sc.metrics| && -1 <= c.ddim < |sc.dims|
    && (c.op.CountDistinct? <==> c.ddim >= 0)
    && (c.op.CountDistinct? || c.op.Count? <==> c.met < 0)
  }

  predicate ColumnsOK(sc: Schema, cols: seq<Column>) {
    |cols| > 0 && forall j :: 0 <= j < |cols| ==> ColumnOK(sc, cols[j])
  }

  // What the caller may ask for.
  predicate WellFormedAgg(sc: Schema, a: Agg) {
    match a.op
    case CountDistinct => a.metric == "" && exists d :: 0 <= d < |sc.dims| && sc.dims[d].name == a.dim
    case Count => a.dim == "" && a.metric == ""
    case _ => a.dim == "" && a.metric in sc.metrics
  }

  predicate Resolves(sc: Schema, a: Agg, c: Column) {
    && ColumnOK(sc, c) && c.op == a.op
    && (c.met >= 0 ==> sc.metrics[c.met] == a.metric)
    && (c.ddim >= 0 ==> sc.dims[c.ddim].name == a.dim)
  }

  method MetricIndex(sc: Schema, name: string) returns (m: int)
    ensures -1 <= m < |sc.metrics|
    ensures m >= 0 ==> sc.metrics[m] == name
    ensures m < 0 ==> name !in sc.metrics
  {
    for i := 0 to |sc.metrics|
      invariant name !in sc.metrics[..i]
    {
      if sc.metrics[i] == name {
        return i;
      }
    }
    assert sc.metrics[..|sc.metrics|] == sc.metrics;
    m := -1;
  }

  method ResolveAggs(sc: Schema, aggs: seq<Agg>) returns (ok: bool, cols: seq<Column>)
    ensures ok <==> |aggs| > 0 && forall j :: 0 <= j < |aggs| ==> WellFormedAgg(sc, aggs[j])
    ensures ok ==> |cols| == |aggs| && forall j :: 0 <= j < |aggs| ==> Resolves(sc, aggs[j], cols[j])
  {
    cols := [];
    if |aggs| == 0 {
      return false, cols;
    }
    for j := 0 to |aggs|
      invariant |cols| == j && forall i :: 0 <= i < j ==> WellFormedAgg(sc, aggs[i]) && Resolves(sc, aggs[i], cols[i])
    {
      var a := aggs[j];
      if a.op.CountDistinct? {
        var d := sc.DimIndex(a.dim);
        if a.metric != "" || d < 0 {
          assert !WellFormedAgg(sc, a);
          return false, cols;
        }
        cols := cols + [Column(a.op, -1, d)];
      } else if a.op.Count? {
        if a.dim != "" || a.metric != "" {
          assert !WellFormedAgg(sc, a);
          return false, cols;
        }
        cols := cols + [Column(a.op, -1, -1)];
      } else {
        var mi := MetricIndex(sc, a.metric);
        if a.dim != "" || mi < 0 {
          assert !WellFormedAgg(sc, a);
          return false, cols;
        }
        cols := cols + [Column(a.op, mi, -1)];
      }
    }
    ok := true;
  }

  // ---- Meaning of a column ----

  // None is the source's NaN: no minimum, maximum or average of nothing.
  ghost predicate AggMeans(m: Contents, c: Column, out: Option<real>)
    requires (c.op.CountDistinct? <==> c.ddim >= 0) && (c.op.CountDistinct? || c.op.Count? <==> c.met < 0)
  {
    match c.op
    case Count => out == Some(|m| as real)
    case CountDistinct => out == Some(|ValuesOf(m, c.ddim)| as real)
    case Sum => out == Some(SumOf(m, c.met) as real)
    case Avg => out == if m == map[] then None else Some(SumOf(m, c.met) as real / |m| as real)
    case Min => if m == map[] then out.None? else exists x :: LeastMetric(m, c.met, x) && out == Some(x as real)
    case Max => if m == map[] then out.None? else exists x :: GreatestMetric(m, c.met, x) && out == Some(x as real)
  }

  // The finished column, from its accumulator and the row count.
  function Output(c: Column, acc: int, rows: nat): Option<real> {
    match c.op
    case Count => Some(rows as real)
    case Sum => Some(acc as real)
    case CountDistinct => Some(acc as real)
    case Avg => if rows > 0 then Some(acc as real / rows as real) else None
    case _ => if rows > 0 then Some(acc as real) else None
  }

  ghost function IdSet(rows: seq<Row>, d: nat): set<nat> {
    set x | x in rows && d < |x.ids| :: x.ids[d]
  }

  ghost predicate LeastRow(rows: seq<Row>, i: nat, x: int) {
    (forall r :: r in rows ==> x <= Metric(EntryOf(r), i)) && (exists r :: r in rows && Metric(EntryOf(r), i) == x)
  }

  ghost predicate GreatestRow(rows: seq<Row>, i: nat, x: int) {
    (forall r :: r in rows ==> Metric(EntryOf(r), i) <= x) && (exists r :: r in rows && Metric(EntryOf(r), i) == x)
  }

  // An accumulator that has folded exactly these rows.
  ghost predicate Folded(c: Column, acc: int, rows: seq<Row>) {
    if c.ddim >= 0 then acc == |IdSet(rows, c.ddim)|
    else if c.met < 0 then true
    else match c.op
         case Min => rows != [] ==> LeastRow(rows, c.met, acc)
         case Max => rows != [] ==> GreatestRow(rows, c.met, acc)
         case _ => acc == SumRows(rows, c.met)
  }

  lemma {:induction false} MapOfCard(sc: Schema, ds: Dicts, rows: seq<Row>)
    requires DictsOK(sc, ds) && RowsIn(sc, ds, rows) && UniqueIds(rows)
    ensures |MapOf(ds, rows)| == |rows|
  {
    hide DictsOK, InRange, Decode;
    if |rows| == 0 {
    } else {
      MapOfCard(sc, ds, rows[..|rows| - 1]);
      LastIsNew(sc, ds, rows);
    }
  }

  lemma {:induction false} ImageCard(ids: set<nat>, dict: seq<Value>, vals: set<Value>)
    requires Distinct(dict) && (forall i :: i in ids ==> i < |dict|)
    requires forall v :: v in vals <==> exists i :: i in ids && dict[i] == v
    ensures |vals| == |ids|
    decreases |ids|
  {
    if ids == {} {
      assert vals == {};
    } else {
      var i :| i in ids;
      assert dict[i] in vals;
      forall v ensures v in vals - {dict[i]} <==> exists k :: k in ids - {i} && dict[k] == v {
        if v in vals - {dict[i]} {
          var k :| k in ids && dict[k] == v;
          assert k in ids - {i};
        }
      }
      ImageCard(ids - {i}, dict, vals - {dict[i]});
    }
  }

  // Counting ids counts values: base and extra ids never name one value twice.
  lemma DistinctIsValues(sc: Schema, ds: Dicts, rows: seq<Row>, m: Contents, d: nat)
    requires DictsOK(sc, ds) && RowsIn(sc, ds, rows) && Lists(ds, rows, m) && d < |sc.dims|
    ensures |IdSet(rows, d)| == |ValuesOf(m, d)|
  {
    var (ids, vals) := (IdSet(rows, d), ValuesOf(m, d));
    forall v ensures v in vals <==> exists i :: i in ids && ds[d][i] == v {
      if v in vals {
        var t :| t in m && d < |t| && t[d] == v;
        var r :| 0 <= r < |rows| && Decode(ds, rows[r].ids) == t;
        assert rows[r] in rows && rows[r].ids[d] in ids;
      }
      if exists i :: i in ids && ds[d][i] == v {
        var i :| i in ids && ds[d][i] == v;
        var x :| x in rows && d < |x.ids| && x.ids[d] == i;
        var r :| 0 <= r < |rows| && rows[r] == x;
        assert Decode(ds, rows[r].ids)[d] == v;
      }
    }
    ImageCard(ids, ds[d], vals);
  }

  lemma ExtremeIsMetric(ds: Dicts, rows: seq<Row>, m: Contents, i: nat, x: int)
    requires Lists(ds, rows, m)
    ensures LeastRow(rows, i, x) ==> LeastMetric(m, i, x)
    ensures GreatestRow(rows, i, x) ==> GreatestMetric(m, i, x)
  {
    hide Decode;
    if LeastRow(rows, i, x) {
      forall t | t in m ensures x <= Metric(m[t], i) {
        var r := RowFor(ds, rows, m, t);
      }
      var r :| r in rows && Metric(EntryOf(r), i) == x;
      var t := TupleFor(ds, rows, m, r);
    }
    if GreatestRow(rows, i, x) {
      forall t | t in m ensures Metric(m[t], i) <= x {
        var r := RowFor(ds, rows, m, t);
      }
      var r :| r in rows && Metric(EntryOf(r), i) == x;
      var t := TupleFor(ds, rows, m, r);
    }
  }

  lemma RowFor(ds: Dicts, rows: seq<Row>, m: Contents, t: Tuple) returns (x: Row)
    requires Lists(ds, rows, m) && t in m
    ensures x in rows && m[t] == EntryOf(x)
  {
    var r :| 0 <= r < |rows| && Decode(ds, rows[r].ids) == t;
    x := rows[r];
  }

  lemma TupleFor(ds: Dicts, rows: seq<Row>, m: Contents, x: Row) returns (t: Tuple)
    requires Lists(ds, rows, m) && x in rows
    ensures t in m && m[t] == EntryOf(x)
  {
    var r :| 0 <= r < |rows| && rows[r] == x;
    t := Decode(ds, rows[r].ids);
  }

  // A column that folded these rows means the oracle's aggregate of the map they denote.
  lemma ColumnIsOracle(sc: Schema, ds: Dicts, rows: seq<Row>, c: Column, acc: int)
    requires DictsOK(sc, ds) && RowsIn(sc, ds, rows) && UniqueIds(rows)
    requires ColumnOK(sc, c) && Folded(c, acc, rows)
    ensures AggMeans(MapOf(ds, rows), c, Output(c, acc, |rows|))
  {
    hide DictsOK, RowsIn, UniqueIds, Lists, MapOf, LeastRow, LeastMetric, GreatestRow, GreatestMetric, IdSet, ValuesOf,
      SumRows, SumOf;
    var m := MapOf(ds, rows);
    MapOfCard(sc, ds, rows);
    MapOfLists(sc, ds, rows);
    if c.ddim >= 0 {
      DistinctIsValues(sc, ds, rows, m, c.ddim);
    } else if c.met >= 0 {
      SumRowsIsSumOf(sc, ds, rows, c.met);
      ExtremeIsMetric(ds, rows, m, c.met, acc);
    }
  }

  // ---- The fold ----

  // The row has what the column reads.
  predicate Reads(c: Column, bm: seq<nat>, row: Row) {
    && (c.ddim >= 0 ==> c.met < 0 && c.ddim < |row.ids| && row.ids[c.ddim] / 64 < |bm|)
    && (c.met >= 0 ==> c.met < |row.mets|)
  }

  // One row into one column. first marks the first matched row of the query.
  function FoldColumn(c: Column, acc: int, bm: seq<nat>, first: bool, row: Row): (int, seq<nat>)
    requires Reads(c, bm, row)
  {
    if c.ddim >= 0 then
      var id := row.ids[c.ddim];
      if BitGet(bm, id) then (acc, bm) else (acc + 1, BitSet(bm, id))
    else if c.met < 0 then (acc, bm)
    else
      var v := row.mets[c.met];
      match c.op
      case Min => (if first || v < acc then v else acc, bm)
      case Max => (if first || v > acc then v else acc, bm)
      case _ => (acc + v, bm)
  }

  // The bitmap of a distinct column holds exactly the ids seen.
  ghost predicate SeenBits(c: Column, bm: seq<nat>, rows: seq<Row>) {
    c.ddim >= 0 ==> forall id: nat :: BitGet(bm, id) <==> id in IdSet(rows, c.ddim)
  }

  lemma IdSetAdd(rows: seq<Row>, row: Row, d: nat)
    requires d < |row.ids|
    ensures IdSet(rows + [row], d) == IdSet(rows, d) + {row.ids[d]}
  {
    var (a, b) := (IdSet(rows, d), IdSet(rows + [row], d));
    forall id ensures id in b <==> id in a || id == row.ids[d] {
      if id in b {
        var x :| x in rows + [row] && d < |x.ids| && x.ids[d] == id;
      }
      if id in a {
        var x :| x in rows && d < |x.ids| && x.ids[d] == id;
        assert x in rows + [row];
      }
      assert row in rows + [row];
    }
  }

  lemma ExtremesAdd(rows: seq<Row>, row: Row, i: nat, acc: int)
    requires i < |row.mets|
    ensures LeastRow([row], i, row.mets[i]) && GreatestRow([row], i, row.mets[i])
    ensures LeastRow(rows, i, acc) ==> LeastRow(rows + [row], i, if row.mets[i] < acc then row.mets[i] else acc)
    ensures GreatestRow(rows, i, acc) ==> GreatestRow(rows + [row], i, if row.mets[i] > acc then row.mets[i] else acc)
  {
    assert row in [row] && row in rows + [row];
    forall r | r in rows ensures r in rows + [row] {
    }
  }

  lemma FoldStep(c: Column, acc: int, bm: seq<nat>, rows: seq<Row>, row: Row)
    requires Reads(c, bm, row)
    requires Folded(c, acc, rows) && SeenBits(c, bm, rows)
    ensures var (acc', bm') := FoldColumn(c, acc, bm, rows == [], row);
            Folded(c, acc', rows + [row]) && SeenBits(c, bm', rows + [row]) && |bm'| == |bm|
  {
    hide IdSet, LeastRow, GreatestRow, BitGet;
    if c.ddim >= 0 {
      FoldDistinct(c, acc, bm, rows, row);
    } else if c.met >= 0 {
      FoldMetric(c, acc, rows, row);
    }
  }

  lemma FoldDistinct(c: Column, acc: int, bm: seq<nat>, rows: seq<Row>, row: Row)
    requires c.ddim >= 0 && Reads(c, bm, row)
    requires acc == |IdSet(rows, c.ddim)| && SeenBits(c, bm, rows)
    ensures var (acc', bm') := FoldColumn(c, acc, bm, rows == [], row);
            acc' == |IdSet(rows + [row], c.ddim)| && SeenBits(c, bm', rows + [row]) && |bm'| == |bm|
  {
    hide IdSet, BitGet;
    IdSetAdd(rows, row, c.ddim);
    var id := row.ids[c.ddim];
    assert BitGet(bm, id) <==> id in IdSet(rows, c.ddim);
    if BitGet(bm, id) {
      assert IdSet(rows, c.ddim) + {id} == IdSet(rows, c.ddim);
    }
  }

  lemma SumRowsAdd(rows: seq<Row>, row: Row, i: nat)
    requires i < |row.mets|
    ensures SumRows(rows + [row], i) == SumRows(rows, i) + row.mets[i]
  {
    assert (rows + [row])[..|rows|] == rows;
  }

  lemma FoldMetric(c: Column, acc: int, rows: seq<Row>, row: Row)
    requires c.ddim < 0 <= c.met < |row.mets| && Folded(c, acc, rows)
    ensures Folded(c, FoldColumn(c, acc, [], rows == [], row).0, rows + [row])
  {
    hide IdSet, LeastRow, GreatestRow, SumRows;
    ExtremesAdd(rows, row, c.met, acc);
    SumRowsAdd(rows, row, c.met);
    if rows == [] {
      assert rows + [row] == [row];
    }
  }

  predicate RowFits(cols: seq<Column>, bms: seq<seq<nat>>, row: Row)
    requires |bms| == |cols|
  {
    forall j :: 0 <= j < |cols| ==> Reads(cols[j], bms[j], row)
  }

  ghost predicate AllFolded(cols: seq<Column>, acc: seq<int>, bms: seq<seq<nat>>, rows: seq<Row>)
  {
    && |acc| == |bms| == |cols|
    && forall j :: 0 <= j < |cols| ==> Folded(cols[j], acc[j], rows) && SeenBits(cols[j], bms[j], rows)
  }

  // foldAgg: every accumulator takes the row in, in place.
  method FoldAgg(cols: seq<Column>, acc: array<int>, bms: array<seq<nat>>, first: bool, row: Row, ghost rows: seq<Row>)
    requires acc.Length == bms.Length == |cols| && RowFits(cols, bms[..], row)
    requires first <==> rows == []
    requires AllFolded(cols, acc[..], bms[..], rows)
    modifies acc, bms
    ensures AllFolded(cols, acc[..], bms[..], rows + [row])
    ensures forall j :: 0 <= j < |cols| ==> |bms[j]| == old(|bms[j]|)
  {
    hide Folded, SeenBits, FoldColumn, BitGet;
    for j := 0 to |cols|
      invariant forall k :: 0 <= k < j ==>
                  Folded(cols[k], acc[k], rows + [row]) && SeenBits(cols[k], bms[k], rows + [row])
                  && |bms[k]| == old(|bms[k]|)
      invariant forall k :: j <= k < |cols| ==> acc[k] == old(acc[k]) && bms[k] == old(bms[k])
    {
      ghost var (acc0, bms0) := (old(acc[..]), old(bms[..]));
      assert Folded(cols[j], acc0[j], rows) && SeenBits(cols[j], bms0[j], rows);
      FoldStep(cols[j], acc[j], bms[j], rows, row);
      FoldOne(cols[j], acc, bms, j, first, row);
    }
  }

  method FoldOne(c: Column, acc: array<int>, bms: array<seq<nat>>, j: nat, first: bool, row: Row)
    requires j < acc.Length == bms.Length
    requires Reads(c, bms[j], row)
    modifies acc, bms
    ensures (acc[j], bms[j]) == FoldColumn(c, old(acc[j]), old(bms[j]), first, row)
    ensures forall k :: 0 <= k < acc.Length && k != j ==> acc[k] == old(acc[k]) && bms[k] == old(bms[k])
  {
    if c.ddim >= 0 {
      var id := row.ids[c.ddim];
      if !BitGet(bms[j], id) {
        bms[j] := BitSet(bms[j], id);
        acc[j] := acc[j] + 1;
      }
    } else if c.met >= 0 {
      var v := row.mets[c.met];
      match c.op
      case Min =>
        if first || v < acc[j] {
          acc[j] := v;
        }
      case Max =>
        if first || v > acc[j] {
          acc[j] := v;
        }
      case _ =>
        acc[j] := acc[j] + v;
    }
  }

  // ---- The aggregate query ----

  // Every distinct column's bitmap spans the combined cardinality of its dimension.
  ghost predicate Sized(sc: Schema, comb: Dicts, cols: seq<Column>, bms: seq<seq<nat>>) {
    && |bms| == |cols| && |comb| == |sc.dims|
    && forall j :: 0 <= j < |cols| ==>
         ColumnOK(sc, cols[j]) && (cols[j].ddim >= 0 ==> |comb[cols[j].ddim]| <= 64 * |bms[j]|)
  }

  lemma SizedFits(sc: Schema, comb: Dicts, cols: seq<Column>, bms: seq<seq<nat>>, row: Row)
    requires Sized(sc, comb, cols, bms) && InRange(comb, row.ids) && |row.mets| == |sc.metrics|
    ensures RowFits(cols, bms, row)
  {
  }

  lemma SizedStays(sc: Schema, comb: Dicts, cols: seq<Column>, a: seq<seq<nat>>, b: seq<seq<nat>>)
    requires Sized(sc, comb, cols, a) && |a| == |b| && forall j :: 0 <= j < |a| ==> |a[j]| == |b[j]|
    ensures Sized(sc, comb, cols, b)
  {
  }

  // The state after folding these hits.
  ghost predicate Running(sc: Schema, m: ViewV, cols: seq<Column>, acc: seq<int>, bms: seq<seq<nat>>,
          hits: seq<Row>, rows: nat) {
    Sized(sc, CombOf(m), cols, bms) && AllFolded(cols, acc, bms, hits) && rows == |hits|
  }

  method AggBase(s: Sweep, v: View, ghost now: int, cols: seq<Column>, acc: array<int>, bms: array<seq<nat>>)
    returns (rows: nat, ghost visited: seq<nat>)
    requires v.Valid(s.sc) && SweepOK(s, v.Model(), now)
    requires acc.Length == bms.Length == |cols| && Running(s.sc, v.Model(), cols, acc[..], bms[..], [], 0)
    modifies acc, bms
    ensures Running(s.sc, v.Model(), cols, acc[..], bms[..], BaseHits(s.sc, v.Model(), s.groups, now, |v.base.rows|),
              rows)
    ensures Swept(s.ivs, |s.ivs|, HighWater(s.ivs, |s.ivs|), visited)
  {
    hide View.Valid, SweepOK, BaseHits, BaseHit, Running, Swept;
    ghost var m := v.Model();
    rows := 0;
    NoBaseHits(s, m, now);
    var done := 0;
    visited := [];
    SweptStart(s.ivs);
    for i := 0 to |s.ivs|
      invariant done == HighWater(s.ivs, i)
      invariant v.Valid(s.sc) && v.Model() == m
      invariant Running(s.sc, m, cols, acc[..], bms[..], BaseHits(s.sc, m, s.groups, now, done), rows)
      invariant Swept(s.ivs, i, done, visited)
    {
      var lo, hi := s.ivs[i].lo, s.ivs[i].hi;
      EnterInterval(s, m, now, i);
      SweptEnter(s.ivs, i, visited);
      if lo < done {
        lo := done;
      }
      if hi <= done {
        SweptSkipAt(s, m, now, i, visited);
        continue;
      }
      rows, visited := AggSpan(s, v, now, cols, acc, bms, rows, i, lo, visited);
      SweptLeaveAt(s, m, now, i, visited);
      done := hi;
    }
    LeaveIntervals(s, m, now);
  }

  // The row loop of one interval.
  method AggSpan(s: Sweep, v: View, ghost now: int, cols: seq<Column>, acc: array<int>, bms: array<seq<nat>>,
          rows0: nat, i: nat, lo: nat, ghost visited0: seq<nat>)
    returns (rows: nat, ghost visited: seq<nat>)
    requires v.Valid(s.sc) && SweepOK(s, v.Model(), now) && i < |s.ivs| && lo <= s.ivs[i].hi <= |v.base.rows|
    requires acc.Length == bms.Length == |cols|
    requires Running(s.sc, v.Model(), cols, acc[..], bms[..], BaseHits(s.sc, v.Model(), s.groups, now, lo), rows0)
    requires Swept(s.ivs, i, lo, visited0) && HighWater(s.ivs, i) <= lo && s.ivs[i].lo <= lo
    modifies acc, bms
    ensures Running(s.sc, v.Model(), cols, acc[..], bms[..], BaseHits(s.sc, v.Model(), s.groups, now, s.ivs[i].hi),
              rows)
    ensures Swept(s.ivs, i, s.ivs[i].hi, visited)
  {
    hide View.Valid, SweepOK, BaseHits, BaseHit, Running, Swept, HighWater;
    ghost var m := v.Model();
    rows, visited := rows0, visited0;
    for r := lo to s.ivs[i].hi
      invariant v.Valid(s.sc) && v.Model() == m
      invariant Running(s.sc, m, cols, acc[..], bms[..], BaseHits(s.sc, m, s.groups, now, r), rows)
      invariant Swept(s.ivs, i, r, visited)
    {
      var hit := TestBase(s, v, now, r);
      HitsStep(s, m, now, r);
      if hit {
        HitIsLive(s, m, now, Live.Src.B(r));
        rows := FoldHit(s.sc, m, cols, acc, bms, rows, v.base.rows[r], BaseHits(s.sc, m, s.groups, now, r),
          Live.Src.B(r));
      }
      SweptRow(s.ivs, i, r, visited);
      visited := visited + [r];
    }
  }

  lemma NoBaseHits(s: Sweep, m: ViewV, now: int)
    ensures BaseHits(s.sc, m, s.groups, now, 0) == []
  {
  }

  lemma HitIsLive(s: Sweep, m: ViewV, now: int, src: Live.Src)
    requires SweepOK(s, m, now) && IsHit(s.sc, m, s.groups, now, src)
    ensures ViewOK(s.sc, m) && Live.IsLive(m, src)
  {
    hide ViewOK, Planner.PoolsWellFormed, MatchesAny, Decode;
  }

  // A matched row of either kind is folded in.
  method FoldHit(ghost sc: Schema, ghost m: ViewV, cols: seq<Column>, acc: array<int>, bms: array<seq<nat>>,
          rows0: nat, row: Row, ghost hits: seq<Row>, ghost src: Live.Src)
    returns (rows: nat)
    requires ViewOK(sc, m) && Live.IsLive(m, src) && Live.RowOf(m, src) == row
    requires acc.Length == bms.Length == |cols| && Running(sc, m, cols, acc[..], bms[..], hits, rows0)
    modifies acc, bms
    ensures Running(sc, m, cols, acc[..], bms[..], hits + [row], rows)
  {
    hide ViewOK, AllFolded, RowFits, InRange, Sized;
    Live.LiveInRange(sc, m, src);
    SizedFits(sc, CombOf(m), cols, bms[..], row);
    ghost var was := bms[..];
    FoldAgg(cols, acc, bms, rows0 == 0, row, hits);
    SizedStays(sc, CombOf(m), cols, was, bms[..]);
    rows := rows0 + 1;
  }

  method AggDelta(s: Sweep, v: View, ghost now: int, cols: seq<Column>, acc: array<int>, bms: array<seq<nat>>,
          rows0: nat)
    returns (rows: nat)
    requires v.Valid(s.sc) && SweepOK(s, v.Model(), now)
    requires acc.Length == bms.Length == |cols|
    requires Running(s.sc, v.Model(), cols, acc[..], bms[..], BaseHits(s.sc, v.Model(), s.groups, now, |v.base.rows|),
               rows0)
    modifies acc, bms
    ensures Running(s.sc, v.Model(), cols, acc[..], bms[..], AllHits(s.sc, v.Model(), s.groups, now), rows)
  {
    hide View.Valid, SweepOK, BaseHits, DeltaHit, Running;
    ghost var m := v.Model();
    rows := rows0;
    for r := 0 to |v.delta.rows|
      invariant v.Valid(s.sc) && v.Model() == m
      invariant Running(s.sc, m, cols, acc[..], bms[..], Hits(s.sc, m, s.groups, now, r), rows)
    {
      var hit := TestDelta(s, v, now, r);
      DeltaStep(s, m, now, r);
      if hit {
        HitIsLive(s, m, now, Live.Src.D(r));
        rows := FoldHit(s.sc, m, cols, acc, bms, rows, v.delta.rows[r], Hits(s.sc, m, s.groups, now, r), Live.Src.D(r));
      }
    }
  }

  // One bitmap per distinct column, all bits clear; accumulators at zero.
  method FreshColumns(sc: Schema, v: View, cols: seq<Column>) returns (acc: array<int>, bms: array<seq<nat>>)
    requires v.Valid(sc) && ColumnsOK(sc, cols)
    ensures fresh(acc) && fresh(bms) && acc.Length == bms.Length == |cols|
    ensures Running(sc, v.Model(), cols, acc[..], bms[..], [], 0)
  {
    hide View.Valid, BitGet, CombOf;
    CombLen(sc, v);
    var bits: seq<seq<nat>> := [];
    for j := 0 to |cols|
      invariant |bits| == j && forall k :: 0 <= k < j ==> (forall id: nat :: !BitGet(bits[k], id))
      invariant forall k :: 0 <= k < j && cols[k].ddim >= 0 ==> |CombOf(v.Model())[cols[k].ddim]| <= 64 * |bits[k]|
    {
      var bm := FreshBits(sc, v, cols[j]);
      bits := bits + [bm];
    }
    acc := new int[|cols|](_ => 0);
    bms := new seq<nat>[|cols|](i requires 0 <= i < |bits| => bits[i]);
    assert bms[..] == bits;
    StartFolded(cols, acc[..], bms[..]);
  }

  method FreshBits(sc: Schema, v: View, c: Column) returns (bm: seq<nat>)
    requires v.Valid(sc) && ColumnOK(sc, c)
    ensures |CombOf(v.Model())| == |sc.dims| && forall id: nat :: !BitGet(bm, id)
    ensures c.ddim >= 0 ==> |CombOf(v.Model())[c.ddim]| <= 64 * |bm|
  {
    hide SnapOK, DeltaOK, Shadowing, RowsIn, DictsOK, Dictionary.Dict.Valid, BitGet;
    bm := Zeros(0);
    if c.ddim >= 0 {
      var card := |v.base.dicts[c.ddim].vals| + |v.extras[c.ddim].vals|;
      assert card == |CombOf(v.Model())[c.ddim]|;
      bm := Zeros(card);
    }
  }

  lemma StartFolded(cols: seq<Column>, acc: seq<int>, bms: seq<seq<nat>>)
    requires |acc| == |bms| == |cols| && forall k :: 0 <= k < |cols| ==>
               acc[k] == 0 && forall id: nat :: !BitGet(bms[k], id)
    ensures AllFolded(cols, acc, bms, [])
  {
    forall d: nat ensures IdSet([], d) == {} {
    }
  }

  method Finish(cols: seq<Column>, acc: seq<int>, rows: nat) returns (dst: seq<Option<real>>)
    requires |acc| == |cols|
    ensures |dst| == |cols| && forall j :: 0 <= j < |cols| ==> dst[j] == Output(cols[j], acc[j], rows)
  {
    dst := [];
    for j := 0 to |cols|
      invariant |dst| == j && forall k :: 0 <= k < j ==> dst[k] == Output(cols[k], acc[k], rows)
    {
      dst := dst + [Output(cols[j], acc[j], rows)];
    }
  }

  // Every output column means the oracle's aggregate over the selection.
  ghost predicate AllMean(sel: Contents, cols: seq<Column>, out: seq<Option<real>>) {
    && |out| == |cols|
    && forall j :: 0 <= j < |cols| ==>
      (cols[j].op.CountDistinct? <==> cols[j].ddim >= 0)
        && (cols[j].op.CountDistinct? || cols[j].op.Count? <==> cols[j].met < 0)
      && AggMeans(sel, cols[j], out[j])
  }

  lemma ColumnsAreOracle(sc: Schema, m: ViewV, groups: seq<Group>, now: int, cols: seq<Column>, acc: seq<int>,
          bms: seq<seq<nat>>, out: seq<Option<real>>)
    requires ViewOK(sc, m) && ColumnsOK(sc, cols) && AllFolded(cols, acc, bms, AllHits(sc, m, groups, now))
    requires |out| == |cols| && forall j :: 0 <= j < |cols| ==>
               out[j] == Output(cols[j], acc[j], |AllHits(sc, m, groups, now)|)
    ensures AllMean(Selected(sc, Abs(m), groups, now), cols, out)
  {
    hide ViewOK, AllHits, MapOf, Selected, Abs, Folded, SeenBits, AggMeans, Output, DictsOK, RowsIn;
    HitsAreSelected(sc, m, groups, now);
    forall j | 0 <= j < |cols| ensures AggMeans(Selected(sc, Abs(m), groups, now), cols[j], out[j]) {
      ColumnIsOracle(sc, CombOf(m), AllHits(sc, m, groups, now), cols[j], acc[j]);
    }
  }

  // QueryAggs: the answer is the oracle's, column by column. Bad aggregates and
  // malformed queries are refused before any row is read.
  method QueryAggs(sc: Schema, v: View, aggs: seq<Agg>, groups: seq<Group>, maxScan: int, now: int, prev: Caps)
    returns (badAggs: bool, r: Answer<seq<Option<real>>>, cols: seq<Column>, ghost rooms: seq<Option<nat>>,
             ghost visited: seq<nat>)
    requires v.Valid(sc)
    ensures badAggs <==> !(|aggs| > 0 && forall j :: 0 <= j < |aggs| ==> WellFormedAgg(sc, aggs[j]))
    ensures !badAggs ==> |cols| == |aggs| && forall j :: 0 <= j < |aggs| ==> Resolves(sc, aggs[j], cols[j])
    ensures !badAggs ==> Decided(sc, v.Model(), groups, |aggs|, prev, maxScan, rooms, r)
    ensures !badAggs && r.Result? ==> AllMean(Selected(sc, v.Contents(), groups, now), cols, r.value)
    ensures !badAggs && r.Result? ==> Visits(visited, ReachSet(sc, v.Model(), groups, rooms))
  {
    hide View.Valid, AnyInvalid, SweepOK, Match.Planned, Room, Selected, AllHits, BaseHits, AllFolded, Sized, AllMean,
      Expand.IvsOK, Covered, CountAll, ProductAll, DemandAll, Output, WellFormedAgg, ReachSet, RoomsOK,
      CapsFor, Decided, TooWide, Swept, Visits, HighWater;
    ghost var m := v.Model();
    var ok;
    ok, cols := ResolveAggs(sc, aggs);
    badAggs := !ok;
    r := Answer.NoGroups;
    rooms, visited := [], [];
    if ok {
      assert ColumnsOK(sc, cols) by {
        assert forall j :: 0 <= j < |aggs| ==> Resolves(sc, aggs[j], cols[j]);
      }
      var qs, stack := Route(groups, |aggs|, prev);
      assert v.Valid(sc) && v.Model() == m;
      var plan;
      plan, rooms := PlanGroups(sc, v, groups, qs, maxScan, |aggs|);
      assert v.Valid(sc) && v.Model() == m;
      match plan {
        case NoGroups =>
        case BadCond => r := BadCondition;
        case OverBudget => r := ScanBudget;
        case Ready =>
          ghost var ivs := qs.ivs;
          var out;
          out, visited := RunAggs(sc, v, groups, qs, now, cols);
          VisitsAreCovered(ivs, |v.base.rows|, visited);
          r := Result(out);
      }
      Decide(sc, v, groups, |aggs|, prev, maxScan, rooms, plan, r);
    }
  }

  method RunAggs(sc: Schema, v: View, groups: seq<Group>, qs: QueryScratch, now: int, cols: seq<Column>)
    returns (out: seq<Option<real>>, ghost visited: seq<nat>)
    requires v.Valid(sc) && qs.Valid() && ByLo(qs.ivs) && Expand.IvsOK(qs.ivs, |v.base.rows|)
    requires Match.Planned(sc, v.Model(), groups, qs.plans, qs.Pools(), qs.ivs) && ColumnsOK(sc, cols)
    ensures AllMean(Selected(sc, v.Contents(), groups, now), cols, out)
    ensures Swept(qs.ivs, |qs.ivs|, HighWater(qs.ivs, |qs.ivs|), visited)
  {
    hide View.Valid, SweepOK, Match.Planned, Selected, AllHits, BaseHits, Sized, AllFolded, AllMean, Expand.IvsOK,
      Output, ColumnsOK,
      Swept, HighWater;
    ghost var m := v.Model();
    var acc, bms := FreshColumns(sc, v, cols);
    assert v.Valid(sc) && v.Model() == m;
    var s := Prepare(sc, v, groups, qs, now);
    var rows;
    rows, visited := AggBase(s, v, now, cols, acc, bms);
    assert v.Valid(sc) && v.Model() == m;
    rows := AggDelta(s, v, now, cols, acc, bms, rows);
    assert v.Valid(sc) && v.Model() == m;
    out := Finish(cols, acc[..], rows);
    ValidView(sc, v);
    ColumnsAreOracle(sc, m, groups, now, cols, acc[..], bms[..], out);
  }
}
