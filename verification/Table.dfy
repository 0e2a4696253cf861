// The stored table as values: schema, dictionaries, rows, base snapshot, delta
// overlay and view, the invariant they keep, and the map they denote.
module Table {
  import opened Bitmap
  import opened Decimal
  import opened Packing

  // ---- Schema and rows ----

  const MAX_DIMS := 16

  datatype Dim = Dim(name: string, isInt: bool)

  datatype Schema = Schema(dims: seq<Dim>, indexDims: nat, metrics: seq<string>) {
    predicate Valid() {
      && 1 <= |dims| <= MAX_DIMS
      && 1 <= indexDims <= |dims|
      && |metrics| >= 1
      && (forall i, j :: 0 <= i < j < |dims| ==> dims[i].name != dims[j].name)
    }

    // The dimension of that name, or -1.
    function DimIndex(name: string): (d: int)
      ensures -1 <= d < |dims|
      ensures d >= 0 ==> dims[d].name == name
      ensures d < 0 ==> forall i :: 0 <= i < |dims| ==> dims[i].name != name
    {
      FirstNamed(dims, name, 0)
    }

    static function FirstNamed(dims: seq<Dim>, name: string, i: nat): (d: int)
      requires i <= |dims|
      ensures d == -1 || i <= d < |dims|
      ensures d >= 0 ==> dims[d].name == name
      ensures d < 0 ==> forall j :: i <= j < |dims| ==> dims[j].name != name
      decreases |dims| - i
    {
      if i == |dims| then -1
      else if dims[i].name == name then i
      else FirstNamed(dims, name, i + 1)
    }
  }

  // The smallest schema: one label, one metric.
  const ONE_LABEL := Schema([Dim("a", false)], 1, ["m"])

  // A dimension value: opaque label, or the integer itself.
  datatype Value = Str(text: Text) | Num(n: int)

  // A stored row: one id per dimension, one number per metric, unix milliseconds.
  // expire 0 means the row never expires.
  datatype Row = Row(ids: seq<nat>, mets: seq<int>, updated: int, expire: int)

  // What a row says about its tuple.
  datatype Entry = Entry(mets: seq<int>, updated: int, expire: int)

  type Tuple = seq<Value>
  type Dicts = seq<seq<Value>>
  type Contents = map<Tuple, Entry>

  function EntryOf(r: Row): Entry { Entry(r.mets, r.updated, r.expire) }

  // Dimension d's id, 0 where the row has none.
  function IdAt(row: Row, d: int): nat {
    if 0 <= d < |row.ids| then row.ids[d] else 0
  }

  // Metric i, 0 where the row has none.
  function MetAt(row: Row, i: int): int {
    if 0 <= i < |row.mets| then row.mets[i] else 0
  }

  predicate Expired(expire: int, now: int) { expire != 0 && expire <= now }

  // ---- Dictionaries ----

  ghost predicate Distinct<T>(s: seq<T>) {
    forall i, j :: 0 <= i < j < |s| ==> s[i] != s[j]
  }

  predicate KindOK(v: Value, isInt: bool) {
    v.Num? == isInt && (isInt ==> Int64(v.n))
  }

  ghost predicate DictOK(dict: seq<Value>, isInt: bool) {
    Distinct(dict) && forall i :: 0 <= i < |dict| ==> KindOK(dict[i], isInt)
  }

  ghost predicate DictsOK(sc: Schema, ds: Dicts) {
    |ds| == |sc.dims| && forall d :: 0 <= d < |ds| ==> DictOK(ds[d], sc.dims[d].isInt)
  }

  // Every dictionary keeps its entries and may gain new ones behind them.
  ghost predicate Extends(ds: Dicts, ds': Dicts) {
    |ds| == |ds'| && forall d :: 0 <= d < |ds| ==> ds[d] <= ds'[d]
  }

  lemma ExtendsRefl(ds: Dicts)
    ensures Extends(ds, ds)
  {
  }

  lemma ExtendsTrans(a: Dicts, b: Dicts, c: Dicts)
    requires Extends(a, b) && Extends(b, c)
    ensures Extends(a, c)
  {
    assert forall d :: 0 <= d < |a| ==> a[d] <= b[d] && b[d] <= c[d];
  }

  function Cards(ds: Dicts): seq<nat> {
    seq(|ds|, d requires 0 <= d < |ds| => |ds[d]|)
  }

  function ValueAt(ds: Dicts, d: nat, id: nat): Value {
    if d < |ds| && id < |ds[d]| then ds[d][id] else Str([])
  }

  function Decode(ds: Dicts, ids: seq<nat>): Tuple {
    seq(|ids|, d requires 0 <= d < |ids| => ValueAt(ds, d, ids[d]))
  }

  ghost predicate InRange(ds: Dicts, ids: seq<nat>) {
    |ids| == |ds| && forall d :: 0 <= d < |ds| ==> ids[d] < |ds[d]|
  }

  lemma DecodeInjective(sc: Schema, ds: Dicts, a: seq<nat>, b: seq<nat>)
    requires DictsOK(sc, ds) && InRange(ds, a) && InRange(ds, b)
    ensures Decode(ds, a) == Decode(ds, b) <==> a == b
  {
    if Decode(ds, a) == Decode(ds, b) {
      forall d | 0 <= d < |a| ensures a[d] == b[d] {
        assert Decode(ds, a)[d] == ds[d][a[d]] && Decode(ds, b)[d] == ds[d][b[d]];
        assert Distinct(ds[d]);
      }
    }
  }

  lemma DecodeExtend(ds: Dicts, ds': Dicts, ids: seq<nat>)
    requires Extends(ds, ds') && InRange(ds, ids)
    ensures InRange(ds', ids) && Decode(ds', ids) == Decode(ds, ids)
  {
    forall d | 0 <= d < |ids| ensures ids[d] < |ds'[d]| && ValueAt(ds', d, ids[d]) == ValueAt(ds, d, ids[d]) {
      assert ds[d] <= ds'[d];
    }
  }

  // ---- Rows and the map they denote ----

  ghost predicate RowsIn(sc: Schema, ds: Dicts, rows: seq<Row>) {
    forall r :: 0 <= r < |rows| ==> InRange(ds, rows[r].ids) && |rows[r].mets| == |sc.metrics|
  }

  ghost predicate UniqueIds(rows: seq<Row>) {
    forall i, j :: 0 <= i < j < |rows| ==> rows[i].ids != rows[j].ids
  }

  ghost function MapOf(ds: Dicts, rows: seq<Row>): Contents {
    if |rows| == 0 then map[]
    else
      var last := rows[|rows| - 1];
      MapOf(ds, rows[..|rows| - 1])[Decode(ds, last.ids) := EntryOf(last)]
  }

  lemma {:induction false} MapOfLookup(sc: Schema, ds: Dicts, rows: seq<Row>, r: nat)
    requires DictsOK(sc, ds) && RowsIn(sc, ds, rows) && UniqueIds(rows) && r < |rows|
    ensures Decode(ds, rows[r].ids) in MapOf(ds, rows)
    ensures MapOf(ds, rows)[Decode(ds, rows[r].ids)] == EntryOf(rows[r])
  {
    var n := |rows| - 1;
    if r == n {
    } else {
      MapOfLookup(sc, ds, rows[..n], r);
      DecodeInjective(sc, ds, rows[r].ids, rows[n].ids);
    }
  }

  lemma {:induction false} MapOfKey(ds: Dicts, rows: seq<Row>, t: Tuple) returns (r: nat)
    requires t in MapOf(ds, rows)
    ensures r < |rows| && Decode(ds, rows[r].ids) == t
  {
    var n := |rows| - 1;
    if Decode(ds, rows[n].ids) == t {
      r := n;
    } else {
      r := MapOfKey(ds, rows[..n], t);
    }
  }

  // The map is exactly the rows, each under its decoded tuple.
  ghost predicate Lists(ds: Dicts, rows: seq<Row>, m: Contents) {
    && (forall r :: 0 <= r < |rows| ==> Decode(ds, rows[r].ids) in m && m[Decode(ds, rows[r].ids)] == EntryOf(rows[r]))
    && (forall t :: t in m ==> exists r :: 0 <= r < |rows| && Decode(ds, rows[r].ids) == t)
  }

  lemma MapOfLists(sc: Schema, ds: Dicts, rows: seq<Row>)
    requires DictsOK(sc, ds) && RowsIn(sc, ds, rows) && UniqueIds(rows)
    ensures Lists(ds, rows, MapOf(ds, rows))
  {
    forall r | 0 <= r < |rows|
      ensures Decode(ds, rows[r].ids) in MapOf(ds, rows) && MapOf(ds, rows)[Decode(ds, rows[r].ids)] == EntryOf(rows[r])
    {
      MapOfLookup(sc, ds, rows, r);
    }
    forall t | t in MapOf(ds, rows) ensures exists r :: 0 <= r < |rows| && Decode(ds, rows[r].ids) == t {
      var r := MapOfKey(ds, rows, t);
    }
  }

  // Rows denote one map only.
  lemma ListsUnique(ds: Dicts, rows: seq<Row>, m: Contents, m': Contents)
    requires Lists(ds, rows, m) && Lists(ds, rows, m')
    ensures m == m'
  {
    forall t | t in m ensures t in m' && m'[t] == m[t] {
      var r :| 0 <= r < |rows| && Decode(ds, rows[r].ids) == t;
    }
    forall t | t in m' ensures t in m {
      var r :| 0 <= r < |rows| && Decode(ds, rows[r].ids) == t;
    }
  }

  lemma {:induction false} MapOfExtend(sc: Schema, ds: Dicts, ds': Dicts, rows: seq<Row>)
    requires Extends(ds, ds') && RowsIn(sc, ds, rows)
    ensures RowsIn(sc, ds', rows)
    ensures MapOf(ds', rows) == MapOf(ds, rows)
  {
    forall r | 0 <= r < |rows| ensures InRange(ds', rows[r].ids) {
      DecodeExtend(ds, ds', rows[r].ids);
    }
    if |rows| == 0 {
    } else {
      MapOfExtend(sc, ds, ds', rows[..|rows| - 1]);
      DecodeExtend(ds, ds', rows[|rows| - 1].ids);
    }
  }

  lemma MapOfSnoc(ds: Dicts, rows: seq<Row>, x: Row)
    ensures MapOf(ds, rows + [x]) == MapOf(ds, rows)[Decode(ds, x.ids) := EntryOf(x)]
  {
    assert (rows + [x])[..|rows|] == rows;
  }

  lemma {:induction false} MapOfReplace(sc: Schema, ds: Dicts, rows: seq<Row>, i: nat, x: Row)
    requires DictsOK(sc, ds) && RowsIn(sc, ds, rows) && UniqueIds(rows)
    requires i < |rows| && x.ids == rows[i].ids
    ensures MapOf(ds, rows[i := x]) == MapOf(ds, rows)[Decode(ds, x.ids) := EntryOf(x)]
    decreases |rows|
  {
    hide Decode, MapOf, DictsOK;
    var (n, init) := (|rows| - 1, rows[..|rows| - 1]);
    var y := rows[n];
    assert rows == init + [y];
    MapOfSnoc(ds, init, y);
    if i == n {
      assert rows[i := x] == init + [x];
      MapOfSnoc(ds, init, x);
    } else {
      MapOfReplace(sc, ds, init, i, x);
      assert rows[i := x] == init[i := x] + [y];
      MapOfSnoc(ds, init[i := x], y);
      DecodeInjective(sc, ds, x.ids, y.ids);
    }
  }

  // ---- Scalars kept beside the rows ----

  function Max(a: int, b: int): int { if a >= b then a else b }

  // Largest updated over the rows, never below 0.
  function MaxUpdated(rows: seq<Row>): int {
    if |rows| == 0 then 0 else Max(MaxUpdated(rows[..|rows| - 1]), rows[|rows| - 1].updated)
  }

  // One trackMin step on minUpdated: 0 doubles as "none seen".
  function TrackUpdated(min: int, updated: int): int {
    if min == 0 || updated < min then updated else min
  }

  // One trackMin step on minExpire.
  function TrackExpire(min: int, expire: int): int {
    if expire != 0 && (min == 0 || expire < min) then expire else min
  }

  function MinUpdated(rows: seq<Row>): int {
    if |rows| == 0 then 0 else TrackUpdated(MinUpdated(rows[..|rows| - 1]), rows[|rows| - 1].updated)
  }

  function MinExpire(rows: seq<Row>): int {
    if |rows| == 0 then 0 else TrackExpire(MinExpire(rows[..|rows| - 1]), rows[|rows| - 1].expire)
  }

  // MaxUpdated is an upper bound that is attained, or 0.
  lemma {:induction false} MaxUpdatedExact(rows: seq<Row>)
    ensures forall r :: 0 <= r < |rows| ==> rows[r].updated <= MaxUpdated(rows)
    ensures MaxUpdated(rows) >= 0
    ensures MaxUpdated(rows) == 0 || exists r :: 0 <= r < |rows| && rows[r].updated == MaxUpdated(rows)
  {
    if |rows| == 0 {
    } else {
      var n := |rows| - 1;
      MaxUpdatedExact(rows[..n]);
      assert forall r :: 0 <= r < n ==> rows[..n][r] == rows[r];
      if MaxUpdated(rows) != 0 && MaxUpdated(rows) != rows[n].updated {
        var r :| 0 <= r < n && rows[..n][r].updated == MaxUpdated(rows[..n]);
        assert rows[r].updated == MaxUpdated(rows);
      }
    }
  }

  // MinExpire is exact for every table: 0 iff nothing expires, otherwise the
  // smallest non-zero expiry.
  lemma {:induction false} MinExpireExact(rows: seq<Row>)
    ensures forall r :: 0 <= r < |rows| && rows[r].expire != 0 ==>
              MinExpire(rows) != 0 && MinExpire(rows) <= rows[r].expire
    ensures MinExpire(rows) != 0 ==> exists r :: 0 <= r < |rows| && rows[r].expire == MinExpire(rows)
  {
    if |rows| == 0 {
    } else {
      var n := |rows| - 1;
      MinExpireExact(rows[..n]);
      assert forall r :: 0 <= r < n ==> rows[..n][r] == rows[r];
      if MinExpire(rows) != 0 && MinExpire(rows) != rows[n].expire {
        var r :| 0 <= r < n && rows[..n][r].expire == MinExpire(rows[..n]);
        assert rows[r].expire == MinExpire(rows);
      }
    }
  }

  // Hence one comparison decides whether any row is expired.
  lemma ExpiryShortcut(rows: seq<Row>, now: int)
    ensures (MinExpire(rows) != 0 && MinExpire(rows) <= now) <==>
              (exists r :: 0 <= r < |rows| && Expired(rows[r].expire, now))
  {
    MinExpireExact(rows);
    if MinExpire(rows) != 0 && MinExpire(rows) <= now {
      var r :| 0 <= r < |rows| && rows[r].expire == MinExpire(rows);
      assert Expired(rows[r].expire, now);
    }
  }

  ghost predicate LeastUpdated(rows: seq<Row>, m: int) {
    && (forall r :: 0 <= r < |rows| ==> m <= rows[r].updated)
    && (exists r :: 0 <= r < |rows| && rows[r].updated == m)
  }

  // A row stamped 0 is mistaken for "none seen" and forgotten by the next row.
  ghost predicate ZeroForgotten(rows: seq<Row>) {
    && |rows| > 0 && rows[|rows| - 1].updated > 0
    && (forall r :: 0 <= r < |rows| ==> rows[r].updated >= 0)
    && (exists r :: 0 <= r < |rows| && rows[r].updated == 0)
  }

  lemma {:induction false} MinUpdatedShape(rows: seq<Row>)
    requires |rows| > 0
    ensures (exists r :: 0 <= r < |rows| && rows[r].updated == MinUpdated(rows))
    ensures (exists r :: 0 <= r < |rows| && rows[r].updated < 0) ==> LeastUpdated(rows, MinUpdated(rows))
    ensures (forall r :: 0 <= r < |rows| ==> rows[r].updated > 0) ==> LeastUpdated(rows, MinUpdated(rows))
    ensures rows[|rows| - 1].updated == 0 ==> MinUpdated(rows) <= 0
    ensures rows[|rows| - 1].updated > 0 ==> MinUpdated(rows) != 0
  {
    var n := |rows| - 1;
    var init := rows[..n];
    assert forall r :: 0 <= r < n ==> init[r] == rows[r];
    if n > 0 {
      MinUpdatedShape(init);
      var p :| 0 <= p < n && init[p].updated == MinUpdated(init);
      assert rows[p].updated == MinUpdated(init) && rows[n].updated == rows[|rows| - 1].updated;
      if exists r :: 0 <= r < |rows| && rows[r].updated < 0 {
        if exists r :: 0 <= r < n && init[r].updated < 0 {
          assert LeastUpdated(init, MinUpdated(init));
        } else {
          assert rows[n].updated < 0;
        }
      }
    } else {
      assert rows[0].updated == MinUpdated(rows);
    }
  }

  // A forgotten zero leaves a positive minimum.
  lemma ForgottenShape(rows: seq<Row>)
    requires ZeroForgotten(rows)
    ensures MinUpdated(rows) > 0
  {
    MinUpdatedShape(rows);
    var r :| 0 <= r < |rows| && rows[r].updated == MinUpdated(rows);
  }

  // minUpdated is the least updated exactly when no zero stamp was forgotten.
  lemma MinUpdatedExact(rows: seq<Row>)
    requires |rows| > 0
    ensures LeastUpdated(rows, MinUpdated(rows)) <==> !ZeroForgotten(rows)
  {
    MinUpdatedShape(rows);
    if exists r :: 0 <= r < |rows| && rows[r].updated < 0 {
    } else if forall r :: 0 <= r < |rows| ==> rows[r].updated > 0 {
    } else {
      var z :| 0 <= z < |rows| && rows[z].updated == 0;
      if rows[|rows| - 1].updated == 0 {
        assert LeastUpdated(rows, MinUpdated(rows));
      }
    }
  }

  // ---- Snapshot, delta, view ----

  datatype SnapV = SnapV(dicts: Dicts, shifts: seq<nat>, rows: seq<Row>, keys: seq<nat>,
                         maxUpdated: int, minUpdated: int, minExpire: int)

  datatype DeltaV = DeltaV(rows: seq<Row>, index: map<seq<nat>, nat>, maxUpdated: int, hasExpiry: bool)

  datatype ViewV = ViewV(base: SnapV, delta: DeltaV, extras: Dicts, overridden: seq<nat>)

  ghost predicate Ascending(keys: seq<nat>) {
    forall i, j :: 0 <= i < j < |keys| ==> keys[i] <= keys[j]
  }

  function IndexCards(sc: Schema, ds: Dicts): seq<nat>
    requires sc.indexDims <= |ds|
  {
    Cards(ds)[..sc.indexDims]
  }

  // keys[r] is row r's packed index prefix, and rows are stored by ascending key.
  ghost predicate Keyed(sc: Schema, s: SnapV)
    requires sc.indexDims <= |s.dicts| == |sc.dims|
    requires RowsIn(sc, s.dicts, s.rows)
  {
    && Layout(s.shifts, IndexCards(sc, s.dicts))
    && |s.keys| == |s.rows|
    && (forall r :: 0 <= r < |s.rows| ==> s.keys[r] == KeyOf(s.shifts, s.rows[r].ids))
    && Ascending(s.keys)
  }

  ghost predicate Scalars(s: SnapV) {
    && s.maxUpdated == MaxUpdated(s.rows)
    && s.minUpdated == MinUpdated(s.rows)
    && s.minExpire == MinExpire(s.rows)
  }

  ghost predicate SnapOK(sc: Schema, s: SnapV) {
    && sc.Valid()
    && DictsOK(sc, s.dicts)
    && RowsIn(sc, s.dicts, s.rows)
    && UniqueIds(s.rows)
    && Keyed(sc, s)
    && Scalars(s)
  }

  // The combined id space: base ids first, then extras.
  function Comb(base: Dicts, extras: Dicts): Dicts {
    seq(|base|, d requires 0 <= d < |base| => base[d] + (if d < |extras| then extras[d] else []))
  }

  // The tuple index finds every delta row, and nothing else.
  ghost predicate Indexed(d: DeltaV) {
    && (forall r :: 0 <= r < |d.rows| ==> d.rows[r].ids in d.index && d.index[d.rows[r].ids] == r)
    && (forall k :: k in d.index ==> d.index[k] < |d.rows| && d.rows[d.index[k]].ids == k)
  }

  // A base row is marked exactly when delta holds its tuple, never an older one.
  ghost predicate Shadowing(base: seq<Row>, d: DeltaV, overridden: seq<nat>)
    requires Indexed(d)
  {
    forall r: nat :: r < |base| ==>
      (BitGet(overridden, r) <==> base[r].ids in d.index)
      && (base[r].ids in d.index ==> base[r].updated <= d.rows[d.index[base[r].ids]].updated)
  }

  ghost predicate DeltaOK(d: DeltaV) {
    && Indexed(d)
    && d.maxUpdated == MaxUpdated(d.rows)
    && (!d.hasExpiry ==> forall r :: 0 <= r < |d.rows| ==> d.rows[r].expire == 0)
  }

  ghost predicate ViewOK(sc: Schema, v: ViewV) {
    && SnapOK(sc, v.base)
    && |v.extras| == |sc.dims|
    && DictsOK(sc, Comb(v.base.dicts, v.extras))
    && RowsIn(sc, Comb(v.base.dicts, v.extras), v.delta.rows)
    && DeltaOK(v.delta)
    && Shadowing(v.base.rows, v.delta, v.overridden)
    && (v.overridden == [] || |v.base.rows| <= 64 * |v.overridden|)
  }

  // The map a view denotes: delta entries shadow base entries of the same tuple.
  ghost function Abs(v: ViewV): Contents {
    var ds := Comb(v.base.dicts, v.extras);
    MapOf(ds, v.base.rows) + MapOf(ds, v.delta.rows)
  }

  function EmptySnap(sc: Schema, shifts: seq<nat>): SnapV {
    SnapV(seq(|sc.dims|, (_: nat) => []), shifts, [], [], 0, 0, 0)
  }

  function NewView(sc: Schema, base: SnapV): ViewV {
    ViewV(base, DeltaV([], map[], 0, false), seq(|sc.dims|, (_: nat) => []), [])
  }

  lemma CombExtends(base: Dicts, extras: Dicts)
    requires |base| == |extras|
    ensures Extends(base, Comb(base, extras))
  {
  }

  // A view over a fresh base denotes exactly the base.
  lemma NewViewOK(sc: Schema, base: SnapV)
    requires SnapOK(sc, base)
    ensures ViewOK(sc, NewView(sc, base))
    ensures Abs(NewView(sc, base)) == MapOf(base.dicts, base.rows)
  {
    var v := NewView(sc, base);
    var ds := Comb(base.dicts, v.extras);
    assert forall d :: 0 <= d < |ds| ==> ds[d] == base.dicts[d];
    assert ds == base.dicts;
  }

  // Empty dictionaries take one bit each.
  lemma {:induction false} NarrowEmpty(n: nat)
    requires n <= MAX_DIMS
    ensures Width(seq(n, (_: nat) => 0)) == n
  {
    if n == 0 {
    } else {
      NarrowEmpty(n - 1);
      var zeros: seq<nat> := seq(n, (_: nat) => 0);
      assert zeros[1..] == seq(n - 1, (_: nat) => 0);
    }
  }

  function EmptyShifts(n: nat): seq<nat> {
    seq(n, i requires 0 <= i < n => n - 1 - i)
  }

  lemma EmptyLayout(n: nat)
    requires n <= MAX_DIMS
    ensures Layout(EmptyShifts(n), seq(n, (_: nat) => 0))
  {
    var zeros: seq<nat> := seq(n, (_: nat) => 0);
    NarrowEmpty(n);
    forall i | 0 <= i < n ensures EmptyShifts(n)[i] == Width(zeros[i + 1..]) {
      NarrowEmpty(n - 1 - i);
      assert zeros[i + 1..] == seq(n - 1 - i, (_: nat) => 0);
    }
  }

  lemma EmptySnapOK(sc: Schema, shifts: seq<nat>)
    requires sc.Valid() && Layout(shifts, seq(sc.indexDims, (_: nat) => 0))
    ensures SnapOK(sc, EmptySnap(sc, shifts))
    ensures Abs(NewView(sc, EmptySnap(sc, shifts))) == map[]
  {
    var s := EmptySnap(sc, shifts);
    assert IndexCards(sc, s.dicts) == seq(sc.indexDims, (_: nat) => 0);
    NewViewOK(sc, s);
  }
}
