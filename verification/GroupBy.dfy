// Group-by: one accumulator row per combination of the by dimensions, built row by
// row, finished and sorted by key.
module GroupBy {
  import opened Decimal
  import opened Table
  import Dictionary
  import opened Engine
  import opened Oracle
  import opened Upsert
  import Live
  import opened Scratch
  import Expand
  import Match
  import opened PlanAll
  import opened Query
  import opened Aggregate
  import Insertion
  import Resolve

  // ---- State ----

  // A column number is kept modulo this.
  const COLUMN_BITS := 256

  // A seen (column, group, id) triple. The column is stored in one byte.
  datatype DKey = DKey(c: nat, g: nat, id: nat)

  datatype GState = GState(idx: map<seq<nat>, nat>, skeys: seq<seq<Text>>, saggs: seq<seq<int>>, cnt: seq<nat>,
          dset: set<DKey>)

  const NO_GROUPS := GState(map[], [], [], [], {})

  // The ids of the by dimensions.
  function KeyIds(row: Row, bys: seq<nat>): (k: seq<nat>)
    ensures |k| == |bys|
  {
    seq(|bys|, i requires 0 <= i < |bys| => IdAt(row, bys[i]))
  }

  function SpellIds(ds: Dicts, bys: seq<nat>, ids: seq<nat>): (t: seq<Text>)
    requires |ids| == |bys|
    ensures |t| == |bys|
  {
    seq(|bys|, i requires 0 <= i < |bys| => Spell(ValueAt(ds, bys[i], ids[i])))
  }

  function KeyFor(cols: seq<Column>, j: nat, g: nat, row: Row): DKey
    requires j < |cols|
  {
    DKey(j % COLUMN_BITS, g, IdAt(row, cols[j].ddim))
  }

  // What the first n columns of one row put in the seen set.
  ghost function RowKeys(cols: seq<Column>, n: nat, g: nat, row: Row): set<DKey>
    requires n <= |cols|
  {
    set j: nat | j < n && cols[j].ddim >= 0 :: KeyFor(cols, j, g, row)
  }

  // A group's first row needs no sentinel.
  function FirstValue(c: Column, row: Row): int {
    if c.ddim >= 0 then 1 else if c.met >= 0 then MetAt(row, c.met) else 0
  }

  function NextValue(c: Column, seen: bool, acc: int, row: Row): int {
    if c.ddim >= 0 then (if seen then acc else acc + 1)
    else if c.met < 0 then acc
    else
      var v := MetAt(row, c.met);
      match c.op
      case Min => if v < acc then v else acc
      case Max => if v > acc then v else acc
      case _ => acc + v
  }

  function FirstRow(cols: seq<Column>, row: Row): (a: seq<int>)
    ensures |a| == |cols|
  {
    seq(|cols|, j requires 0 <= j < |cols| => FirstValue(cols[j], row))
  }

  // Column j tests the seen set as columns before it left it.
  ghost function NextRow(cols: seq<Column>, dset: set<DKey>, g: nat, accs: seq<int>, row: Row): (a: seq<int>)
    requires |accs| == |cols|
    ensures |a| == |cols|
  {
    seq(|cols|, j requires 0 <= j < |cols| =>
      NextValue(cols[j], KeyFor(cols, j, g, row) in dset + RowKeys(cols, j, g, row), accs[j], row))
  }

  // Visiting one matched row.
  ghost function Visited(ds: Dicts, cols: seq<Column>, bys: seq<nat>, st: GState, row: Row): GState
    requires |st.cnt| == |st.saggs| && forall k :: k in st.idx ==>
               st.idx[k] < |st.cnt| && |st.saggs[st.idx[k]]| == |cols|
  {
    var k := KeyIds(row, bys);
    if k in st.idx then
      var g := st.idx[k];
      st.(cnt := st.cnt[g := st.cnt[g] + 1],
          saggs := st.saggs[g := NextRow(cols, st.dset, g, st.saggs[g], row)],
          dset := st.dset + RowKeys(cols, |cols|, g, row))
    else
      var g := |st.cnt|;
      GState(st.idx[k := g], st.skeys + [SpellIds(ds, bys, k)],
             st.saggs + [FirstRow(cols, row)],
             st.cnt + [1], st.dset + RowKeys(cols, |cols|, g, row))
  }

  // Every row visited in turn.
  ghost function FoldAll(ds: Dicts, cols: seq<Column>, bys: seq<nat>, rows: seq<Row>): (st: GState)
    ensures |st.cnt| == |st.saggs| == |st.skeys|
    ensures forall k :: k in st.idx ==> st.idx[k] < |st.cnt| && |st.saggs[st.idx[k]]| == |cols|
  {
    if |rows| == 0 then NO_GROUPS
    else Visited(ds, cols, bys, FoldAll(ds, cols, bys, rows[..|rows| - 1]), rows[|rows| - 1])
  }

  lemma FoldAdd(ds: Dicts, cols: seq<Column>, bys: seq<nat>, rows: seq<Row>, row: Row)
    ensures FoldAll(ds, cols, bys, rows + [row]) == Visited(ds, cols, bys, FoldAll(ds, cols, bys, rows), row)
  {
    assert (rows + [row])[..|rows|] == rows;
  }

  // ---- Reference: groups of a list of rows ----

  // Group keys in order of first appearance.
  function FirstKeys(rows: seq<Row>, bys: seq<nat>): seq<seq<nat>> {
    if |rows| == 0 then []
    else
      var ks := FirstKeys(rows[..|rows| - 1], bys);
      var k := KeyIds(rows[|rows| - 1], bys);
      if k in ks then ks else ks + [k]
  }

  function GroupRows(rows: seq<Row>, bys: seq<nat>, k: seq<nat>): seq<Row> {
    if |rows| == 0 then []
    else
      var init := GroupRows(rows[..|rows| - 1], bys, k);
      if KeyIds(rows[|rows| - 1], bys) == k then init + [rows[|rows| - 1]] else init
  }

  lemma {:induction false} GroupRowsOnly(rows: seq<Row>, bys: seq<nat>, k: seq<nat>)
    ensures forall x :: x in GroupRows(rows, bys, k) <==> x in rows && KeyIds(x, bys) == k
    ensures UniqueIds(rows) ==> UniqueIds(GroupRows(rows, bys, k))
  {
    if |rows| == 0 {
    } else {
      var n := |rows| - 1;
      GroupRowsOnly(rows[..n], bys, k);
      assert rows == rows[..n] + [rows[n]];
      if UniqueIds(rows) {
        forall x | x in GroupRows(rows[..n], bys, k) ensures x.ids != rows[n].ids {
          assert x in rows[..n];
        }
      }
    }
  }

  lemma {:induction false} FirstKeysOnly(rows: seq<Row>, bys: seq<nat>)
    ensures Distinct(FirstKeys(rows, bys))
    ensures forall k :: k in FirstKeys(rows, bys) <==> exists x :: x in rows && KeyIds(x, bys) == k
  {
    if |rows| == 0 {
    } else {
      var n := |rows| - 1;
      FirstKeysOnly(rows[..n], bys);
      assert rows == rows[..n] + [rows[n]];
      forall k ensures k in FirstKeys(rows, bys) <==> exists x :: x in rows && KeyIds(x, bys) == k {
        if exists x :: x in rows && KeyIds(x, bys) == k {
          var x :| x in rows && KeyIds(x, bys) == k;
          assert x in rows[..n] || x == rows[n];
        }
        assert rows[n] in rows;
        if k in FirstKeys(rows[..n], bys) {
          var x :| x in rows[..n] && KeyIds(x, bys) == k;
          assert x in rows;
        }
      }
    }
  }

  // ---- Which distinct columns are exact ----

  // No other distinct column shares this one's byte.
  ghost predicate Alone(cols: seq<Column>, j: nat)
    requires j < |cols|
  {
    forall k :: 0 <= k < |cols| && k != j && cols[k].ddim >= 0 ==> k % COLUMN_BITS != j % COLUMN_BITS
  }

  // A column the seen set serves exactly.
  ghost predicate Exact(cols: seq<Column>, bys: seq<nat>, j: nat)
    requires j < |cols|
  {
    cols[j].ddim < 0 || (cols[j].ddim as nat) in bys || Alone(cols, j)
  }

  // Two distinct columns sharing a byte, one of them varying inside a group.
  ghost predicate Collides(cols: seq<Column>, bys: seq<nat>) {
    exists j, k :: 0 <= j < k < |cols| && cols[j].ddim >= 0 && cols[k].ddim >= 0 && k % 256 == j % 256
      && (cols[j].ddim !in bys || cols[k].ddim !in bys)
  }

  // ---- What visiting keeps ----

  // Some distinct column met this id in this group.
  ghost predicate SeenAt(cols: seq<Column>, mine: seq<Row>, x: DKey) {
    exists j :: 0 <= j < |cols| && cols[j].ddim >= 0 && x.c == j % COLUMN_BITS && x.id in IdSet(mine, cols[j].ddim)
  }

  // The seen set, described exactly.
  ghost predicate SeenOK(cols: seq<Column>, bys: seq<nat>, dset: set<DKey>, rows: seq<Row>) {
    forall x :: x in dset <==>
      x.g < |FirstKeys(rows, bys)| && SeenAt(cols, GroupRows(rows, bys, FirstKeys(rows, bys)[x.g]), x)
  }

  ghost predicate GroupOK(ds: Dicts, cols: seq<Column>, bys: seq<nat>, st: GState, rows: seq<Row>, g: nat)
    requires g < |FirstKeys(rows, bys)| == |st.cnt| == |st.saggs| == |st.skeys|
  {
    var k := FirstKeys(rows, bys)[g];
    var mine := GroupRows(rows, bys, k);
    && k in st.idx && st.idx[k] == g && |k| == |bys|
    && st.skeys[g] == SpellIds(ds, bys, k)
    && st.cnt[g] == |mine| > 0
    && |st.saggs[g]| == |cols|
    && forall j :: 0 <= j < |cols| && Exact(cols, bys, j) ==> Folded(cols[j], st.saggs[g][j], mine)
  }

  ghost predicate GroupsOK(ds: Dicts, cols: seq<Column>, bys: seq<nat>, st: GState, rows: seq<Row>) {
    && |FirstKeys(rows, bys)| == |st.cnt| == |st.saggs| == |st.skeys|
    && (forall k :: k in st.idx <==> k in FirstKeys(rows, bys))
    && (forall g :: 0 <= g < |st.cnt| ==> GroupOK(ds, cols, bys, st, rows, g))
    && SeenOK(cols, bys, st.dset, rows)
  }

  lemma GroupsStart(ds: Dicts, cols: seq<Column>, bys: seq<nat>)
    ensures GroupsOK(ds, cols, bys, NO_GROUPS, [])
  {
  }

  lemma GroupRowsAdd(rows: seq<Row>, bys: seq<nat>, k: seq<nat>, row: Row)
    ensures GroupRows(rows + [row], bys, k)
            == if KeyIds(row, bys) == k then GroupRows(rows, bys, k) + [row] else GroupRows(rows, bys, k)
  {
    assert (rows + [row])[..|rows|] == rows;
  }

  lemma FirstKeysAdd(rows: seq<Row>, bys: seq<nat>, row: Row)
    ensures var (ks, k) := (FirstKeys(rows, bys), KeyIds(row, bys));
            FirstKeys(rows + [row], bys) == if k in ks then ks else ks + [k]
  {
    assert (rows + [row])[..|rows|] == rows;
  }

  // A key that has not appeared has no rows.
  lemma NewKeyNoRows(rows: seq<Row>, bys: seq<nat>, k: seq<nat>)
    requires k !in FirstKeys(rows, bys)
    ensures GroupRows(rows, bys, k) == []
  {
    GroupRowsOnly(rows, bys, k);
    FirstKeysOnly(rows, bys);
    if GroupRows(rows, bys, k) != [] {
      assert GroupRows(rows, bys, k)[0] in GroupRows(rows, bys, k);
      assert false;
    }
  }

  // The seen set after a visit, still exact.
  lemma SeenNext(ds: Dicts, cols: seq<Column>, bys: seq<nat>, st: GState, rows: seq<Row>, row: Row, g: nat)
    requires GroupsOK(ds, cols, bys, st, rows)
    requires forall j :: 0 <= j < |cols| ==> cols[j].ddim < |row.ids|
    requires var k := KeyIds(row, bys);
             if k in st.idx then g == st.idx[k] else g == |st.cnt|
    ensures SeenOK(cols, bys, st.dset + RowKeys(cols, |cols|, g, row), rows + [row])
  {
    hide KeyIds, GroupRows, FirstKeys, IdSet, Folded, GroupOK;
    var (ks, ks', k) := (FirstKeys(rows, bys), FirstKeys(rows + [row], bys), KeyIds(row, bys));
    FirstKeysAdd(rows, bys, row);
    FirstKeysOnly(rows, bys);
    if k in st.idx {
      KeyPlace(ds, cols, bys, st, rows, k);
    } else {
      NewKeyNoRows(rows, bys, k);
    }
    forall x ensures x in st.dset + RowKeys(cols, |cols|, g, row)
                     <==> x.g < |ks'| && SeenAt(cols, GroupRows(rows + [row], bys, ks'[x.g]), x) {
      if x.g == g {
        SeenHere(cols, bys, st.dset, rows, row, g, x);
      } else {
        SeenElsewhere(cols, bys, st.dset, rows, row, g, x);
      }
    }
  }

  lemma KeyPlace(ds: Dicts, cols: seq<Column>, bys: seq<nat>, st: GState, rows: seq<Row>, k: seq<nat>)
    requires GroupsOK(ds, cols, bys, st, rows) && k in st.idx
    ensures st.idx[k] < |st.cnt| && FirstKeys(rows, bys)[st.idx[k]] == k
  {
    var g :| 0 <= g < |st.cnt| && FirstKeys(rows, bys)[g] == k;
    assert GroupOK(ds, cols, bys, st, rows, g);
  }

  // Where the row's group stands among the keys.
  ghost predicate Placed(bys: seq<nat>, rows: seq<Row>, row: Row, g: nat) {
    var (ks, k) := (FirstKeys(rows, bys), KeyIds(row, bys));
    if k in ks then g < |ks| && ks[g] == k else g == |ks| && GroupRows(rows, bys, k) == []
  }

  lemma SeenElsewhere(cols: seq<Column>, bys: seq<nat>, dset: set<DKey>, rows: seq<Row>, row: Row, g: nat, x: DKey)
    requires SeenOK(cols, bys, dset, rows) && Placed(bys, rows, row, g) && x.g != g
    ensures var ks' := FirstKeys(rows + [row], bys);
            x in dset + RowKeys(cols, |cols|, g, row) <==>
              x.g < |ks'| && SeenAt(cols, GroupRows(rows + [row], bys, ks'[x.g]), x)
  {
    hide KeyIds, GroupRows, FirstKeys, SeenAt;
    FirstKeysAdd(rows, bys, row);
    FirstKeysOnly(rows, bys);
    if x.g < |FirstKeys(rows, bys)| {
      GroupRowsAdd(rows, bys, FirstKeys(rows, bys)[x.g], row);
    }
  }

  lemma SeenHere(cols: seq<Column>, bys: seq<nat>, dset: set<DKey>, rows: seq<Row>, row: Row, g: nat, x: DKey)
    requires SeenOK(cols, bys, dset, rows) && Placed(bys, rows, row, g) && x.g == g
    requires forall j :: 0 <= j < |cols| ==> cols[j].ddim < |row.ids|
    ensures var ks' := FirstKeys(rows + [row], bys);
            x in dset + RowKeys(cols, |cols|, g, row) <==>
              x.g < |ks'| && SeenAt(cols, GroupRows(rows + [row], bys, ks'[x.g]), x)
  {
    hide KeyIds, GroupRows, FirstKeys, IdSet;
    var k := KeyIds(row, bys);
    var mine := GroupRows(rows, bys, k);
    FirstKeysAdd(rows, bys, row);
    GroupRowsAdd(rows, bys, k, row);
    NothingSeen(cols, x);
    forall j | 0 <= j < |cols| && cols[j].ddim >= 0
      ensures IdSet(mine + [row], cols[j].ddim) == IdSet(mine, cols[j].ddim) + {IdAt(row, cols[j].ddim)}
    {
      IdSetAdd(mine, row, cols[j].ddim);
    }
    if x in RowKeys(cols, |cols|, g, row) {
      var j: nat :| j < |cols| && cols[j].ddim >= 0 && KeyFor(cols, j, g, row) == x;
      assert x.id in IdSet(mine + [row], cols[j].ddim);
    }
    if SeenAt(cols, mine + [row], x) {
      var j :| 0 <= j < |cols| && cols[j].ddim >= 0 && x.c == j % COLUMN_BITS
        && x.id in IdSet(mine + [row], cols[j].ddim);
      if x.id == IdAt(row, cols[j].ddim) {
        assert KeyFor(cols, j, g, row) == x;
      }
    }
  }

  lemma NothingSeen(cols: seq<Column>, x: DKey)
    ensures !SeenAt(cols, [], x)
  {
  }

  // The row has every index the columns and the by dimensions read.
  ghost predicate Fits(cols: seq<Column>, bys: seq<nat>, row: Row) {
    && (forall j :: 0 <= j < |cols| ==>
         cols[j].ddim < |row.ids| && cols[j].met < |row.mets| && (cols[j].ddim >= 0 ==> cols[j].met < 0))
    && (forall i :: 0 <= i < |bys| ==> bys[i] < |row.ids|)
  }

  lemma SameIdInGroup(rows: seq<Row>, bys: seq<nat>, row: Row, d: nat)
    requires d in bys && GroupRows(rows, bys, KeyIds(row, bys)) != [] && d < |row.ids|
    requires forall x :: x in rows ==> d < |x.ids|
    ensures row.ids[d] in IdSet(GroupRows(rows, bys, KeyIds(row, bys)), d)
  {
    hide GroupRows;
    var mine := GroupRows(rows, bys, KeyIds(row, bys));
    GroupRowsOnly(rows, bys, KeyIds(row, bys));
    var x := mine[0];
    assert x in mine && KeyIds(x, bys) == KeyIds(row, bys);
    var i :| 0 <= i < |bys| && bys[i] == d;
    assert KeyIds(x, bys)[i] == KeyIds(row, bys)[i];
  }

  lemma AloneKey(cols: seq<Column>, j: nat, g: nat, row: Row)
    requires j < |cols| && Alone(cols, j)
    ensures KeyFor(cols, j, g, row) !in RowKeys(cols, j, g, row)
  {
  }

  // A distinct column the seen set serves exactly counts an id the first time only.
  lemma DistinctNext(cols: seq<Column>, bys: seq<nat>, dset: set<DKey>, rows: seq<Row>, row: Row, g: nat, j: nat,
          acc: int)
    requires SeenOK(cols, bys, dset, rows) && g < |FirstKeys(rows, bys)| && FirstKeys(rows, bys)[g] == KeyIds(row, bys)
    requires j < |cols| && cols[j].ddim >= 0 && Exact(cols, bys, j) && Fits(cols, bys, row)
    requires forall x :: x in rows ==> cols[j].ddim < |x.ids|
    requires GroupRows(rows, bys, KeyIds(row, bys)) != []
               && Folded(cols[j], acc, GroupRows(rows, bys, KeyIds(row, bys)))
    ensures Folded(cols[j], NextValue(cols[j], KeyFor(cols, j, g, row) in dset + RowKeys(cols, j, g, row), acc, row),
                   GroupRows(rows, bys, KeyIds(row, bys)) + [row])
  {
    hide KeyIds, GroupRows, FirstKeys, IdSet;
    var mine := GroupRows(rows, bys, KeyIds(row, bys));
    var (d, x) := (cols[j].ddim, KeyFor(cols, j, g, row));
    IdSetAdd(mine, row, d);
    var has := x.id in IdSet(mine, d);
    if has {
      assert SeenAt(cols, mine, x);
    }
    if d in bys {
      SameIdInGroup(rows, bys, row, d);
    } else {
      AloneKey(cols, j, g, row);
      if x in dset {
        assert SeenAt(cols, mine, x);
        var i :| 0 <= i < |cols| && cols[i].ddim >= 0 && x.c == i % COLUMN_BITS && x.id in IdSet(mine, cols[i].ddim);
        assert i == j;
      }
    }
    if has {
      assert IdSet(mine, d) + {x.id} == IdSet(mine, d);
    }
  }

  lemma ValueNext(cols: seq<Column>, bys: seq<nat>, dset: set<DKey>, rows: seq<Row>, row: Row, g: nat, j: nat, acc: int)
    requires SeenOK(cols, bys, dset, rows) && g < |FirstKeys(rows, bys)| && FirstKeys(rows, bys)[g] == KeyIds(row, bys)
    requires j < |cols| && Exact(cols, bys, j) && Fits(cols, bys, row) && forall x :: x in rows ==> Fits(cols, bys, x)
    requires GroupRows(rows, bys, KeyIds(row, bys)) != []
               && Folded(cols[j], acc, GroupRows(rows, bys, KeyIds(row, bys)))
    ensures Folded(cols[j], NextValue(cols[j], KeyFor(cols, j, g, row) in dset + RowKeys(cols, j, g, row), acc, row),
                   GroupRows(rows, bys, KeyIds(row, bys)) + [row])
  {
    hide KeyIds, GroupRows, FirstKeys, IdSet, LeastRow, GreatestRow, SumRows, SeenOK, RowKeys;
    if cols[j].ddim >= 0 {
      DistinctNext(cols, bys, dset, rows, row, g, j, acc);
    } else if cols[j].met >= 0 {
      FoldMetric(cols[j], acc, GroupRows(rows, bys, KeyIds(row, bys)), row);
    }
  }

  lemma ValueFirst(c: Column, row: Row)
    requires c.ddim < |row.ids| && c.met < |row.mets| && (c.ddim >= 0 ==> c.met < 0)
    ensures Folded(c, FirstValue(c, row), [row])
  {
    hide IdSet, LeastRow, GreatestRow;
    if c.ddim >= 0 {
      IdSetAdd([], row, c.ddim);
      NoIds(c.ddim);
      assert [] + [row] == [row];
    } else if c.met >= 0 {
      FoldMetric(c, 0, [], row);
      assert [] + [row] == [row];
    }
  }

  lemma NoIds(d: nat)
    ensures IdSet([], d) == {}
  {
  }

  // The visited group.
  lemma GroupHere(ds: Dicts, cols: seq<Column>, bys: seq<nat>, st: GState, rows: seq<Row>, row: Row)
    requires GroupsOK(ds, cols, bys, st, rows) && Fits(cols, bys, row) && forall x :: x in rows ==> Fits(cols, bys, x)
    requires forall k :: k in st.idx ==> st.idx[k] < |st.cnt| && |st.saggs[st.idx[k]]| == |cols|
    ensures var (k, st') := (KeyIds(row, bys), Visited(ds, cols, bys, st, row));
            var g := if k in st.idx then st.idx[k] else |st.cnt|;
            |FirstKeys(rows + [row], bys)| == |st'.cnt| == |st'.saggs| == |st'.skeys| && g < |st'.cnt|
            && GroupOK(ds, cols, bys, st', rows + [row], g)
  {
    hide KeyIds, GroupRows, FirstKeys, IdSet, SeenOK, RowKeys, Folded, NextValue, FirstValue, Exact, SpellIds;
    var (k, st') := (KeyIds(row, bys), Visited(ds, cols, bys, st, row));
    FirstKeysAdd(rows, bys, row);
    GroupRowsAdd(rows, bys, k, row);
    if k in st.idx {
      var g := st.idx[k];
      KeyPlace(ds, cols, bys, st, rows, k);
      assert GroupOK(ds, cols, bys, st, rows, g);
      forall j | 0 <= j < |cols| && Exact(cols, bys, j)
        ensures Folded(cols[j], st'.saggs[g][j], GroupRows(rows, bys, k) + [row])
      {
        ValueNext(cols, bys, st.dset, rows, row, g, j, st.saggs[g][j]);
      }
    } else {
      NewKeyNoRows(rows, bys, k);
      assert [] + [row] == [row];
      forall j | 0 <= j < |cols| ensures Folded(cols[j], st'.saggs[|st.cnt|][j], [row]) {
        ValueFirst(cols[j], row);
      }
    }
  }

  lemma GroupElsewhere(ds: Dicts, cols: seq<Column>, bys: seq<nat>, st: GState, rows: seq<Row>, row: Row, h: nat)
    requires GroupsOK(ds, cols, bys, st, rows)
    requires forall k :: k in st.idx ==> st.idx[k] < |st.cnt| && |st.saggs[st.idx[k]]| == |cols|
    requires h < |st.cnt| && FirstKeys(rows, bys)[h] != KeyIds(row, bys)
    requires var st' := Visited(ds, cols, bys, st, row);
             |FirstKeys(rows + [row], bys)| == |st'.cnt| == |st'.saggs| == |st'.skeys|
    ensures GroupOK(ds, cols, bys, Visited(ds, cols, bys, st, row), rows + [row], h)
  {
    hide KeyIds, GroupRows, FirstKeys, IdSet, SeenOK, RowKeys, Folded, NextValue, FirstValue, Exact, SpellIds;
    FirstKeysAdd(rows, bys, row);
    GroupRowsAdd(rows, bys, FirstKeys(rows, bys)[h], row);
    assert GroupOK(ds, cols, bys, st, rows, h);
    if KeyIds(row, bys) in st.idx {
      KeyPlace(ds, cols, bys, st, rows, KeyIds(row, bys));
    }
  }

  // One visit keeps everything: keys, counts, accumulators and the seen set.
  lemma GroupsNext(ds: Dicts, cols: seq<Column>, bys: seq<nat>, st: GState, rows: seq<Row>, row: Row)
    requires GroupsOK(ds, cols, bys, st, rows) && Fits(cols, bys, row) && forall x :: x in rows ==> Fits(cols, bys, x)
    requires forall k :: k in st.idx ==> st.idx[k] < |st.cnt| && |st.saggs[st.idx[k]]| == |cols|
    ensures GroupsOK(ds, cols, bys, Visited(ds, cols, bys, st, row), rows + [row])
  {
    hide KeyIds, GroupRows, FirstKeys, SeenOK, RowKeys, NextValue, FirstValue, SpellIds, GroupOK;
    var (k, st') := (KeyIds(row, bys), Visited(ds, cols, bys, st, row));
    var g := if k in st.idx then st.idx[k] else |st.cnt|;
    FirstKeysAdd(rows, bys, row);
    FirstKeysOnly(rows, bys);
    GroupHere(ds, cols, bys, st, rows, row);
    SeenNext(ds, cols, bys, st, rows, row, g);
    if k in st.idx {
      KeyPlace(ds, cols, bys, st, rows, k);
    }
    forall h | 0 <= h < |st'.cnt| ensures GroupOK(ds, cols, bys, st', rows + [row], h) {
      if h != g {
        GroupElsewhere(ds, cols, bys, st, rows, row, h);
      }
    }
  }

  // So after any number of visits the state is exactly the groups of the rows.
  lemma {:induction false} FoldGroups(ds: Dicts, cols: seq<Column>, bys: seq<nat>, rows: seq<Row>)
    requires forall x :: x in rows ==> Fits(cols, bys, x)
    ensures GroupsOK(ds, cols, bys, FoldAll(ds, cols, bys, rows), rows)
  {
    hide GroupsOK, Visited, Fits;
    if |rows| == 0 {
      GroupsStart(ds, cols, bys);
    } else {
      var (init, row) := (rows[..|rows| - 1], rows[|rows| - 1]);
      assert rows == init + [row];
      assert row in rows && forall x :: x in init ==> x in rows;
      FoldGroups(ds, cols, bys, init);
      GroupsNext(ds, cols, bys, FoldAll(ds, cols, bys, init), init, row);
    }
  }

  // ---- The accumulating result ----

  // GroupedResult while it is being built.
  class Grouped {
    var idx: map<seq<nat>, nat>
    var skeys: seq<seq<Text>>
    var saggs: seq<seq<int>>
    var cnt: seq<nat>
    var dset: set<DKey>

    function Model(): GState
      reads this
    {
      GState(idx, skeys, saggs, cnt, dset)
    }

    constructor ()
      ensures Model() == NO_GROUPS
    {
      idx, skeys, saggs, cnt, dset := map[], [], [], [], {};
    }

    // Counts one matching row in its group, which starts with the first such row.
    method Visit(v: View, sc: Schema, cols: seq<Column>, bys: seq<nat>, row: Row)
      requires v.Valid(sc) && InRange(CombOf(v.Model()), row.ids) && forall i :: 0 <= i < |bys| ==> bys[i] < |sc.dims|
      requires |cnt| == |saggs| && forall k :: k in idx ==> idx[k] < |cnt| && |saggs[idx[k]]| == |cols|
      modifies this
      ensures Model() == Visited(CombOf(v.Model()), cols, bys, old(Model()), row)
    {
      hide View.Valid, InRange;
      var k := KeyIds(row, bys);
      if k in idx {
        var g := idx[k];
        cnt := cnt[g := cnt[g] + 1];
        var accs, seen := FoldColumns(cols, g, row, saggs[g], dset);
        saggs, dset := saggs[g := accs], seen;
      } else {
        var g := |cnt|;
        idx := idx[k := g];
        var key := SpellKey(sc, v, bys, row);
        skeys := skeys + [key];
        var accs, seen := StartColumns(cols, g, row, dset);
        saggs, dset := saggs + [accs], seen;
        cnt := cnt + [1];
      }
    }
  }

  method FoldColumns(cols: seq<Column>, g: nat, row: Row, accs0: seq<int>, dset0: set<DKey>)
    returns (accs: seq<int>, dset: set<DKey>)
    requires |accs0| == |cols|
    ensures accs == NextRow(cols, dset0, g, accs0, row) && dset == dset0 + RowKeys(cols, |cols|, g, row)
  {
    hide RowKeys;
    accs, dset := accs0, dset0;
    NoKeys(cols, g, row);
    for j := 0 to |cols|
      invariant |accs| == |cols| && dset == dset0 + RowKeys(cols, j, g, row)
      invariant forall i :: 0 <= i < j ==> accs[i] == NextRow(cols, dset0, g, accs0, row)[i]
      invariant forall i :: j <= i < |cols| ==> accs[i] == accs0[i]
    {
      RowKeysStep(cols, j, g, row);
      if cols[j].ddim >= 0 {
        var x := KeyFor(cols, j, g, row);
        if x !in dset {
          dset := dset + {x};
          accs := accs[j := accs[j] + 1];
        } else {
          assert dset == dset + {x};
        }
      } else if cols[j].met >= 0 {
        var m := MetAt(row, cols[j].met);
        match cols[j].op
        case Min =>
          if m < accs[j] {
            accs := accs[j := m];
          }
        case Max =>
          if m > accs[j] {
            accs := accs[j := m];
          }
        case _ =>
          accs := accs[j := accs[j] + m];
      }
    }
  }

  method StartColumns(cols: seq<Column>, g: nat, row: Row, dset0: set<DKey>) returns (accs: seq<int>, dset: set<DKey>)
    ensures accs == FirstRow(cols, row) && dset == dset0 + RowKeys(cols, |cols|, g, row)
  {
    hide RowKeys;
    accs, dset := [], dset0;
    NoKeys(cols, g, row);
    for j := 0 to |cols|
      invariant |accs| == j && dset == dset0 + RowKeys(cols, j, g, row)
      invariant forall i :: 0 <= i < j ==> accs[i] == FirstValue(cols[i], row)
    {
      RowKeysStep(cols, j, g, row);
      if cols[j].ddim >= 0 {
        dset := dset + {KeyFor(cols, j, g, row)};
        accs := accs + [1];
      } else if cols[j].met >= 0 {
        accs := accs + [MetAt(row, cols[j].met)];
      } else {
        accs := accs + [0];
      }
    }
  }

  lemma NoKeys(cols: seq<Column>, g: nat, row: Row)
    ensures RowKeys(cols, 0, g, row) == {}
  {
  }

  lemma RowKeysStep(cols: seq<Column>, j: nat, g: nat, row: Row)
    requires j < |cols|
    ensures var keys := RowKeys(cols, j, g, row);
            RowKeys(cols, j + 1, g, row) == if cols[j].ddim >= 0 then keys + {KeyFor(cols, j, g, row)} else keys
  {
    if cols[j].ddim >= 0 {
      assert KeyFor(cols, j, g, row) in RowKeys(cols, j + 1, g, row);
    }
    forall x | x in RowKeys(cols, j, g, row) ensures x in RowKeys(cols, j + 1, g, row) {
    }
  }

  // The spellings of a row's by values, through base or extras.
  method SpellKey(sc: Schema, v: View, bys: seq<nat>, row: Row) returns (key: seq<Text>)
    requires v.Valid(sc) && InRange(CombOf(v.Model()), row.ids) && forall i :: 0 <= i < |bys| ==> bys[i] < |sc.dims|
    ensures key == SpellIds(CombOf(v.Model()), bys, KeyIds(row, bys))
  {
    hide SnapOK, DeltaOK, Shadowing, RowsIn, DictsOK, Dictionary.Dict.Valid, Spell;
    key := [];
    for i := 0 to |bys|
      invariant |key| == i && forall k :: 0 <= k < i ==> key[k] == SpellIds(CombOf(v.Model()), bys, KeyIds(row, bys))[k]
    {
      var (d, id) := (bys[i], row.ids[bys[i]]);
      Resolve.CombSplit(sc, v, d);
      var len := |v.base.dicts[d].vals|;
      var s := if id >= len then v.extras[d].Spelling(id - len) else v.base.dicts[d].Spelling(id);
      key := key + [s];
    }
  }

  // ---- When a distinct column is wrong ----

  lemma InexactCollides(cols: seq<Column>, bys: seq<nat>, j: nat)
    requires j < |cols| && !Exact(cols, bys, j)
    ensures Collides(cols, bys)
  {
    var k :| 0 <= k < |cols| && k != j && cols[k].ddim >= 0 && k % COLUMN_BITS == j % COLUMN_BITS;
    var (lo, hi) := if k < j then (k, j) else (j, k);
    assert 0 <= lo < hi < |cols| && hi % COLUMN_BITS == lo % COLUMN_BITS;
  }

  // Without a collision every distinct column is exact.
  lemma NoCollisionExact(cols: seq<Column>, bys: seq<nat>)
    requires !Collides(cols, bys)
    ensures forall j :: 0 <= j < |cols| ==> Exact(cols, bys, j)
  {
    forall j | 0 <= j < |cols| ensures Exact(cols, bys, j) {
      if !Exact(cols, bys, j) {
        InexactCollides(cols, bys, j);
      }
    }
  }

  // A column's byte is its own number when there are at most 256 columns.
  lemma FewColumnsExact(cols: seq<Column>, bys: seq<nat>)
    requires |cols| <= 256
    ensures !Collides(cols, bys)
  {
  }

  // ---- Order of keys ----

  // Go's string order: bytewise, a prefix before what it begins.
  predicate TextLess(a: Text, b: Text) {
    |b| > 0 && (|a| == 0 || a[0] < b[0] || (a[0] == b[0] && TextLess(a[1..], b[1..])))
  }

  // That is: a is where b begins and b goes on, or they part at a byte where a's is smaller.
  ghost predicate BytesBefore(a: Text, b: Text) {
    (|a| < |b| && a == b[..|a|]) || exists k :: 0 <= k < |a| && k < |b| && a[..k] == b[..k] && a[k] < b[k]
  }

  lemma {:induction false} TextOrder(a: Text, b: Text)
    ensures TextLess(a, b) <==> BytesBefore(a, b)
  {
    if |a| == 0 || |b| == 0 {
    } else if a[0] != b[0] {
      if a[0] < b[0] {
        assert a[..0] == b[..0];
      }
    } else {
      TextOrder(a[1..], b[1..]);
      if BytesBefore(a[1..], b[1..]) {
        LaterByte(a, b);
      }
      if BytesBefore(a, b) {
        TailsBefore(a, b);
      }
    }
  }

  lemma LaterByte(a: Text, b: Text)
    requires |a| > 0 && |b| > 0 && a[0] == b[0] && BytesBefore(a[1..], b[1..])
    ensures BytesBefore(a, b)
  {
    if |a| < |b| && a[1..] == b[1..][..|a| - 1] {
      assert a == [a[0]] + a[1..] && b[..|a|] == [b[0]] + b[1..][..|a| - 1];
    } else {
      var k :| 0 <= k < |a| - 1 && k < |b| - 1 && a[1..][..k] == b[1..][..k] && a[1..][k] < b[1..][k];
      assert a[..k + 1] == [a[0]] + a[1..][..k] && b[..k + 1] == [b[0]] + b[1..][..k];
      assert a[..k + 1] == b[..k + 1] && a[k + 1] < b[k + 1];
    }
  }

  lemma TailsBefore(a: Text, b: Text)
    requires |a| > 0 && |b| > 0 && a[0] == b[0] && BytesBefore(a, b)
    ensures BytesBefore(a[1..], b[1..])
  {
    if |a| < |b| && a == b[..|a|] {
      assert a[1..] == b[1..][..|a| - 1];
    } else {
      var k :| 0 <= k < |a| && k < |b| && a[..k] == b[..k] && a[k] < b[k];
      assert a[1..][..k - 1] == a[..k][1..] && b[1..][..k - 1] == b[..k][1..];
      assert a[1..][k - 1] < b[1..][k - 1];
    }
  }

  lemma {:induction false} TextTotal(a: Text, b: Text)
    ensures TextLess(a, b) || TextLess(b, a) || a == b
  {
    if |a| > 0 && |b| > 0 && a[0] == b[0] {
      TextTotal(a[1..], b[1..]);
      assert a == [a[0]] + a[1..] && b == [b[0]] + b[1..];
    }
  }

  lemma {:induction false} TextTrans(a: Text, b: Text, c: Text)
    requires TextLess(a, b) && TextLess(b, c)
    ensures TextLess(a, c)
  {
    if |a| > 0 && a[0] == b[0] && b[0] == c[0] {
      TextTrans(a[1..], b[1..], c[1..]);
    }
  }

  lemma {:induction false} TextIrreflexive(a: Text)
    ensures !TextLess(a, a)
  {
    if |a| == 0 {
    } else {
      TextIrreflexive(a[1..]);
    }
  }

  // Keys compare at the first by dimension where they differ.
  predicate KeyLess(a: seq<Text>, b: seq<Text>) {
    |a| > 0 && |b| > 0 && (if a[0] != b[0] then TextLess(a[0], b[0]) else KeyLess(a[1..], b[1..]))
  }

  // The first by dimension where two keys differ decides, byte by byte.
  ghost predicate KeyBefore(a: seq<Text>, b: seq<Text>) {
    exists k :: 0 <= k < |a| && k < |b| && a[..k] == b[..k] && BytesBefore(a[k], b[k])
  }

  lemma {:induction false} KeyOrder(a: seq<Text>, b: seq<Text>)
    ensures KeyLess(a, b) <==> KeyBefore(a, b)
  {
    hide TextLess, BytesBefore;
    if |a| == 0 || |b| == 0 {
    } else {
      TextOrder(a[0], b[0]);
      if a[0] != b[0] {
        FirstDecides(a, b);
      } else {
        TextIrreflexive(a[0]);
        KeyOrder(a[1..], b[1..]);
        RestDecides(a, b);
      }
    }
  }

  lemma FirstDecides(a: seq<Text>, b: seq<Text>)
    requires |a| > 0 && |b| > 0 && a[0] != b[0]
    ensures KeyBefore(a, b) <==> BytesBefore(a[0], b[0])
  {
    hide BytesBefore;
    if BytesBefore(a[0], b[0]) {
      assert a[..0] == b[..0];
    }
    if KeyBefore(a, b) {
      var k :| 0 <= k < |a| && k < |b| && a[..k] == b[..k] && BytesBefore(a[k], b[k]);
      if k > 0 {
        assert false;
      }
    }
  }

  lemma RestDecides(a: seq<Text>, b: seq<Text>)
    requires |a| > 0 && |b| > 0 && a[0] == b[0] && !BytesBefore(a[0], b[0])
    ensures KeyBefore(a, b) <==> KeyBefore(a[1..], b[1..])
  {
    hide BytesBefore;
    if KeyBefore(a, b) {
      var k :| 0 <= k < |a| && k < |b| && a[..k] == b[..k] && BytesBefore(a[k], b[k]);
      assert a[1..][..k - 1] == a[..k][1..] && b[1..][..k - 1] == b[..k][1..];
      assert BytesBefore(a[1..][k - 1], b[1..][k - 1]);
    }
    if KeyBefore(a[1..], b[1..]) {
      var k :| 0 <= k < |a| - 1 && k < |b| - 1 && a[1..][..k] == b[1..][..k] && BytesBefore(a[1..][k], b[1..][k]);
      assert a[..k + 1] == [a[0]] + a[1..][..k] && b[..k + 1] == [b[0]] + b[1..][..k];
      assert BytesBefore(a[k + 1], b[k + 1]);
    }
  }

  lemma {:induction false} KeyTotal(a: seq<Text>, b: seq<Text>)
    requires |a| == |b|
    ensures KeyLess(a, b) || KeyLess(b, a) || a == b
  {
    if |a| == 0 {
    } else {
      if a[0] == b[0] {
        KeyTotal(a[1..], b[1..]);
        assert a == [a[0]] + a[1..] && b == [b[0]] + b[1..];
      } else {
        TextTotal(a[0], b[0]);
      }
    }
  }

  lemma {:induction false} KeyTrans(a: seq<Text>, b: seq<Text>, c: seq<Text>)
    requires KeyLess(a, b) && KeyLess(b, c)
    ensures KeyLess(a, c)
  {
    if a[0] == b[0] && b[0] == c[0] {
      KeyTrans(a[1..], b[1..], c[1..]);
    } else if a[0] != b[0] && b[0] != c[0] {
      TextTrans(a[0], b[0], c[0]);
      TextIrreflexive(c[0]);
    }
  }

  // ---- Sorting the groups ----

  ghost predicate KeysAscend(keys: seq<seq<Text>>, ord: seq<nat>)
    requires forall i :: 0 <= i < |ord| ==> ord[i] < |keys|
  {
    forall i, j :: 0 <= i < j < |ord| ==> KeyLess(keys[ord[i]], keys[ord[j]])
  }

  // sort.Slice with the by-dimension comparison: distinct keys come out strictly ascending.
  method SortGroups(keys: seq<seq<Text>>, nb: nat) returns (ord: seq<nat>)
    requires Distinct(keys) && forall g :: 0 <= g < |keys| ==> |keys[g]| == nb
    ensures Insertion.Permutes(ord, |keys|) && KeysAscend(keys, ord)
  {
    hide KeyLess;
    ord := [];
    for g := 0 to |keys|
      invariant Insertion.Permutes(ord, g) && KeysAscend(keys, ord)
    {
      var p := |ord|;
      while p > 0 && !KeyLess(keys[ord[p - 1]], keys[g])
        invariant 0 <= p <= |ord|
        invariant forall i :: p <= i < |ord| ==> KeyLess(keys[g], keys[ord[i]])
      {
        KeyTotal(keys[ord[p - 1]], keys[g]);
        p := p - 1;
      }
      InsertAscends(keys, ord, p, g);
      ord := Insertion.InsertAt(ord, p, g);
    }
  }

  lemma InsertAscends(keys: seq<seq<Text>>, ord: seq<nat>, p: nat, g: nat)
    requires Insertion.Permutes(ord, g) && g < |keys| && p <= |ord| && KeysAscend(keys, ord)
    requires p > 0 ==> KeyLess(keys[ord[p - 1]], keys[g])
    requires forall i :: p <= i < |ord| ==> KeyLess(keys[g], keys[ord[i]])
    ensures Insertion.Permutes(Insertion.InsertAt(ord, p, g), g + 1) && KeysAscend(keys, Insertion.InsertAt(ord, p, g))
  {
    hide KeyLess, Insertion.InsertAt;
    Insertion.InsertPermutes(ord, g, p);
    var r := Insertion.InsertAt(ord, p, g);
    forall i | 0 <= i < p ensures KeyLess(keys[ord[i]], keys[g]) {
      if i < p - 1 {
        KeyTrans(keys[ord[i]], keys[ord[p - 1]], keys[g]);
      }
    }
    forall i, j | 0 <= i < j < |r| ensures KeyLess(keys[r[i]], keys[r[j]]) {
      if j < p {
        assert KeyLess(keys[ord[i]], keys[ord[j]]);
      } else if j > p && i != p {
        assert KeyLess(keys[ord[if i < p then i else i - 1]], keys[ord[j - 1]]);
      }
    }
  }

  // ---- The answer and what it means ----

  datatype GroupOut = GroupOut(key: seq<Text>, aggs: seq<Option<real>>)

  function TupleKey(t: Tuple, bys: seq<nat>): (k: seq<Text>)
    ensures |k| == |bys|
  {
    seq(|bys|, i requires 0 <= i < |bys| => if bys[i] < |t| then Spell(t[bys[i]]) else [])
  }

  // The selected entries whose by values spell this key.
  function Share(sel: Contents, bys: seq<nat>, key: seq<Text>): Contents {
    map t | t in sel && TupleKey(t, bys) == key :: sel[t]
  }

  ghost predicate ShareMeans(share: Contents, cols: seq<Column>, bys: seq<nat>, aggs: seq<Option<real>>) {
    && |aggs| == |cols|
    && forall j :: 0 <= j < |cols| && Exact(cols, bys, j) ==>
      (cols[j].op.CountDistinct? <==> cols[j].ddim >= 0)
        && (cols[j].op.CountDistinct? || cols[j].op.Count? <==> cols[j].met < 0)
      && AggMeans(share, cols[j], aggs[j])
  }

  ghost predicate KeysStrict(out: seq<GroupOut>) {
    forall i, j :: 0 <= i < j < |out| ==> KeyBefore(out[i].key, out[j].key)
  }

  // The key of t, spelled out: its labels as they are, its integers as the plain numerals
  // that denote them.
  ghost predicate KeyNames(t: Tuple, bys: seq<nat>, key: seq<Text>) {
    |key| == |bys| && forall i :: 0 <= i < |bys| && bys[i] < |t| ==>
      match t[bys[i]]
      case Str(s) => key[i] == s
      case Num(n) => Plain(key[i]) && Denoted(key[i]) == n
  }

  lemma TupleKeyNames(t: Tuple, bys: seq<nat>)
    ensures KeyNames(t, bys, TupleKey(t, bys))
  {
    hide Plain, Denoted, FormatInt;
    var key := TupleKey(t, bys);
    forall i | 0 <= i < |bys| && bys[i] < |t|
      ensures match t[bys[i]]
              case Str(s) => key[i] == s
              case Num(n) => Plain(key[i]) && Denoted(key[i]) == n
    {
      if t[bys[i]].Num? {
        PrintedIsPlain(t[bys[i]].n, key[i]);
      }
    }
  }

  // Exactly one row per key in key order, and every selected entry counted under its
  // own key: the rows partition the selection.
  ghost predicate Partition(sel: Contents, cols: seq<Column>, bys: seq<nat>, out: seq<GroupOut>) {
    && KeysStrict(out)
    && (forall t :: t in sel ==> exists i :: 0 <= i < |out| && out[i].key == TupleKey(t, bys))
    && (forall i, t :: 0 <= i < |out| && t in Share(sel, bys, out[i].key) ==> KeyNames(t, bys, out[i].key))
    && (forall i :: 0 <= i < |out| ==>
         Share(sel, bys, out[i].key) != map[] && ShareMeans(Share(sel, bys, out[i].key), cols, bys, out[i].aggs))
  }

  lemma {:induction false} KeyIrreflexive(a: seq<Text>)
    ensures !KeyLess(a, a)
  {
    if |a| == 0 {
    } else {
      KeyIrreflexive(a[1..]);
    }
  }

  // An entry is counted in one group only.
  lemma OneGroupEach(sel: Contents, cols: seq<Column>, bys: seq<nat>, out: seq<GroupOut>, t: Tuple)
    requires Partition(sel, cols, bys, out) && t in sel
    ensures exists i :: 0 <= i < |out| && t in Share(sel, bys, out[i].key) && forall j :: 0 <= j < |out| && j != i ==>
              t !in Share(sel, bys, out[j].key)
  {
    hide KeyLess, KeyBefore, KeyNames, TupleKey, ShareMeans;
    var i :| 0 <= i < |out| && out[i].key == TupleKey(t, bys);
    forall j | 0 <= j < |out| && j != i ensures out[j].key != out[i].key {
      assert if j < i then KeyBefore(out[j].key, out[i].key) else KeyBefore(out[i].key, out[j].key);
      KeyIrreflexive(out[i].key);
      KeyOrder(out[i].key, out[i].key);
    }
    assert t in Share(sel, bys, out[i].key);
  }

  // The group an entry is counted in carries the label its record gave, byte for byte; of an
  // integer, the plain numeral that denotes what the record spelled.
  lemma KeyIsLabel(sc: Schema, sel: Contents, cols: seq<Column>, bys: seq<nat>, out: seq<GroupOut>, dims: seq<Text>,
          t: Tuple, i: nat, b: nat)
    requires Partition(sel, cols, bys, out) && i < |out| && t in Share(sel, bys, out[i].key)
    requires NamesTuple(sc, dims, t) && b < |bys| && bys[b] < |sc.dims|
    ensures |out[i].key| == |bys|
    ensures if sc.dims[bys[b]].isInt then Plain(out[i].key[b]) && Denoted(out[i].key[b]) == Denoted(dims[bys[b]])
            else out[i].key[b] == dims[bys[b]]
  {
    hide Share, ShareMeans, KeysStrict, Plain, Denoted, Numeral64;
    assert KeyNames(t, bys, out[i].key) && Names(sc, bys[b], dims[bys[b]], t[bys[b]]);
  }

  lemma SpellInjective(sc: Schema, ds: Dicts, d: nat, a: nat, b: nat)
    requires DictsOK(sc, ds) && d < |ds| && a < |ds[d]| && b < |ds[d]|
    ensures Spell(ds[d][a]) == Spell(ds[d][b]) <==> a == b
  {
    assert DictOK(ds[d], sc.dims[d].isInt);
    assert KindOK(ds[d][a], sc.dims[d].isInt) && KindOK(ds[d][b], sc.dims[d].isInt);
    if sc.dims[d].isInt {
      ParseOfFormat(ds[d][a].n);
      ParseOfFormat(ds[d][b].n);
    }
  }

  lemma KeysTell(sc: Schema, ds: Dicts, bys: seq<nat>, x: Row, y: Row)
    requires DictsOK(sc, ds) && InRange(ds, x.ids) && InRange(ds, y.ids) && forall i :: 0 <= i < |bys| ==> bys[i] < |ds|
    ensures SpellIds(ds, bys, KeyIds(x, bys)) == SpellIds(ds, bys, KeyIds(y, bys)) <==> KeyIds(x, bys) == KeyIds(y, bys)
    ensures TupleKey(Decode(ds, x.ids), bys) == SpellIds(ds, bys, KeyIds(x, bys))
  {
    hide DictsOK;
    if SpellIds(ds, bys, KeyIds(x, bys)) == SpellIds(ds, bys, KeyIds(y, bys)) {
      forall i | 0 <= i < |bys| ensures KeyIds(x, bys)[i] == KeyIds(y, bys)[i] {
        assert SpellIds(ds, bys, KeyIds(x, bys))[i] == SpellIds(ds, bys, KeyIds(y, bys))[i];
        SpellInjective(sc, ds, bys[i], x.ids[bys[i]], y.ids[bys[i]]);
      }
    }
  }

  // A group's rows denote its share of the selection.
  lemma GroupIsShare(sc: Schema, ds: Dicts, bys: seq<nat>, rows: seq<Row>, k: seq<nat>)
    requires DictsOK(sc, ds) && RowsIn(sc, ds, rows) && UniqueIds(rows) && forall i :: 0 <= i < |bys| ==> bys[i] < |ds|
    requires |k| == |bys| && exists x :: x in rows && KeyIds(x, bys) == k
    ensures var mine := GroupRows(rows, bys, k);
            RowsIn(sc, ds, mine) && UniqueIds(mine)
              && MapOf(ds, mine) == Share(MapOf(ds, rows), bys, SpellIds(ds, bys, k))
  {
    hide DictsOK, KeyIds, SpellIds, TupleKey, MapOf, Decode, InRange, GroupRows, Share, RowsIn;
    var mine := GroupRows(rows, bys, k);
    var share := Share(MapOf(ds, rows), bys, SpellIds(ds, bys, k));
    GroupRowsOnly(rows, bys, k);
    MineIn(sc, ds, bys, rows, k);
    forall r | 0 <= r < |mine|
      ensures Decode(ds, mine[r].ids) in share && share[Decode(ds, mine[r].ids)] == EntryOf(mine[r])
    {
      MineShares(sc, ds, bys, rows, k, r);
    }
    forall t | t in share ensures exists r :: 0 <= r < |mine| && Decode(ds, mine[r].ids) == t {
      var r := SharesMine(sc, ds, bys, rows, k, t);
    }
    MapOfLists(sc, ds, mine);
    ListsUnique(ds, mine, MapOf(ds, mine), share);
  }

  lemma MineIn(sc: Schema, ds: Dicts, bys: seq<nat>, rows: seq<Row>, k: seq<nat>)
    requires RowsIn(sc, ds, rows)
    ensures RowsIn(sc, ds, GroupRows(rows, bys, k))
  {
    hide InRange, GroupRows, KeyIds;
    GroupRowsOnly(rows, bys, k);
    RowsAll(sc, ds, rows);
    forall r | 0 <= r < |GroupRows(rows, bys, k)|
      ensures InRange(ds, GroupRows(rows, bys, k)[r].ids) && |GroupRows(rows, bys, k)[r].mets| == |sc.metrics|
    {
      assert GroupRows(rows, bys, k)[r] in rows;
    }
  }

  lemma MineShares(sc: Schema, ds: Dicts, bys: seq<nat>, rows: seq<Row>, k: seq<nat>, r: nat)
    requires DictsOK(sc, ds) && RowsIn(sc, ds, rows) && UniqueIds(rows) && forall i :: 0 <= i < |bys| ==> bys[i] < |ds|
    requires |k| == |bys| && r < |GroupRows(rows, bys, k)|
    ensures var (x, share) := (GroupRows(rows, bys, k)[r], Share(MapOf(ds, rows), bys, SpellIds(ds, bys, k)));
            Decode(ds, x.ids) in share && share[Decode(ds, x.ids)] == EntryOf(x)
  {
    hide DictsOK, KeyIds, SpellIds, TupleKey, MapOf, Decode, InRange, GroupRows;
    var x := GroupRows(rows, bys, k)[r];
    GroupRowsOnly(rows, bys, k);
    assert x in GroupRows(rows, bys, k);
    var i :| 0 <= i < |rows| && rows[i] == x;
    MapOfLookup(sc, ds, rows, i);
    KeysTell(sc, ds, bys, x, x);
  }

  lemma SharesMine(sc: Schema, ds: Dicts, bys: seq<nat>, rows: seq<Row>, k: seq<nat>, t: Tuple) returns (r: nat)
    requires DictsOK(sc, ds) && RowsIn(sc, ds, rows) && forall i :: 0 <= i < |bys| ==> bys[i] < |ds|
    requires |k| == |bys| && (exists x :: x in rows && KeyIds(x, bys) == k)
               && t in Share(MapOf(ds, rows), bys, SpellIds(ds, bys, k))
    ensures r < |GroupRows(rows, bys, k)| && Decode(ds, GroupRows(rows, bys, k)[r].ids) == t
  {
    hide DictsOK, KeyIds, SpellIds, TupleKey, MapOf, Decode, InRange, GroupRows;
    var i := MapOfKey(ds, rows, t);
    var x0 :| x0 in rows && KeyIds(x0, bys) == k;
    RowsAll(sc, ds, rows);
    assert rows[i] in rows;
    KeysTell(sc, ds, bys, rows[i], x0);
    GroupRowsOnly(rows, bys, k);
    assert rows[i] in GroupRows(rows, bys, k);
    r :| 0 <= r < |GroupRows(rows, bys, k)| && GroupRows(rows, bys, k)[r] == rows[i];
  }

  lemma RowsAll(sc: Schema, ds: Dicts, rows: seq<Row>)
    requires RowsIn(sc, ds, rows)
    ensures forall x :: x in rows ==> InRange(ds, x.ids) && |x.mets| == |sc.metrics|
  {
  }

  // The rows grouped so far, with everything the visits need.
  ghost predicate Grouping(sc: Schema, ds: Dicts, cols: seq<Column>, bys: seq<nat>, st: GState, rows: seq<Row>) {
    && ColumnsOK(sc, cols) && |ds| == |sc.dims| && (forall i :: 0 <= i < |bys| ==> bys[i] < |sc.dims|)
    && (forall x :: x in rows ==> Fits(cols, bys, x))
    && st == FoldAll(ds, cols, bys, rows)
  }

  lemma SpelledKeysDistinct(sc: Schema, ds: Dicts, cols: seq<Column>, bys: seq<nat>, st: GState, rows: seq<Row>)
    requires DictsOK(sc, ds) && RowsIn(sc, ds, rows) && Grouping(sc, ds, cols, bys, st, rows)
    ensures Distinct(st.skeys) && forall g :: 0 <= g < |st.skeys| ==> |st.skeys[g]| == |bys|
  {
    hide DictsOK, InRange, KeyIds, SpellIds, FirstKeys, GroupRows, Folded, SeenOK, ColumnsOK, Fits;
    var ks := FirstKeys(rows, bys);
    FoldGroups(ds, cols, bys, rows);
    FirstKeysOnly(rows, bys);
    RowsAll(sc, ds, rows);
    forall g | 0 <= g < |st.skeys|
      ensures |st.skeys[g]| == |bys| == |ks[g]| && st.skeys[g] == SpellIds(ds, bys, ks[g])
    {
      assert GroupOK(ds, cols, bys, st, rows, g);
    }
    forall g, h | 0 <= g < h < |st.skeys| ensures st.skeys[g] != st.skeys[h] {
      assert ks[g] in ks && ks[h] in ks;
      var x :| x in rows && KeyIds(x, bys) == ks[g];
      var y :| y in rows && KeyIds(y, bys) == ks[h];
      KeysTell(sc, ds, bys, x, y);
    }
  }

  ghost predicate FinishedRow(cols: seq<Column>, st: GState, g: nat, o: GroupOut)
    requires g < |st.cnt| == |st.saggs| == |st.skeys|
  {
    && o.key == st.skeys[g] && |o.aggs| == |cols| == |st.saggs[g]|
    && forall j :: 0 <= j < |cols| ==> o.aggs[j] == Output(cols[j], st.saggs[g][j], st.cnt[g])
  }

  // The finished rows, in sorted order.
  ghost predicate Finished(cols: seq<Column>, st: GState, ord: seq<nat>, out: seq<GroupOut>)
    requires |st.cnt| == |st.saggs| == |st.skeys|
  {
    && Insertion.Permutes(ord, |st.cnt|) && |out| == |ord|
    && forall i :: 0 <= i < |out| ==> FinishedRow(cols, st, ord[i], out[i])
  }

  lemma GroupedIsPartition(sc: Schema, ds: Dicts, cols: seq<Column>, bys: seq<nat>, st: GState, rows: seq<Row>,
          ord: seq<nat>, out: seq<GroupOut>)
    requires DictsOK(sc, ds) && RowsIn(sc, ds, rows) && UniqueIds(rows) && Grouping(sc, ds, cols, bys, st, rows)
    requires Finished(cols, st, ord, out) && KeysAscend(st.skeys, ord)
    ensures Partition(MapOf(ds, rows), cols, bys, out)
  {
    hide DictsOK, RowsIn, InRange, KeyIds, SpellIds, FirstKeys, GroupRows, Folded, SeenOK, MapOf, Share,
      ShareMeans, KeyLess, KeyBefore, KeyNames, TupleKey, GroupOK, ColumnsOK, Fits, Output;
    var sel := MapOf(ds, rows);
    forall i, j | 0 <= i < j < |out| ensures KeyBefore(out[i].key, out[j].key) {
      KeyOrder(st.skeys[ord[i]], st.skeys[ord[j]]);
    }
    forall i, t | 0 <= i < |out| && t in Share(sel, bys, out[i].key) ensures KeyNames(t, bys, out[i].key) {
      SharesKey(sel, bys, out[i].key, t);
    }
    FoldGroups(ds, cols, bys, rows);
    FirstKeysOnly(rows, bys);
    forall i | 0 <= i < |out|
      ensures Share(sel, bys, out[i].key) != map[] && ShareMeans(Share(sel, bys, out[i].key), cols, bys, out[i].aggs)
    {
      GroupMeans(sc, ds, cols, bys, st, rows, ord[i], out[i]);
    }
    forall t | t in sel ensures exists i :: 0 <= i < |out| && out[i].key == TupleKey(t, bys) {
      var g := GroupOfTuple(sc, ds, cols, bys, st, rows, t);
      assert g in ord;
      var i :| 0 <= i < |ord| && ord[i] == g;
      assert out[i].key == TupleKey(t, bys);
    }
  }

  lemma SharesKey(sel: Contents, bys: seq<nat>, key: seq<Text>, t: Tuple)
    requires t in Share(sel, bys, key)
    ensures KeyNames(t, bys, key)
  {
    hide TupleKey, KeyNames;
    TupleKeyNames(t, bys);
  }

  lemma GroupOfTuple(sc: Schema, ds: Dicts, cols: seq<Column>, bys: seq<nat>, st: GState, rows: seq<Row>, t: Tuple)
    returns (g: nat)
    requires DictsOK(sc, ds) && RowsIn(sc, ds, rows) && Grouping(sc, ds, cols, bys, st, rows) && t in MapOf(ds, rows)
    ensures g < |st.skeys| && st.skeys[g] == TupleKey(t, bys)
  {
    hide DictsOK, InRange, KeyIds, SpellIds, TupleKey, FirstKeys, GroupRows, Folded, SeenOK, MapOf, ColumnsOK,
      Fits, Decode;
    var r := MapOfKey(ds, rows, t);
    RowsAll(sc, ds, rows);
    FoldGroups(ds, cols, bys, rows);
    FirstKeysOnly(rows, bys);
    assert rows[r] in rows;
    KeysTell(sc, ds, bys, rows[r], rows[r]);
    var k := KeyIds(rows[r], bys);
    assert k in FirstKeys(rows, bys);
    g :| 0 <= g < |FirstKeys(rows, bys)| && FirstKeys(rows, bys)[g] == k;
    assert GroupOK(ds, cols, bys, st, rows, g);
  }

  lemma GroupMeans(sc: Schema, ds: Dicts, cols: seq<Column>, bys: seq<nat>, st: GState, rows: seq<Row>, g: nat,
          o: GroupOut)
    requires DictsOK(sc, ds) && RowsIn(sc, ds, rows) && UniqueIds(rows) && Grouping(sc, ds, cols, bys, st, rows)
    requires g < |st.cnt| && FinishedRow(cols, st, g, o)
    ensures var share := Share(MapOf(ds, rows), bys, o.key);
            share != map[] && ShareMeans(share, cols, bys, o.aggs)
  {
    hide DictsOK, RowsIn, InRange, KeyIds, SpellIds, FirstKeys, GroupRows, Folded, SeenOK, MapOf, Share, Fits,
      Output, AggMeans, Exact;
    FoldGroups(ds, cols, bys, rows);
    var k := FirstKeys(rows, bys)[g];
    FirstKeysOnly(rows, bys);
    assert k in FirstKeys(rows, bys);
    assert GroupOK(ds, cols, bys, st, rows, g);
    var mine := GroupRows(rows, bys, k);
    GroupIsShare(sc, ds, bys, rows, k);
    MapOfCard(sc, ds, mine);
    forall j | 0 <= j < |cols| && Exact(cols, bys, j) ensures AggMeans(MapOf(ds, mine), cols[j], o.aggs[j]) {
      ColumnIsOracle(sc, ds, mine, cols[j], st.saggs[g][j]);
    }
  }

  // ---- The query ----

  predicate WellFormedBy(sc: Schema, names: seq<string>) {
    && 0 < |names| <= |sc.dims|
    && (forall i :: 0 <= i < |names| ==> exists d :: 0 <= d < |sc.dims| && sc.dims[d].name == names[i])
    && (forall i, j :: 0 <= i < j < |names| ==> names[i] != names[j])
  }

  method ResolveBy(sc: Schema, names: seq<string>) returns (ok: bool, bys: seq<nat>)
    requires sc.Valid()
    ensures ok <==> WellFormedBy(sc, names)
    ensures ok ==> |bys| == |names| && forall i :: 0 <= i < |bys| ==>
              bys[i] < |sc.dims| && sc.dims[bys[i]].name == names[i]
  {
    bys := [];
    if |names| == 0 || |names| > |sc.dims| {
      return false, bys;
    }
    for i := 0 to |names|
      invariant |bys| == i && forall k :: 0 <= k < i ==> bys[k] < |sc.dims| && sc.dims[bys[k]].name == names[k]
      invariant forall k, l :: 0 <= k < l < i ==> names[k] != names[l]
    {
      var di := sc.DimIndex(names[i]);
      if di < 0 {
        return false, bys;
      }
      for j := 0 to i
        invariant forall k :: 0 <= k < j ==> names[k] != names[i]
      {
        if bys[j] == di {
          assert names[j] == names[i];
          return false, bys;
        }
        SameNameSameDim(sc, names[j], bys[j]);
      }
      bys := bys + [di];
    }
    ok := true;
  }

  lemma SameNameSameDim(sc: Schema, name: string, d: nat)
    requires sc.Valid() && d < |sc.dims| && sc.dims[d].name == name
    ensures sc.DimIndex(name) == d
  {
  }

  method VisitHit(sc: Schema, v: View, res: Grouped, cols: seq<Column>, bys: seq<nat>, row: Row,
          ghost hits: seq<Row>, ghost src: Live.Src)
    requires v.Valid(sc) && Live.IsLive(v.Model(), src) && Live.RowOf(v.Model(), src) == row
    requires Grouping(sc, CombOf(v.Model()), cols, bys, res.Model(), hits)
    modifies res
    ensures Grouping(sc, CombOf(v.Model()), cols, bys, res.Model(), hits + [row])
  {
    hide View.Valid, InRange, Visited, ColumnsOK, Fits, FoldAll;
    ghost var m := v.Model();
    ghost var ds := CombOf(m);
    ValidView(sc, v);
    Live.LiveInRange(sc, m, src);
    RowFitsAll(sc, ds, cols, bys, row);
    res.Visit(v, sc, cols, bys, row);
    FoldAdd(ds, cols, bys, hits, row);
  }

  lemma RowFitsAll(sc: Schema, ds: Dicts, cols: seq<Column>, bys: seq<nat>, row: Row)
    requires ColumnsOK(sc, cols) && |ds| == |sc.dims| && InRange(ds, row.ids) && |row.mets| == |sc.metrics|
    requires forall i :: 0 <= i < |bys| ==> bys[i] < |sc.dims|
    ensures Fits(cols, bys, row)
  {
    forall j | 0 <= j < |cols|
      ensures cols[j].ddim < |row.ids| && cols[j].met < |row.mets| && (cols[j].ddim >= 0 ==> cols[j].met < 0)
    {
      assert ColumnOK(sc, cols[j]);
    }
  }

  method GroupBase(s: Sweep, v: View, ghost now: int, res: Grouped, cols: seq<Column>, bys: seq<nat>)
    returns (ghost visited: seq<nat>)
    requires v.Valid(s.sc) && SweepOK(s, v.Model(), now)
    requires Grouping(s.sc, CombOf(v.Model()), cols, bys, res.Model(), [])
    modifies res
    ensures Grouping(s.sc, CombOf(v.Model()), cols, bys, res.Model(),
              BaseHits(s.sc, v.Model(), s.groups, now, |v.base.rows|))
    ensures Swept(s.ivs, |s.ivs|, HighWater(s.ivs, |s.ivs|), visited)
  {
    hide View.Valid, View.Model, SweepOK, BaseHits, BaseHit, Grouping, Swept;
    ghost var m := v.Model();
    NoBaseHits(s, m, now);
    var done := 0;
    visited := [];
    SweptStart(s.ivs);
    for i := 0 to |s.ivs|
      invariant done == HighWater(s.ivs, i)
      invariant v.Valid(s.sc) && v.Model() == m
      invariant Grouping(s.sc, CombOf(m), cols, bys, res.Model(), BaseHits(s.sc, m, s.groups, now, done))
      invariant Swept(s.ivs, i, done, visited)
    {
      var lo, hi := s.ivs[i].lo, s.ivs[i].hi;
      EnterInterval(s, m, now, i);
      SweptEnter(s.ivs, i, visited);
      if lo < done {
        lo := done;
      }
      if hi <= done {
        SweptSkipAt(s, m, now, i, visited);
        continue;
      }
      BaseLength(v);
      visited := GroupSpan(s, v, now, res, cols, bys, i, lo, visited);
      SweptLeaveAt(s, m, now, i, visited);
      done := hi;
    }
    LeaveIntervals(s, m, now);
    BaseLength(v);
  }

  lemma BaseLength(v: View)
    ensures |v.Model().base.rows| == |v.base.rows|
  {
  }

  // The row loop of one interval.
  method GroupSpan(s: Sweep, v: View, ghost now: int, res: Grouped, cols: seq<Column>, bys: seq<nat>, i: nat, lo: nat,
          ghost visited0: seq<nat>)
    returns (ghost visited: seq<nat>)
    requires v.Valid(s.sc) && SweepOK(s, v.Model(), now) && i < |s.ivs| && lo <= s.ivs[i].hi <= |v.base.rows|
    requires Grouping(s.sc, CombOf(v.Model()), cols, bys, res.Model(), BaseHits(s.sc, v.Model(), s.groups, now, lo))
    requires Swept(s.ivs, i, lo, visited0) && HighWater(s.ivs, i) <= lo && s.ivs[i].lo <= lo
    modifies res
    ensures Grouping(s.sc, CombOf(v.Model()), cols, bys, res.Model(),
              BaseHits(s.sc, v.Model(), s.groups, now, s.ivs[i].hi))
    ensures Swept(s.ivs, i, s.ivs[i].hi, visited)
  {
    hide View.Valid, SweepOK, BaseHits, BaseHit, Grouping, Swept, HighWater;
    ghost var m := v.Model();
    visited := visited0;
    for r := lo to s.ivs[i].hi
      invariant v.Valid(s.sc) && v.Model() == m
      invariant Grouping(s.sc, CombOf(m), cols, bys, res.Model(), BaseHits(s.sc, m, s.groups, now, r))
      invariant Swept(s.ivs, i, r, visited)
    {
      var hit := TestBase(s, v, now, r);
      HitsStep(s, m, now, r);
      if hit {
        HitIsLive(s, m, now, Live.Src.B(r));
        VisitHit(s.sc, v, res, cols, bys, v.base.rows[r], BaseHits(s.sc, m, s.groups, now, r), Live.Src.B(r));
      }
      SweptRow(s.ivs, i, r, visited);
      visited := visited + [r];
    }
  }

  method GroupDelta(s: Sweep, v: View, ghost now: int, res: Grouped, cols: seq<Column>, bys: seq<nat>)
    requires v.Valid(s.sc) && SweepOK(s, v.Model(), now)
    requires Grouping(s.sc, CombOf(v.Model()), cols, bys, res.Model(),
               BaseHits(s.sc, v.Model(), s.groups, now, |v.base.rows|))
    modifies res
    ensures Grouping(s.sc, CombOf(v.Model()), cols, bys, res.Model(), AllHits(s.sc, v.Model(), s.groups, now))
  {
    hide View.Valid, SweepOK, BaseHits, DeltaHit, Grouping;
    ghost var m := v.Model();
    for r := 0 to |v.delta.rows|
      invariant v.Valid(s.sc) && v.Model() == m
      invariant Grouping(s.sc, CombOf(m), cols, bys, res.Model(), Hits(s.sc, m, s.groups, now, r))
    {
      var hit := TestDelta(s, v, now, r);
      DeltaStep(s, m, now, r);
      if hit {
        HitIsLive(s, m, now, Live.Src.D(r));
        VisitHit(s.sc, v, res, cols, bys, v.delta.rows[r], Hits(s.sc, m, s.groups, now, r), Live.Src.D(r));
      }
    }
  }

  // What the result is, row for row: the fold's groups, finished, in key order.
  ghost predicate Computed(ds: Dicts, cols: seq<Column>, bys: seq<nat>, rows: seq<Row>, out: seq<GroupOut>) {
    var st := FoldAll(ds, cols, bys, rows);
    exists ord :: Finished(cols, st, ord, out) && KeysAscend(st.skeys, ord)
  }

  // Count and average columns are completed, then the groups emitted in key order.
  method Emit(sc: Schema, ghost ds: Dicts, res: Grouped, cols: seq<Column>, bys: seq<nat>, ghost rows: seq<Row>)
    returns (out: seq<GroupOut>)
    requires DictsOK(sc, ds) && RowsIn(sc, ds, rows) && Grouping(sc, ds, cols, bys, res.Model(), rows)
    ensures Computed(ds, cols, bys, rows, out)
  {
    hide DictsOK, RowsIn, ColumnsOK, Fits, KeysAscend, FoldAll, FinishedRow;
    ghost var st := res.Model();
    SpelledKeysDistinct(sc, ds, cols, bys, st, rows);
    RowWidths(ds, cols, bys, rows);
    var ord := SortGroups(res.skeys, |bys|);
    assert st == FoldAll(ds, cols, bys, rows) && |st.saggs| == |st.skeys| == |res.skeys|;
    out := [];
    for i := 0 to |ord|
      invariant |out| == i && forall k :: 0 <= k < i ==> FinishedRow(cols, st, ord[k], out[k])
    {
      var g := ord[i];
      assert g < |st.saggs| && |st.saggs[g]| == |cols|;
      var aggs := Finish(cols, res.saggs[g], res.cnt[g]);
      FinishedOne(cols, st, g, aggs);
      out := out + [GroupOut(res.skeys[g], aggs)];
    }
    assert Finished(cols, st, ord, out);
  }

  lemma FinishedOne(cols: seq<Column>, st: GState, g: nat, aggs: seq<Option<real>>)
    requires g < |st.cnt| == |st.saggs| == |st.skeys| && |aggs| == |cols| == |st.saggs[g]|
    requires forall j :: 0 <= j < |cols| ==> aggs[j] == Output(cols[j], st.saggs[g][j], st.cnt[g])
    ensures FinishedRow(cols, st, g, GroupOut(st.skeys[g], aggs))
  {
  }

  lemma RowWidths(ds: Dicts, cols: seq<Column>, bys: seq<nat>, rows: seq<Row>)
    requires forall x :: x in rows ==> Fits(cols, bys, x)
    ensures var st := FoldAll(ds, cols, bys, rows);
            forall g :: 0 <= g < |st.saggs| ==> |st.saggs[g]| == |cols|
  {
    hide Fits, FoldAll;
    var st := FoldAll(ds, cols, bys, rows);
    FoldGroups(ds, cols, bys, rows);
    forall g | 0 <= g < |st.saggs| ensures |st.saggs[g]| == |cols| {
      assert GroupOK(ds, cols, bys, st, rows, g);
    }
  }

  // The result a query computes from a view partitions the oracle's selection.
  lemma ComputedIsPartition(sc: Schema, m: ViewV, groups: seq<Group>, now: int, cols: seq<Column>, bys: seq<nat>,
          out: seq<GroupOut>)
    requires ViewOK(sc, m) && ColumnsOK(sc, cols) && forall i :: 0 <= i < |bys| ==> bys[i] < |sc.dims|
    requires Computed(CombOf(m), cols, bys, AllHits(sc, m, groups, now), out)
    ensures Partition(Selected(sc, Abs(m), groups, now), cols, bys, out)
  {
    hide ViewOK, ColumnsOK, DictsOK, RowsIn, UniqueIds, FoldAll, FinishedRow, KeysAscend, AllHits, Selected, Abs, MapOf,
      Partition, Fits, InRange;
    var (ds, rows) := (CombOf(m), AllHits(sc, m, groups, now));
    CombOK(sc, m);
    HitsAreSelected(sc, m, groups, now);
    HitsFit(sc, ds, cols, bys, rows);
    var st := FoldAll(ds, cols, bys, rows);
    var ord :| Finished(cols, st, ord, out) && KeysAscend(st.skeys, ord);
    GroupedIsPartition(sc, ds, cols, bys, st, rows, ord, out);
  }

  lemma HitsFit(sc: Schema, ds: Dicts, cols: seq<Column>, bys: seq<nat>, rows: seq<Row>)
    requires ColumnsOK(sc, cols) && |ds| == |sc.dims| && RowsIn(sc, ds, rows) && forall i :: 0 <= i < |bys| ==>
               bys[i] < |sc.dims|
    ensures forall x :: x in rows ==> Fits(cols, bys, x)
  {
    hide ColumnsOK, Fits, RowsIn, InRange;
    RowsAll(sc, ds, rows);
    forall x | x in rows ensures Fits(cols, bys, x) {
      RowFitsAll(sc, ds, cols, bys, x);
    }
  }

  // Every column of every output row is the oracle's aggregate of its share.
  ghost predicate AllColumnsMean(sel: Contents, cols: seq<Column>, bys: seq<nat>, out: seq<GroupOut>) {
    forall i, j :: 0 <= i < |out| && 0 <= j < |cols| ==> ColumnMeans(sel, cols, bys, out, i, j)
  }

  ghost predicate ColumnMeans(sel: Contents, cols: seq<Column>, bys: seq<nat>, out: seq<GroupOut>, i: nat, j: nat)
    requires i < |out| && j < |cols|
  {
    && j < |out[i].aggs|
    && (cols[j].op.CountDistinct? <==> cols[j].ddim >= 0)
         && (cols[j].op.CountDistinct? || cols[j].op.Count? <==> cols[j].met < 0)
    && AggMeans(Share(sel, bys, out[i].key), cols[j], out[i].aggs[j])
  }

  lemma NoCollisionMeans(sel: Contents, cols: seq<Column>, bys: seq<nat>, out: seq<GroupOut>)
    requires Partition(sel, cols, bys, out) && !Collides(cols, bys)
    ensures AllColumnsMean(sel, cols, bys, out)
  {
    hide Share, Exact, Collides, AggMeans;
    NoCollisionExact(cols, bys);
    forall i, j | 0 <= i < |out| && 0 <= j < |cols| ensures ColumnMeans(sel, cols, bys, out, i, j) {
      assert ShareMeans(Share(sel, bys, out[i].key), cols, bys, out[i].aggs);
    }
  }

  method RunGroups(sc: Schema, v: View, groups: seq<Group>, qs: QueryScratch, now: int, cols: seq<Column>,
          bys: seq<nat>)
    returns (out: seq<GroupOut>, ghost visited: seq<nat>)
    requires v.Valid(sc) && qs.Valid() && ByLo(qs.ivs) && Expand.IvsOK(qs.ivs, |v.base.rows|)
    requires Match.Planned(sc, v.Model(), groups, qs.plans, qs.Pools(), qs.ivs) && ColumnsOK(sc, cols)
               && forall i :: 0 <= i < |bys| ==> bys[i] < |sc.dims|
    ensures Computed(CombOf(v.Model()), cols, bys, AllHits(sc, v.Model(), groups, now), out)
    ensures Swept(qs.ivs, |qs.ivs|, HighWater(qs.ivs, |qs.ivs|), visited)
  {
    hide *;
    ghost var m := v.Model();
    ValidView(sc, v);
    CombOK(sc, m);
    var s := Prepare(sc, v, groups, qs, now);
    var res := new Grouped();
    GroupingStart(sc, m, cols, bys);
    visited := GroupBase(s, v, now, res, cols, bys);
    assert v.Valid(sc) && v.Model() == m;
    GroupDelta(s, v, now, res, cols, bys);
    HitsAreSelected(sc, m, groups, now);
    out := Emit(sc, CombOf(m), res, cols, bys, AllHits(sc, m, groups, now));
  }

  lemma GroupingStart(sc: Schema, m: ViewV, cols: seq<Column>, bys: seq<nat>)
    requires ViewOK(sc, m) && ColumnsOK(sc, cols) && forall i :: 0 <= i < |bys| ==> bys[i] < |sc.dims|
    ensures Grouping(sc, CombOf(m), cols, bys, NO_GROUPS, [])
  {
  }

  // QueryGroupBy: the output partitions the oracle's selection by the by values, and every
  // column is the oracle's unless two distinct columns collide.
  method QueryGroupBy(sc: Schema, v: View, names: seq<string>, aggs: seq<Agg>, groups: seq<Group>, maxScan: int,
          now: int, prev: Caps)
    returns (badArgs: bool, r: Answer<seq<GroupOut>>, cols: seq<Column>, bys: seq<nat>, ghost rooms: seq<Option<nat>>,
             ghost visited: seq<nat>)
    requires v.Valid(sc)
    ensures badArgs <==>
              !(|aggs| > 0 && (forall j :: 0 <= j < |aggs| ==> WellFormedAgg(sc, aggs[j])) && WellFormedBy(sc, names))
    ensures !badArgs ==> |cols| == |aggs| && forall j :: 0 <= j < |aggs| ==> Resolves(sc, aggs[j], cols[j])
    ensures !badArgs ==> |bys| == |names| && forall i :: 0 <= i < |bys| ==>
              bys[i] < |sc.dims| && sc.dims[bys[i]].name == names[i]
    ensures !badArgs ==> Decided(sc, v.Model(), groups, |aggs|, prev, maxScan, rooms, r)
    ensures !badArgs && r.Result? ==>
              Computed(CombOf(v.Model()), cols, bys, AllHits(sc, v.Model(), groups, now), r.value)
    ensures !badArgs && r.Result? ==> Partition(Selected(sc, v.Contents(), groups, now), cols, bys, r.value)
    ensures !badArgs && r.Result? && (|aggs| <= 256 || !Collides(cols, bys)) ==>
              AllColumnsMean(Selected(sc, v.Contents(), groups, now), cols, bys, r.value)
    ensures !badArgs && r.Result? ==> Visits(visited, ReachSet(sc, v.Model(), groups, rooms))
  {
    hide *;
    ghost var m := v.Model();
    r, bys, rooms, visited := Answer.NoGroups, [], [], [];
    var ok;
    ok, cols := ResolveAggs(sc, aggs);
    if ok {
      assert sc.Valid() by {
        SchemaOK(sc, v);
      }
      ok, bys := ResolveBy(sc, names);
    }
    badArgs := !ok;
    if ok {
      ResolvedColumns(sc, aggs, cols);
      var qs, stack := Route(groups, |aggs|, prev);
      FreshIs(qs);
      assert v.Valid(sc) && v.Model() == m;
      var plan;
      plan, rooms := PlanGroups(sc, v, groups, qs, maxScan, |aggs|);
      assert v.Valid(sc) && v.Model() == m;
      match plan {
        case NoGroups =>
        case BadCond => r := BadCondition;
        case OverBudget => r := ScanBudget;
        case Ready =>
          ghost var ivs := qs.ivs;
          var out;
          out, visited := RunGroups(sc, v, groups, qs, now, cols, bys);
          VisitsAreCovered(ivs, |v.base.rows|, visited);
          ResultMeans(sc, v, groups, now, cols, bys, out);
          r := Result(out);
      }
      Decide(sc, v, groups, |aggs|, prev, maxScan, rooms, plan, r);
    }
  }

  lemma ResultMeans(sc: Schema, v: View, groups: seq<Group>, now: int, cols: seq<Column>, bys: seq<nat>,
          out: seq<GroupOut>)
    requires v.Valid(sc) && ColumnsOK(sc, cols) && forall i :: 0 <= i < |bys| ==> bys[i] < |sc.dims|
    requires Computed(CombOf(v.Model()), cols, bys, AllHits(sc, v.Model(), groups, now), out)
    ensures Partition(Selected(sc, v.Contents(), groups, now), cols, bys, out)
    ensures |cols| <= 256 || !Collides(cols, bys) ==>
              AllColumnsMean(Selected(sc, v.Contents(), groups, now), cols, bys, out)
  {
    hide *;
    ValidView(sc, v);
    ContentsAre(v);
    ComputedIsPartition(sc, v.Model(), groups, now, cols, bys, out);
    if |cols| <= 256 {
      FewColumnsExact(cols, bys);
    }
    if !Collides(cols, bys) {
      NoCollisionMeans(Selected(sc, v.Contents(), groups, now), cols, bys, out);
    }
  }

  lemma ResolvedColumns(sc: Schema, aggs: seq<Agg>, cols: seq<Column>)
    requires |aggs| == |cols| > 0 && forall j :: 0 <= j < |aggs| ==> Resolves(sc, aggs[j], cols[j])
    ensures ColumnsOK(sc, cols)
  {
  }

}
