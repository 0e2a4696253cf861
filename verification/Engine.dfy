// The published structures: immutable base snapshot, delta overlay, and the view
// that readers load through one pointer.
module Engine {
  import opened Packing
  import opened Table
  import opened Dictionary
  import opened Bitmap

  // sort.Search over an ascending key column: first index with keys[i] >= x.
  method LowerBound(keys: seq<nat>, x: nat) returns (i: nat)
    requires Ascending(keys)
    ensures i <= |keys|
    ensures forall j :: 0 <= j < i ==> keys[j] < x
    ensures forall j :: i <= j < |keys| ==> keys[j] >= x
  {
    i := 0;
    var hi := |keys|;
    while i < hi
      invariant 0 <= i <= hi <= |keys|
      invariant forall j :: 0 <= j < i ==> keys[j] < x
      invariant forall j :: hi <= j < |keys| ==> keys[j] >= x
    {
      var h := (i + hi) / 2;
      if keys[h] >= x { hi := h; } else { i := h + 1; }
    }
  }

  // First index with keys[i] > x.
  method UpperBound(keys: seq<nat>, x: nat) returns (i: nat)
    requires Ascending(keys)
    ensures i <= |keys|
    ensures forall j :: 0 <= j < i ==> keys[j] <= x
    ensures forall j :: i <= j < |keys| ==> keys[j] > x
  {
    i := LowerBound(keys, x + 1);
  }

  class Snapshot {
    var dicts: seq<Dict>
    var shifts: seq<nat>
    var rows: seq<Row>
    var keys: seq<nat>
    var maxUpdated: int
    var minUpdated: int
    var minExpire: int

    function Model(): SnapV
      reads this, dicts
    {
      SnapV(Entries(dicts), shifts, rows, keys, maxUpdated, minUpdated, minExpire)
    }

    ghost predicate Valid(sc: Schema)
      reads this, dicts
    {
      AllValid(sc, dicts) && SnapOK(sc, Model())
    }

    constructor (dicts: seq<Dict>, shifts: seq<nat>)
      ensures this.dicts == dicts && this.shifts == shifts && rows == [] && keys == []
      ensures maxUpdated == minUpdated == minExpire == 0
    {
      this.dicts, this.shifts := dicts, shifts;
      rows, keys := [], [];
      maxUpdated, minUpdated, minExpire := 0, 0, 0;
    }

    // Appends a kept row, with its key.
    method Append(row: Row, key: nat)
      modifies this`rows, this`keys
      ensures rows == old(rows) + [row] && keys == old(keys) + [key]
    {
      rows := rows + [row];
      keys := keys + [key];
    }

    // Takes one kept row into account; 0 stands for "none".
    method TrackMin(updated: int, expire: int)
      modifies this`minUpdated, this`minExpire
      ensures minUpdated == TrackUpdated(old(minUpdated), updated)
      ensures minExpire == TrackExpire(old(minExpire), expire)
    {
      if minUpdated == 0 || updated < minUpdated {
        minUpdated := updated;
      }
      if expire != 0 && (minExpire == 0 || expire < minExpire) {
        minExpire := expire;
      }
    }

    // Finds the row of an id tuple: the packed key narrows by binary search,
    // rows sharing it are compared one by one.
    method FindRow(sc: Schema, ids: seq<nat>) returns (r: int)
      requires Valid(sc) && InRange(Entries(dicts), ids)
      ensures -1 <= r < |rows|
      ensures r >= 0 ==> rows[r].ids == ids
      ensures r < 0 ==> forall i :: 0 <= i < |rows| ==> rows[i].ids != ids
    {
      hide Layout, Fits, Nested, UniqueIds, DictsOK, RowsIn, Scalars, InRange;
      ghost var m := Model();
      KeyFits(sc, m, ids);
      var key := PackKey(shifts, ids);
      var lo := LowerBound(keys, key);
      SearchSkips(sc, m, ids, lo);
      r := lo;
      while r < |keys| && keys[r] == key
        invariant lo <= r <= |keys| == |rows|
        invariant forall i :: 0 <= i < r ==> rows[i].ids != ids
      {
        if rows[r].ids == ids {
          return;
        }
        r := r + 1;
      }
      SearchStops(sc, m, ids, r);
      r := -1;
    }
  }

  // Rows whose key differs carry another tuple.
  lemma SearchSkips(sc: Schema, s: SnapV, ids: seq<nat>, lo: nat)
    requires SnapOK(sc, s) && |s.shifts| <= |ids|
    requires lo <= |s.keys| && forall j :: 0 <= j < lo ==> s.keys[j] < KeyOf(s.shifts, ids)
    ensures forall i :: 0 <= i < lo ==> s.rows[i].ids != ids
  {
    hide Layout, DictsOK, UniqueIds, Scalars, InRange;
  }

  lemma SearchStops(sc: Schema, s: SnapV, ids: seq<nat>, r: nat)
    requires SnapOK(sc, s) && |s.shifts| <= |ids| && r <= |s.keys|
    requires forall i :: 0 <= i < r ==> s.rows[i].ids != ids
    requires r < |s.keys| ==> s.keys[r] > KeyOf(s.shifts, ids)
    ensures forall i :: 0 <= i < |s.rows| ==> s.rows[i].ids != ids
  {
    hide Layout, DictsOK, UniqueIds, Scalars, InRange;
    forall i | r <= i < |s.rows| ensures s.rows[i].ids != ids {
      assert s.keys[i] >= s.keys[r];
    }
  }

  // In-range ids fit the key layout of their snapshot.
  lemma KeyFits(sc: Schema, s: SnapV, ids: seq<nat>)
    requires SnapOK(sc, s) && InRange(s.dicts, ids)
    ensures Fits(IndexCards(sc, s.dicts), ids[..sc.indexDims])
    ensures Nested(s.shifts, ids)
  {
    var pre := ids[..sc.indexDims];
    FitsBelow(IndexCards(sc, s.dicts), pre);
    LayoutNested(s.shifts, IndexCards(sc, s.dicts), pre);
    NestedTake(s.shifts, ids, sc.indexDims);
  }

  lemma NestedTake(shifts: seq<nat>, ids: seq<nat>, n: nat)
    requires n <= |ids| && Nested(shifts, ids[..n])
    ensures Nested(shifts, ids)
  {
    forall i | 0 <= i < |shifts| ensures NestedAt(shifts, ids, i) {
      assert NestedAt(shifts, ids[..n], i);
    }
  }

  // The new overlay after an index hit: the whole row is replaced.
  function ReplaceRow(d: DeltaV, row: Row): DeltaV
    requires row.ids in d.index && d.index[row.ids] < |d.rows|
  {
    DeltaV(d.rows[d.index[row.ids] := row], d.index,
           if row.updated > d.maxUpdated then row.updated else d.maxUpdated, d.hasExpiry || row.expire != 0)
  }

  // The new overlay after a tuple's first row.
  function AppendRow(d: DeltaV, row: Row): DeltaV {
    DeltaV(d.rows + [row], d.index[row.ids := |d.rows|],
           if row.updated > d.maxUpdated then row.updated else d.maxUpdated, d.hasExpiry || row.expire != 0)
  }

  class Delta {
    var rows: seq<Row>
    var index: map<seq<nat>, nat>
    var maxUpdated: int
    var hasExpiry: bool

    function Model(): DeltaV
      reads this
    {
      DeltaV(rows, index, maxUpdated, hasExpiry)
    }

    constructor ()
      ensures Model() == DeltaV([], map[], 0, false)
    {
      rows, index, maxUpdated, hasExpiry := [], map[], 0, false;
    }

    // The column-by-column copy an Apply batch starts from.
    constructor Copy(d: Delta)
      ensures Model() == d.Model()
    {
      rows, index, maxUpdated, hasExpiry := d.rows, d.index, d.maxUpdated, d.hasExpiry;
    }

    method Replace(row: Row)
      requires row.ids in index && index[row.ids] < |rows|
      modifies this
      ensures Model() == ReplaceRow(old(Model()), row)
    {
      rows := rows[index[row.ids] := row];
      if row.expire != 0 {
        hasExpiry := true;
      }
      if row.updated > maxUpdated {
        maxUpdated := row.updated;
      }
    }

    method Append(row: Row)
      modifies this
      ensures Model() == AppendRow(old(Model()), row)
    {
      index := index[row.ids := |rows|];
      rows := rows + [row];
      if row.expire != 0 {
        hasExpiry := true;
      }
      if row.updated > maxUpdated {
        maxUpdated := row.updated;
      }
    }
  }

  class View {
    var base: Snapshot
    var delta: Delta
    var extras: seq<Dict>
    var overridden: seq<nat>

    function Model(): ViewV
      reads this, base, base.dicts, delta, extras
    {
      ViewV(base.Model(), delta.Model(), Entries(extras), overridden)
    }

    ghost predicate Valid(sc: Schema)
      reads this, base, base.dicts, delta, extras
    {
      && base.Valid(sc)
      && AllValid(sc, extras)
      && ViewOK(sc, Model())
    }

    // The map this view denotes.
    ghost function Contents(): Contents
      reads this, base, base.dicts, delta, extras
    {
      Abs(Model())
    }

    // newView: an empty overlay over a fresh base, as valid as the base is.
    constructor Over(sc: Schema, base: Snapshot)
      ensures this.base == base && fresh(delta) && fresh(extras) && AllValid(sc, extras)
      ensures Model() == NewView(sc, base.Model())
      ensures base.Valid(sc) ==> Valid(sc) && Contents() == MapOf(base.Model().dicts, base.rows)
    {
      this.base := base;
      delta := new Delta();
      var ds := NewDicts(sc);
      extras := ds;
      overridden := [];
      new;
      assert Entries(extras) == NewView(sc, base.Model()).extras;
      if base.Valid(sc) {
        NewViewOK(sc, base.Model());
      }
    }

    // The copy an Apply batch works on: its own delta, the other view's dictionaries.
    constructor CopyOf(v: View)
      ensures base == v.base && extras == v.extras && fresh(delta) && delta.Model() == v.delta.Model()
      ensures overridden == if v.overridden == [] && |v.base.rows| > 0 then Zeros(|v.base.rows|) else v.overridden
    {
      base := v.base;
      extras := v.extras;
      delta := new Delta.Copy(v.delta);
      overridden := if v.overridden == [] && |v.base.rows| > 0 then Zeros(|v.base.rows|) else v.overridden;
    }
  }

  lemma SchemaOK(sc: Schema, v: View)
    requires v.Valid(sc)
    ensures sc.Valid()
  {
  }
}
