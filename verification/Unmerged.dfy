// Views nothing has been merged into yet: the smallest tables that hold given rows.
module Unmerged {
  import opened Table
  import opened Upsert

  // The place of every row by its ids.
  function IndexOf(rows: seq<Row>): map<seq<nat>, nat> {
    if |rows| == 0 then map[] else IndexOf(rows[..|rows| - 1])[rows[|rows| - 1].ids := |rows| - 1]
  }

  // An empty base under these dictionaries and rows.
  function RowsView(sc: Schema, ds: Dicts, rows: seq<Row>): ViewV {
    ViewV(EmptySnap(sc, EmptyShifts(sc.indexDims)), DeltaV(rows, IndexOf(rows), 0, false), ds, [])
  }

  // Never updated, never expiring.
  ghost predicate Unstamped(rows: seq<Row>) {
    forall r :: 0 <= r < |rows| ==> rows[r].updated == 0 && rows[r].expire == 0
  }

  lemma {:induction false} IndexOfOK(rows: seq<Row>)
    requires UniqueIds(rows)
    ensures forall r :: 0 <= r < |rows| ==> rows[r].ids in IndexOf(rows) && IndexOf(rows)[rows[r].ids] == r
    ensures forall k :: k in IndexOf(rows) ==> IndexOf(rows)[k] < |rows| && rows[IndexOf(rows)[k]].ids == k
  {
    if |rows| == 0 {
    } else {
      var (n, init) := (|rows| - 1, rows[..|rows| - 1]);
      IndexOfOK(init);
      assert forall r :: 0 <= r < n ==> init[r] == rows[r];
    }
  }

  lemma {:induction false} NoStamps(rows: seq<Row>)
    requires Unstamped(rows)
    ensures MaxUpdated(rows) == 0
  {
    if |rows| == 0 {
    } else {
      NoStamps(rows[..|rows| - 1]);
    }
  }

  lemma CombEmpty(sc: Schema, ds: Dicts)
    requires |ds| == |sc.dims|
    ensures Comb(EmptySnap(sc, EmptyShifts(sc.indexDims)).dicts, ds) == ds
  {
    var none := EmptySnap(sc, EmptyShifts(sc.indexDims)).dicts;
    assert forall d :: 0 <= d < |ds| ==> Comb(none, ds)[d] == [] + ds[d] == ds[d];
  }

  lemma RowsViewOK(sc: Schema, ds: Dicts, rows: seq<Row>)
    requires sc.Valid() && DictsOK(sc, ds) && RowsIn(sc, ds, rows) && UniqueIds(rows) && Unstamped(rows)
    ensures ViewOK(sc, RowsView(sc, ds, rows)) && CombOf(RowsView(sc, ds, rows)) == ds
    ensures Abs(RowsView(sc, ds, rows)) == MapOf(ds, rows)
  {
    hide SnapOK, DictsOK, RowsIn, DeltaOK, MapOf, EmptyShifts, IndexOf, Unstamped;
    DictsWide(sc, ds);
    EmptyLayout(sc.indexDims);
    EmptySnapOK(sc, EmptyShifts(sc.indexDims));
    CombEmpty(sc, ds);
    DeltaAlone(rows);
    NoneMapped(ds);
  }

  lemma DictsWide(sc: Schema, ds: Dicts)
    requires DictsOK(sc, ds)
    ensures |ds| == |sc.dims|
  {
  }

  lemma DeltaAlone(rows: seq<Row>)
    requires UniqueIds(rows) && Unstamped(rows)
    ensures DeltaOK(DeltaV(rows, IndexOf(rows), 0, false))
  {
    hide IndexOf, MaxUpdated, UniqueIds;
    IndexOfOK(rows);
    NoStamps(rows);
  }

  lemma NoneMapped(ds: Dicts)
    ensures MapOf(ds, []) == map[]
  {
  }
}
